/**
 * `to_hash` (lib/active_dsl.rb:18-23): every registered field name maps to
 * `@values[name]`, then every has-many name maps to its children's own
 * `to_hash`, in order. It only reads the store.
 */
module Conversion {
  import opened Wrappers
  import opened Schema
  import opened Store

  /** One entry of the produced hash. */
  datatype Entry =
    | Scalar(v: Value)            // a field's value, `nil` when never set
    | Objects(factories: seq<Instance>) // a field entry that holds an array of child factories as they are
    | List(items: seq<Hash>)      // a relation: the children converted in turn

  datatype Hash = Hash(entries: map<Name, Entry>)

  /** `result[name] = @values[name]` for a field name. */
  function FieldEntry(x: Instance, n: Name): Entry
  {
    if n !in x.values then Scalar(Nil)
    else match x.values[n]
      case Val(v) => Scalar(v)
      case Kids(cs) => Objects(cs)
  }

  /** `@values[r].map(&:to_hash)`; `None` when the entry is not an array (NoMethodError). */
  function Relation(fields: set<Name>, relations: set<Name>, x: Instance, r: Name): Option<seq<Hash>>
    decreases x, 0
  {
    if r in x.values then ConvertSlot(fields, relations, x.values[r]) else None
  }

  function ConvertSlot(fields: set<Name>, relations: set<Name>, s: Slot): Option<seq<Hash>>
    decreases s
  {
    match s
    case Val(_) => None
    case Kids(cs) => ConvertAll(fields, relations, cs)
  }

  function ConvertAll(fields: set<Name>, relations: set<Name>, cs: seq<Instance>): Option<seq<Hash>>
    decreases cs
  {
    if cs == [] then Some([])
    else match ToHash(fields, relations, cs[0])
      case None => None
      case Some(h) =>
        match ConvertAll(fields, relations, cs[1..])
        case None => None
        case Some(hs) => Some([h] + hs)
  }

  /**
   * The hash of one factory, `None` when Ruby would raise. The relation loop
   * runs second, so a name registered both ways gets the relation entry.
   */
  function ToHash(fields: set<Name>, relations: set<Name>, x: Instance): (h: Option<Hash>)
    decreases x, 1
    ensures h.Some? ==> h.value.entries.Keys == fields + relations
  {
    if forall r :: r in relations ==> Relation(fields, relations, x, r).Some? then
      Some(Hash(map n | n in fields + relations ::
        if n in relations then List(Relation(fields, relations, x, n).value) else FieldEntry(x, n)))
    else None
  }
}

/** What `to_hash` promises. */
module ConversionLaws {
  import opened Wrappers
  import opened Schema
  import opened Store
  import opened Conversion

  /** `to_hash` raises exactly when some has-many entry, at some depth, is not an array. */
  lemma {:induction false} ToHashDefinedIff(fields: set<Name>, relations: set<Name>, x: Instance)
    ensures ToHash(fields, relations, x).Some? <==> WellFormed(relations, x)
    decreases x, 1
  {
    forall r | r in relations
      ensures Relation(fields, relations, x, r).Some? <==>
        && r in x.values
        && x.values[r].Kids?
        && forall i :: 0 <= i < |x.values[r].children| ==> WellFormed(relations, x.values[r].children[i])
    {
      if r in x.values && x.values[r].Kids? {
        ConvertAllDefinedIff(fields, relations, x.values[r].children);
      }
    }
  }

  lemma {:induction false} ConvertAllDefinedIff(fields: set<Name>, relations: set<Name>, cs: seq<Instance>)
    ensures ConvertAll(fields, relations, cs).Some? <==>
            forall i :: 0 <= i < |cs| ==> WellFormed(relations, cs[i])
    decreases cs
  {
    if cs != [] {
      ToHashDefinedIff(fields, relations, cs[0]);
      ConvertAllDefinedIff(fields, relations, cs[1..]);
      assert forall i :: 1 <= i < |cs| ==> cs[1..][i - 1] == cs[i];
    }
  }

  /** `map(&:to_hash)` keeps the length and the order of the children. */
  lemma {:induction false} ConvertAllInOrder(fields: set<Name>, relations: set<Name>, cs: seq<Instance>)
    requires ConvertAll(fields, relations, cs).Some?
    ensures |ConvertAll(fields, relations, cs).value| == |cs|
    ensures forall i :: 0 <= i < |cs| ==>
              ToHash(fields, relations, cs[i]) == Some(ConvertAll(fields, relations, cs).value[i])
    decreases cs
  {
    if cs != [] {
      ConvertAllInOrder(fields, relations, cs[1..]);
      var hs := ConvertAll(fields, relations, cs).value;
      assert forall i :: 1 <= i < |cs| ==> cs[1..][i - 1] == cs[i] && hs[i] == hs[1..][i - 1];
    }
  }

  /**
   * A relation name maps to the list of its children's hashes, the `i`-th
   * child's hash at index `i`; this holds even when the name is also a field.
   */
  lemma RelationEntry(fields: set<Name>, relations: set<Name>, x: Instance, r: Name)
    requires ToHash(fields, relations, x).Some? && r in relations
    ensures r in x.values && x.values[r].Kids?
    ensures var e := ToHash(fields, relations, x).value.entries[r];
      && e.List?
      && |e.items| == |x.values[r].children|
      && forall i :: 0 <= i < |e.items| ==>
           ToHash(fields, relations, x.values[r].children[i]) == Some(e.items[i])
  {
    var rel := Relation(fields, relations, x, r);
    assert rel.Some?;
    assert r in x.values && ConvertSlot(fields, relations, x.values[r]) == rel;
    var cs := x.values[r].children;
    assert rel == ConvertAll(fields, relations, cs);
    ConvertAllInOrder(fields, relations, cs);
    assert ToHash(fields, relations, x).value.entries[r] == List(rel.value);
  }

  /**
   * A field name that is not a relation maps to the value last stored, or to
   * `nil` when it was never set: no default is substituted.
   */
  lemma FieldEntryValue(fields: set<Name>, relations: set<Name>, x: Instance, n: Name)
    requires ToHash(fields, relations, x).Some? && n in fields && n !in relations
    ensures n !in x.values ==> ToHash(fields, relations, x).value.entries[n] == Scalar(Nil)
    ensures n in x.values && x.values[n].Val? ==>
              ToHash(fields, relations, x).value.entries[n] == Scalar(x.values[n].v)
  {
  }
}
