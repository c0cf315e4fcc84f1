/** Properties of a whole build followed by `to_hash`. */
module BuildLaws {
  import opened Wrappers
  import opened Schema
  import opened Store
  import opened Evaluation
  import opened EvaluationLaws
  import opened Conversion
  import opened ConversionLaws

  /**
   * When no name is registered both as a field and as a relation, `to_hash`
   * never raises on a factory that finished its build.
   */
  lemma BuildConverts(sch: SchemaView, cls: ClassId, text: Payload, block: Payload)
    requires Consistent(sch) && sch.fields !! sch.relations
    requires Initialize(sch, cls, text, block).Ok?
    ensures ToHash(sch.fields, sch.relations, Initialize(sch, cls, text, block).value).Some?
  {
    InitializeWellFormed(sch, cls, text, block);
    ToHashDefinedIff(sch.fields, sch.relations, Initialize(sch, cls, text, block).value);
  }

  /** The overwrite law as `to_hash` shows it: `n(a); n(b)` reads back `b`. */
  lemma OverwriteShowsInHash(sch: SchemaView, cls: ClassId, n: Name, a: Value, b: Value)
    requires Consistent(sch) && sch.fields !! sch.relations
    requires Lookup(sch, cls, n) == Some(Setter)
    ensures var r := Initialize(sch, cls, Given([Call(n, [a], Absent), Call(n, [b], Absent)]), Absent);
      && r.Ok?
      && ToHash(sch.fields, sch.relations, r.value).Some?
      && ToHash(sch.fields, sch.relations, r.value).value.entries[n] == Scalar(b)
  {
    var text := Given([Call(n, [a], Absent), Call(n, [b], Absent)]);
    var x := Fresh(sch, cls);
    OverwriteLaw(sch, x, n, a, b);
    LookupFits(sch, cls, n);
    BuildConverts(sch, cls, text, Absent);
    var y := Initialize(sch, cls, text, Absent).value;
    FieldEntryValue(sch.fields, sch.relations, y, n);
  }

  /**
   * A field that is registered but never set appears in `to_hash` as `nil`:
   * the fresh store has no entry for it, no statement of the payload writes
   * one, and no default is substituted.
   */
  lemma UnsetFieldIsNil(sch: SchemaView, cls: ClassId, stmts: seq<Stmt>, n: Name)
    requires Consistent(sch) && sch.fields !! sch.relations
    requires n in sch.fields
    requires forall i :: 0 <= i < |stmts| ==> stmts[i].name != n
    requires Initialize(sch, cls, Given(stmts), Absent).Ok?
    ensures var y := Initialize(sch, cls, Given(stmts), Absent).value;
      && ToHash(sch.fields, sch.relations, y).Some?
      && ToHash(sch.fields, sch.relations, y).value.entries[n] == Scalar(Nil)
  {
    var x := Fresh(sch, cls);
    FreshWellFormed(sch, cls);
    OtherStatementsKeepEntry(sch, x, stmts, n);
    BuildConverts(sch, cls, Given(stmts), Absent);
    FieldEntryValue(sch.fields, sch.relations, Initialize(sch, cls, Given(stmts), Absent).value, n);
  }

  /**
   * Relation statements show up in `to_hash` in encounter order: the list
   * under a relation has one hash per statement of the payload that appends
   * to it, the `i`-th being the hash of the child built from the `i`-th such
   * statement's block; statements of other fields and relations add nothing.
   */
  lemma RelationOrderInHash(sch: SchemaView, cls: ClassId, stmts: seq<Stmt>, relation: Name)
    requires Consistent(sch) && sch.fields !! sch.relations
    requires relation in sch.relations
    requires Initialize(sch, cls, Given(stmts), Absent).Ok?
    ensures var y := Initialize(sch, cls, Given(stmts), Absent).value;
      var a := AppendersTo(sch, cls, relation, stmts);
      && ToHash(sch.fields, sch.relations, y).Some?
      && var e := ToHash(sch.fields, sch.relations, y).value.entries[relation];
      && e.List?
      && |e.items| == |a|
      && forall i :: 0 <= i < |a| ==>
           var child := BuiltChild(sch, cls, relation, a[i]);
           && child.Ok?
           && ToHash(sch.fields, sch.relations, child.value) == Some(e.items[i])
  {
    var x := Fresh(sch, cls);
    FreshWellFormed(sch, cls);
    assert x.values[relation] == Kids([]);
    RelationGrowsInOrder(sch, x, stmts, relation);
    BuildConverts(sch, cls, Given(stmts), Absent);
    var y := Initialize(sch, cls, Given(stmts), Absent).value;
    RelationEntry(sch.fields, sch.relations, y, relation);
  }
}

/** The has-many example: a sprocket named 'Coffee Mug' with a handle and a cup. */
module CoffeeMug {
  import opened Wrappers
  import opened Schema
  import opened Store
  import opened Evaluation
  import opened Conversion

  /** `ComponentFactory` (class 0) with `field :name`; `SprocketFactory` (class 1) with `field :name` and `has_many :components`. */
  function Registries(): SchemaView
  {
    SchemaView({"name"}, {"components"},
           [map["name" := Setter], map["name" := Setter, "component" := Appender("components", 0)]])
  }

  function Part(title: string): Stmt
  {
    Call("component", [], Given([Call("name", [Str(title)], Absent)]))
  }

  function Script(): seq<Stmt>
  {
    [Call("name", [Str("Coffee Mug")], Absent), Part("handle"), Part("cup")]
  }

  /** A component's hash; the shared registry gives it an empty `components` list too. */
  function PartHash(title: string): Hash
  {
    Hash(map["name" := Scalar(Str(title)), "components" := List([])])
  }

  /** The store of a built component. */
  function PartStore(title: string): Instance
  {
    Instance(0, map["components" := Kids([]), "name" := Val(Str(title))])
  }

  /** The store of the built sprocket. */
  function SprocketStore(): Instance
  {
    Instance(1, map["components" := Kids([PartStore("handle"), PartStore("cup")]),
                    "name" := Val(Str("Coffee Mug"))])
  }

  lemma {:induction false} PartBuilds(title: string)
    ensures Initialize(Registries(), 0, Absent, Part(title).block) == Ok(PartStore(title))
    ensures ToHash({"name"}, {"components"}, PartStore(title)) == Some(PartHash(title))
  {
    var sch := Registries();
    var x := Fresh(sch, 0);
    assert x.values == map["components" := Kids([])];
    var st := Call("name", [Str(title)], Absent);
    var y := PartStore(title);
    assert Step(sch, x, st) == Ok(y);
    assert Run(sch, x, [st]) == Run(sch, y, []);
    var h := ToHash({"name"}, {"components"}, y);
    assert Relation({"name"}, {"components"}, y, "components") == Some([]);
    assert h.Some?;
    assert h.value.entries == PartHash(title).entries;
  }

  /** The sprocket's store after its name statement, and after the handle. */
  function NamedSprocket(parts: seq<Instance>): Instance
  {
    Instance(1, map["components" := Kids(parts), "name" := Val(Str("Coffee Mug"))])
  }

  lemma {:induction false} NameStep()
    ensures Step(Registries(), Fresh(Registries(), 1), Script()[0]) == Ok(NamedSprocket([]))
  {
    var x0 := Fresh(Registries(), 1);
    assert x0.values == map["components" := Kids([])];
    assert x0.values["name" := Val(Str("Coffee Mug"))] == NamedSprocket([]).values;
  }

  lemma {:induction false} PartStep(before: seq<Instance>, title: string)
    ensures Step(Registries(), NamedSprocket(before), Part(title)) ==
            Ok(NamedSprocket(before + [PartStore(title)]))
  {
    PartBuilds(title);
    var x := NamedSprocket(before);
    assert x.values["components" := Kids(before + [PartStore(title)])] ==
           NamedSprocket(before + [PartStore(title)]).values;
    assert Append(x, "components", PartStore(title)) == Ok(NamedSprocket(before + [PartStore(title)]));
  }

  /** The sprocket's statements run in order: the name, then the handle, then the cup. */
  lemma {:induction false} CoffeeMugBuilds()
    ensures Initialize(Registries(), 1, Given(Script()), Absent) == Ok(SprocketStore())
  {
    var sch := Registries();
    var s := Script();
    var handle, cup := PartStore("handle"), PartStore("cup");
    NameStep();
    PartStep([], "handle");
    PartStep([handle], "cup");
    assert s[1] == Part("handle") && s[2] == Part("cup");
    assert [] + [handle] == [handle] && [handle] + [cup] == [handle, cup];
    assert NamedSprocket([handle, cup]) == SprocketStore();
    assert s[1..][1..] == [s[2]] && s[1..][1..][1..] == [];
    assert Run(sch, NamedSprocket([handle, cup]), []) == Ok(SprocketStore());
    assert Run(sch, NamedSprocket([handle]), [s[2]]) == Ok(SprocketStore());
    assert Run(sch, NamedSprocket([]), s[1..]) == Ok(SprocketStore());
    assert Run(sch, Fresh(sch, 1), s) == Ok(SprocketStore());
  }

  /** `map(&:to_hash)` over the two components. */
  lemma {:induction false} PartsConvert()
    ensures ConvertAll({"name"}, {"components"}, [PartStore("handle"), PartStore("cup")]) ==
            Some([PartHash("handle"), PartHash("cup")])
  {
    PartBuilds("handle");
    PartBuilds("cup");
    var handle, cup := PartStore("handle"), PartStore("cup");
    assert [cup][1..] == [] && [handle, cup][1..] == [cup];
    assert ConvertAll({"name"}, {"components"}, []) == Some([]);
    assert [PartHash("cup")] + [] == [PartHash("cup")];
    assert ConvertAll({"name"}, {"components"}, [cup]) == Some([PartHash("cup")]);
    assert [PartHash("handle")] + [PartHash("cup")] == [PartHash("handle"), PartHash("cup")];
  }

  /** The sprocket's hash: its name, and its components in order. */
  lemma {:induction false} SprocketConverts()
    ensures ToHash({"name"}, {"components"}, SprocketStore()) ==
      Some(Hash(map["name" := Scalar(Str("Coffee Mug")),
                    "components" := List([PartHash("handle"), PartHash("cup")])]))
  {
    PartsConvert();
    var x := SprocketStore();
    var hs := [PartHash("handle"), PartHash("cup")];
    assert Relation({"name"}, {"components"}, x, "components") == Some(hs);
    assert FieldEntry(x, "name") == Scalar(Str("Coffee Mug"));
    var h := ToHash({"name"}, {"components"}, x);
    assert h.Some?;
    assert h.value.entries == map["name" := Scalar(Str("Coffee Mug")), "components" := List(hs)];
  }

  /**
   * The whole build and its hash, as the has-many example checks them: the
   * handle at index 0 and the cup at index 1.
   */
  lemma CoffeeMugHash()
    ensures Initialize(Registries(), 1, Given(Script()), Absent).Ok?
    ensures ToHash({"name"}, {"components"}, Initialize(Registries(), 1, Given(Script()), Absent).value) ==
      Some(Hash(map["name" := Scalar(Str("Coffee Mug")),
                    "components" := List([PartHash("handle"), PartHash("cup")])]))
  {
    CoffeeMugBuilds();
    SprocketConverts();
  }
}
