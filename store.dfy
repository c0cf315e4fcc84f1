/**
 * The per-instance value store `@values` of a factory object.
 *
 * A child factory is never changed after its constructor returns and no
 * reference to it leaves its parent's store, so the model keeps each child
 * as the value of its class and store (an `Instance`).
 */
module Store {
  import opened Schema

  /** One entry of `@values`: a field's value, or a relation's array of children. */
  datatype Slot = Val(v: Value) | Kids(children: seq<Instance>)

  /** A factory object as far as the DSL can observe it: its class and `@values`. */
  datatype Instance = Instance(cls: ClassId, values: map<Name, Slot>)

  /** The store `initialize` starts from: an empty array for every has-many name, nothing else. */
  function Fresh(sch: SchemaView, cls: ClassId): Instance
  {
    Instance(cls, map r | r in sch.relations :: Kids([]))
  }

  /**
   * Every has-many name holds an array, and so does every child, recursively:
   * exactly what `to_hash` needs to call `map` on each relation entry.
   */
  ghost predicate WellFormed(relations: set<Name>, x: Instance)
    decreases x
  {
    forall r :: r in relations ==>
      && r in x.values
      && x.values[r].Kids?
      && forall i :: 0 <= i < |x.values[r].children| ==> WellFormed(relations, x.values[r].children[i])
  }

  lemma FreshWellFormed(sch: SchemaView, cls: ClassId)
    ensures WellFormed(sch.relations, Fresh(sch, cls))
    ensures forall n :: n in Fresh(sch, cls).values <==> n in sch.relations
  {
  }
}
