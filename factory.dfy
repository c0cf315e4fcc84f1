/**
 * `ActiveDSL::Factory` instances (lib/active_dsl.rb:8-23, 28-31, 40-45): an
 * object whose `@values` hash is filled in place while its DSL payload runs.
 * Each method is proved against the pure semantics of module Evaluation.
 */
module Factories {
  import opened Wrappers
  import opened Schema
  import opened Store
  import opened Evaluation
  import Conversion
  import ConversionLaws

  class Factory {
    const registry: Registry
    const cls: ClassId
    var values: map<Name, Slot>   // @values

    /** The factory as a value: its class and its store. */
    function Snapshot(): Instance
      reads this
    {
      Instance(cls, values)
    }

    /**
     * The first half of `initialize`: an empty `@values`, then an empty array
     * for every name in the shared has-many registry.
     */
    constructor (registry: Registry, cls: ClassId)
      ensures this.registry == registry && this.cls == cls
      ensures values.Keys == registry.hasMany.Keys
      ensures forall r :: r in values ==> values[r] == Kids([])
      ensures Snapshot() == Fresh(registry.View(), cls)
    {
      var store: map<Name, Slot> := map[];
      var todo := registry.hasMany.Keys;
      while todo != {}
        invariant todo <= registry.hasMany.Keys
        invariant store == map r | r in registry.hasMany.Keys - todo :: Kids([])
        decreases todo
      {
        var r :| r in todo;
        store := store[r := Kids([])];
        todo := todo - {r};
      }
      this.registry := registry;
      this.cls := cls;
      this.values := store;
    }

    /** The setter `define_method(name) { |value| @values[name] = value }`. */
    method Set(name: Name, value: Value)
      modifies this
      ensures values == old(values)[name := Val(value)]
    {
      values := values[name := Val(value)];
    }

    /** `@values[relation] << child`; `ok` is false where Ruby raises. */
    method Push(relation: Name, child: Instance) returns (ok: bool)
      modifies this
      ensures ok <==> relation in old(values) && old(values)[relation].Kids?
      ensures ok ==> values == old(values)[relation := Kids(old(values)[relation].children + [child])]
      ensures !ok ==> values == old(values)
    {
      ok := relation in values && values[relation].Kids?;
      if ok {
        values := values[relation := Kids(values[relation].children + [child])];
      }
    }

    /**
     * `instance_eval` of a payload: each statement calls the generated method
     * it names, in order; the first exception ends the evaluation and is
     * returned.
     */
    method Evaluate(stmts: seq<Stmt>) returns (err: Option<Error>)
      modifies this
      decreases stmts
      ensures Run(registry.View(), old(Snapshot()), stmts) ==
              if err.None? then Ok(Snapshot()) else Err(err.value)
    {
      var i := 0;
      while i < |stmts|
        invariant 0 <= i <= |stmts|
        invariant Run(registry.View(), old(Snapshot()), stmts) == Run(registry.View(), Snapshot(), stmts[i..])
        decreases |stmts| - i
      {
        var st := stmts[i];
        assert stmts[i..][0] == st && stmts[i..][1..] == stmts[i + 1..];
        var before := Snapshot();
        match Lookup(registry.View(), cls, st.name) {
          case None =>
            return Some(NoMethod(st.name, cls));
          case Some(Setter) =>
            if |st.args| != 1 {
              return Some(WrongArity(st.name, |st.args|, 1));
            }
            Set(st.name, st.args[0]);
          case Some(Appender(relation, element)) =>
            if |st.args| != 0 {
              return Some(WrongArity(st.name, |st.args|, 0));
            }
            var built := New(registry, element, Absent, st.block);
            if built.Err? {
              return Some(built.error);
            }
            var ok := Push(relation, built.value.Snapshot());
            if !ok {
              return Some(NotAList(relation));
            }
        }
        assert Step(registry.View(), before, st) == Ok(Snapshot());
        i := i + 1;
      }
      assert stmts[i..] == [];
      err := None;
    }

    /** `to_hash`: reads the store and the shared registries, changes nothing. */
    function ToHash(): (h: Option<Conversion.Hash>)
      reads this, registry
      ensures h.Some? ==> h.value.entries.Keys == registry.fields.Keys + registry.hasMany.Keys
      ensures h.Some? <==> WellFormed(registry.hasMany.Keys, Snapshot())
    {
      ConversionLaws.ToHashDefinedIff(registry.fields.Keys, registry.hasMany.Keys, Snapshot());
      Conversion.ToHash(registry.fields.Keys, registry.hasMany.Keys, Snapshot())
    }
  }

  /**
   * `cls.new(dsl_text, &block)`: a fresh factory whose payload (the block when
   * one is given, the text otherwise) has run to completion, or the exception
   * that aborted it.
   */
  method New(registry: Registry, cls: ClassId, text: Payload, block: Payload)
    returns (r: Result<Factory, Error>)
    decreases if text.Given? && !block.Given? then text else block
    ensures r.Ok? ==> fresh(r.value) && r.value.registry == registry && r.value.cls == cls
    ensures match r
      case Ok(f) => Initialize(registry.View(), cls, text, block) == Ok(f.Snapshot())
      case Err(e) => Initialize(registry.View(), cls, text, block) == Err(e)
  {
    var f := new Factory(registry, cls);
    var err: Option<Error>;
    if block.Given? {
      err := f.Evaluate(block.stmts);
    } else if text.Given? {
      err := f.Evaluate(text.stmts);
    } else {
      return Err(NoPayload(cls));
    }
    r := if err.None? then Ok(f) else Err(err.value);
  }
}
