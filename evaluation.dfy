/**
 * Evaluation of a DSL payload against a factory class (lib/active_dsl.rb:8-16,
 * 28-31, 40-45), as pure functions on `Instance` values.
 *
 * Ruby runs the payload with `instance_eval`, so each statement is a method
 * call on the factory object; the methods are the ones `field` and `has_many`
 * generated. Here a statement is looked up in the class's method table and
 * dispatched on the handler found.
 */
module Evaluation {
  import opened Wrappers
  import opened Schema
  import opened Store

  /** A DSL text or block, or Ruby's `nil` when none is passed. */
  datatype Payload = Absent | Given(stmts: seq<Stmt>)

  /** One method call in the DSL: `name arg, ...` optionally followed by a `do ... end` block. */
  datatype Stmt = Call(name: Name, args: seq<Value>, block: Payload)

  /** The exceptions that abort a build. */
  datatype Error =
    | NoMethod(name: Name, cls: ClassId)              // NoMethodError: not in the class's DSL vocabulary
    | WrongArity(name: Name, given: nat, expected: nat) // ArgumentError from a generated method
    | NoPayload(cls: ClassId)                         // TypeError: `instance_eval(nil)`
    | NotAList(relation: Name)                        // `<<` on a relation entry that is not an Array

  /** `@values[relation] << child`. */
  function Append(x: Instance, relation: Name, child: Instance): (r: Result<Instance, Error>)
    ensures r.Ok? <==> relation in x.values && x.values[relation].Kids?
    ensures r.Err? ==> r.error == NotAList(relation)
    ensures r.Ok? ==>
      && r.value.cls == x.cls
      && r.value.values.Keys == x.values.Keys
      && r.value.values[relation].Kids?
      && r.value.values[relation].children == x.values[relation].children + [child]
      && forall n :: n in x.values && n != relation ==> r.value.values[n] == x.values[n]
  {
    if relation in x.values && x.values[relation].Kids?
    then Ok(x.(values := x.values[relation := Kids(x.values[relation].children + [child])]))
    else Err(NotAList(relation))
  }

  /** One DSL statement, dispatched to the method `define_method` generated for it. */
  function Step(sch: SchemaView, x: Instance, st: Stmt): (r: Result<Instance, Error>)
    decreases st
    ensures r.Ok? ==> r.value.cls == x.cls && x.values.Keys <= r.value.values.Keys
    ensures Lookup(sch, x.cls, st.name).None? ==> r == Err(NoMethod(st.name, x.cls))
  {
    match Lookup(sch, x.cls, st.name)
    case None => Err(NoMethod(st.name, x.cls))
    case Some(Setter) =>
      if |st.args| != 1 then Err(WrongArity(st.name, |st.args|, 1))
      else Ok(x.(values := x.values[st.name := Val(st.args[0])]))
    case Some(Appender(relation, element)) =>
      if |st.args| != 0 then Err(WrongArity(st.name, |st.args|, 0))
      else match Initialize(sch, element, Absent, st.block)
        case Err(e) => Err(e)
        case Ok(child) => Append(x, relation, child)
  }

  /** The statements of one payload, in order, stopping at the first exception. */
  function Run(sch: SchemaView, x: Instance, stmts: seq<Stmt>): (r: Result<Instance, Error>)
    decreases stmts
    ensures r.Ok? ==> r.value.cls == x.cls && x.values.Keys <= r.value.values.Keys
  {
    if stmts == [] then Ok(x)
    else match Step(sch, x, stmts[0])
      case Err(e) => Err(e)
      case Ok(y) => Run(sch, y, stmts[1..])
  }

  /**
   * `cls.new(dsl_text, &block)`: start from the fresh store, then evaluate the
   * block when one is given, and the text otherwise.
   */
  function Initialize(sch: SchemaView, cls: ClassId, text: Payload, block: Payload): (r: Result<Instance, Error>)
    decreases if text.Given? && !block.Given? then text else block
    ensures r.Ok? ==> r.value.cls == cls && sch.relations <= r.value.values.Keys
    ensures !text.Given? && !block.Given? ==> r == Err(NoPayload(cls))
  {
    if block.Given? then Run(sch, Fresh(sch, cls), block.stmts)
    else if text.Given? then Run(sch, Fresh(sch, cls), text.stmts)
    else Err(NoPayload(cls))
  }
}

/** What evaluating a payload promises about the value store. */
module EvaluationLaws {
  import opened Wrappers
  import opened Schema
  import opened Store
  import opened Evaluation

  /** Statement sequences compose: the second part runs on the store the first part left. */
  lemma {:induction false} RunConcat(sch: SchemaView, x: Instance, a: seq<Stmt>, b: seq<Stmt>)
    ensures Run(sch, x, a + b) ==
      match Run(sch, x, a)
      case Err(e) => Err(e)
      case Ok(y) => Run(sch, y, b)
    decreases a
  {
    if a != [] {
      assert (a + b)[0] == a[0];
      assert (a + b)[1..] == a[1..] + b;
      match Step(sch, x, a[0])
      case Err(e) =>
      case Ok(y) => RunConcat(sch, y, a[1..], b);
    } else {
      assert a + b == b;
    }
  }

  /**
   * A field statement `name(v)` stores `v` under `name` and leaves every other
   * entry alone; a block given to the setter is ignored; any other number of
   * arguments is an ArgumentError.
   */
  lemma SetterStep(sch: SchemaView, x: Instance, name: Name, args: seq<Value>, block: Payload)
    requires Lookup(sch, x.cls, name) == Some(Setter)
    ensures |args| != 1 ==> Step(sch, x, Call(name, args, block)) == Err(WrongArity(name, |args|, 1))
    ensures |args| == 1 ==>
      var r := Step(sch, x, Call(name, args, block));
      && r.Ok?
      && r.value.cls == x.cls
      && r.value.values.Keys == x.values.Keys + {name}
      && r.value.values[name] == Val(args[0])
      && (forall n :: n in x.values && n != name ==> r.value.values[n] == x.values[n])
      && r == Step(sch, x, Call(name, args, Absent))
  {
  }

  /**
   * A relation statement `singular { ... }` builds a child of the element class
   * from its block and puts it at the end of the relation's array: the array
   * grows by one, earlier children and all other entries are unchanged.
   */
  lemma AppenderStep(sch: SchemaView, x: Instance, singular: Name, relation: Name, element: ClassId,
                     args: seq<Value>, block: Payload)
    requires Lookup(sch, x.cls, singular) == Some(Appender(relation, element))
    ensures |args| != 0 ==> Step(sch, x, Call(singular, args, block)) == Err(WrongArity(singular, |args|, 0))
    ensures |args| == 0 && block == Absent ==>
      Step(sch, x, Call(singular, args, block)) == Err(NoPayload(element))
    ensures |args| == 0 && Initialize(sch, element, Absent, block).Err? ==>
      Step(sch, x, Call(singular, args, block)) == Err(Initialize(sch, element, Absent, block).error)
    ensures |args| == 0 && Initialize(sch, element, Absent, block).Ok? ==>
      var r := Step(sch, x, Call(singular, args, block));
      var child := Initialize(sch, element, Absent, block).value;
      if relation in x.values && x.values[relation].Kids? then
        && r.Ok?
        && r.value.values.Keys == x.values.Keys
        && r.value.values[relation].Kids?
        && |r.value.values[relation].children| == |x.values[relation].children| + 1
        && r.value.values[relation].children[..|x.values[relation].children|] == x.values[relation].children
        && r.value.values[relation].children[|x.values[relation].children|] == child
        && (forall n :: n in x.values && n != relation ==> r.value.values[n] == x.values[n])
      else r == Err(NotAList(relation))
  {
  }

  /** The block passed to `new` takes precedence over the DSL text. */
  lemma BlockTakesPrecedence(sch: SchemaView, cls: ClassId, text: Payload, block: Payload)
    requires block.Given?
    ensures Initialize(sch, cls, text, block) == Initialize(sch, cls, Absent, block)
    ensures Initialize(sch, cls, text, block) == Run(sch, Fresh(sch, cls), block.stmts)
  {
  }

  /** `Factory.new` with neither text nor block fails: Ruby calls `instance_eval(nil)`. */
  lemma NoPayloadFails(sch: SchemaView, cls: ClassId)
    ensures Initialize(sch, cls, Absent, Absent) == Err(NoPayload(cls))
  {
  }

  /**
   * Statements that do not name `n` leave the entry for `n` as it was, provided
   * `n` is not a has-many name (relation statements write only relation entries).
   */
  lemma {:induction false} OtherStatementsKeepEntry(sch: SchemaView, x: Instance, stmts: seq<Stmt>, n: Name)
    requires Consistent(sch) && n !in sch.relations
    requires forall i :: 0 <= i < |stmts| ==> stmts[i].name != n
    requires Run(sch, x, stmts).Ok?
    ensures n in Run(sch, x, stmts).value.values <==> n in x.values
    ensures n in x.values ==> Run(sch, x, stmts).value.values[n] == x.values[n]
    decreases stmts
  {
    if stmts != [] {
      var st := stmts[0];
      LookupFits(sch, x.cls, st.name);
      var y := Step(sch, x, st).value;
      assert n in y.values <==> n in x.values;
      assert n in x.values ==> y.values[n] == x.values[n];
      OtherStatementsKeepEntry(sch, y, stmts[1..], n);
    }
  }

  /**
   * A value stored under `n` survives statements that do not name `n`: a
   * setter writes only its own name, and a relation statement whose array
   * entry is `n` would append onto a scalar, which aborts the build.
   */
  lemma {:induction false} OtherStatementsKeepValue(sch: SchemaView, x: Instance, stmts: seq<Stmt>, n: Name, v: Value)
    requires n in x.values && x.values[n] == Val(v)
    requires forall i :: 0 <= i < |stmts| ==> stmts[i].name != n
    requires Run(sch, x, stmts).Ok?
    ensures n in Run(sch, x, stmts).value.values && Run(sch, x, stmts).value.values[n] == Val(v)
    decreases stmts
  {
    if stmts != [] {
      var st := stmts[0];
      var y := Step(sch, x, st).value;
      match Lookup(sch, x.cls, st.name).value {
        case Setter =>
        case Appender(relation, element) =>
          assert relation != n;
      }
      assert y.values[n] == Val(v);
      OtherStatementsKeepValue(sch, y, stmts[1..], n, v);
    }
  }

  /**
   * Last write wins: after `n(v)` no later statement that names another method
   * changes the entry, so a build that finishes ends with `v` stored under `n`,
   * whatever earlier statements stored there.
   */
  lemma LastWriteWins(sch: SchemaView, x: Instance, before: seq<Stmt>, n: Name, v: Value, block: Payload,
                      after: seq<Stmt>)
    requires forall i :: 0 <= i < |after| ==> after[i].name != n
    requires Run(sch, x, before + [Call(n, [v], block)] + after).Ok?
    ensures var y := Run(sch, x, before + [Call(n, [v], block)] + after).value;
      n in y.values && y.values[n] == Val(v)
  {
    var st := Call(n, [v], block);
    RunConcat(sch, x, before + [st], after);
    RunConcat(sch, x, before, [st]);
    var y := Run(sch, x, before).value;
    var z := Step(sch, y, st).value;
    assert Run(sch, y, [st]) == Ok(z);
    match Lookup(sch, y.cls, n).value {
      case Setter =>
      case Appender(relation, element) =>
        assert false;
    }
    OtherStatementsKeepValue(sch, z, after, n, v);
  }

  /** The two-write case of the law: `n(a); n(b)` leaves `b`. */
  lemma OverwriteLaw(sch: SchemaView, x: Instance, n: Name, a: Value, b: Value)
    requires Lookup(sch, x.cls, n) == Some(Setter)
    ensures Run(sch, x, [Call(n, [a], Absent), Call(n, [b], Absent)]) ==
            Ok(x.(values := x.values[n := Val(b)]))
  {
    var s := [Call(n, [a], Absent), Call(n, [b], Absent)];
    var y := x.(values := x.values[n := Val(a)]);
    assert Step(sch, x, s[0]) == Ok(y);
    assert s[1..] == [s[1]];
    assert y.values[n := Val(b)] == x.values[n := Val(b)];
    assert Step(sch, y, s[1]) == Ok(x.(values := x.values[n := Val(b)]));
    assert Run(sch, y, s[1..]) == Step(sch, y, s[1]);
  }

  /**
   * Relation statements append in encounter order: after `k` statements naming
   * the relation's singular method, the array holds the earlier children
   * followed by the `k` new children, the `i`-th built from the `i`-th block.
   */
  lemma {:induction false} AppendsInOrder(sch: SchemaView, x: Instance, stmts: seq<Stmt>,
                                          singular: Name, relation: Name, element: ClassId)
    requires Lookup(sch, x.cls, singular) == Some(Appender(relation, element))
    requires relation in x.values && x.values[relation].Kids?
    requires forall i :: 0 <= i < |stmts| ==> stmts[i].name == singular
    requires Run(sch, x, stmts).Ok?
    ensures var y := Run(sch, x, stmts).value;
      var before := x.values[relation].children;
      && relation in y.values && y.values[relation].Kids?
      && |y.values[relation].children| == |before| + |stmts|
      && y.values[relation].children[..|before|] == before
      && forall i :: 0 <= i < |stmts| ==>
           Initialize(sch, element, Absent, stmts[i].block) == Ok(y.values[relation].children[|before| + i])
    decreases stmts
  {
    var before := x.values[relation].children;
    if stmts != [] {
      var st := stmts[0];
      AppenderStep(sch, x, singular, relation, element, st.args, st.block);
      var x1 := Step(sch, x, st).value;
      var child := Initialize(sch, element, Absent, st.block).value;
      assert x1.values[relation].children == before + [child];
      assert x1.cls == x.cls;
      AppendsInOrder(sch, x1, stmts[1..], singular, relation, element);
      var y := Run(sch, x, stmts).value;
      assert y == Run(sch, x1, stmts[1..]).value;
      var ys := y.values[relation].children;
      assert ys[..|before| + 1] == before + [child];
      assert ys[..|before|] == (ys[..|before| + 1])[..|before|];
      forall i | 0 <= i < |stmts|
        ensures Initialize(sch, element, Absent, stmts[i].block) == Ok(ys[|before| + i])
      {
        if i == 0 {
          assert ys[|before|] == (ys[..|before| + 1])[|before|];
        } else {
          assert stmts[1..][i - 1] == stmts[i];
        }
      }
    }
  }

  /** Statement `st` of class `cls` is a relation statement that appends to `relation`. */
  predicate AppendsTo(sch: SchemaView, cls: ClassId, relation: Name, st: Stmt)
  {
    Lookup(sch, cls, st.name).Some? && Lookup(sch, cls, st.name).value.Appender?
    && Lookup(sch, cls, st.name).value.relation == relation
  }

  /** The statements of `stmts` that append to `relation`, in their original order. */
  function AppendersTo(sch: SchemaView, cls: ClassId, relation: Name, stmts: seq<Stmt>): (a: seq<Stmt>)
    ensures |a| <= |stmts|
    ensures forall i :: 0 <= i < |a| ==> AppendsTo(sch, cls, relation, a[i])
    ensures forall st :: st in a ==> st in stmts
  {
    if stmts == [] then []
    else (if AppendsTo(sch, cls, relation, stmts[0]) then [stmts[0]] else [])
         + AppendersTo(sch, cls, relation, stmts[1..])
  }

  /**
   * One statement and a relation's array: a statement appending to it adds the
   * child built from its block, any other statement leaves the entry alone.
   */
  lemma RelationStep(sch: SchemaView, x: Instance, st: Stmt, relation: Name)
    requires Consistent(sch) && relation !in sch.fields
    requires relation in x.values && x.values[relation].Kids?
    requires Step(sch, x, st).Ok?
    ensures var y := Step(sch, x, st).value;
      && y.cls == x.cls
      && relation in y.values
      && if AppendsTo(sch, x.cls, relation, st) then
           var child := BuiltChild(sch, x.cls, relation, st);
           && child.Ok?
           && y.values[relation] == Kids(x.values[relation].children + [child.value])
         else y.values[relation] == x.values[relation]
  {
    LookupFits(sch, x.cls, st.name);
  }

  /** The child built by an appending statement, as an instance of the relation's element class. */
  function BuiltChild(sch: SchemaView, cls: ClassId, relation: Name, st: Stmt): Result<Instance, Error>
    requires AppendsTo(sch, cls, relation, st)
  {
    Initialize(sch, Lookup(sch, cls, st.name).value.element, Absent, st.block)
  }

  /** The children `cs` from index `k` on are the ones the statements `a` build, in order. */
  ghost predicate BuiltInOrder(sch: SchemaView, cls: ClassId, relation: Name, a: seq<Stmt>, cs: seq<Instance>, k: nat)
    requires forall i :: 0 <= i < |a| ==> AppendsTo(sch, cls, relation, a[i])
  {
    && |cs| == k + |a|
    && forall i :: 0 <= i < |a| ==> BuiltChild(sch, cls, relation, a[i]) == Ok(cs[k + i])
  }

  lemma BuiltInOrderCons(sch: SchemaView, cls: ClassId, relation: Name, st: Stmt, rest: seq<Stmt>,
                         cs: seq<Instance>, k: nat)
    requires AppendsTo(sch, cls, relation, st)
    requires forall i :: 0 <= i < |rest| ==> AppendsTo(sch, cls, relation, rest[i])
    requires BuiltInOrder(sch, cls, relation, rest, cs, k + 1)
    requires |cs| > k && BuiltChild(sch, cls, relation, st) == Ok(cs[k])
    ensures BuiltInOrder(sch, cls, relation, [st] + rest, cs, k)
  {
    var a := [st] + rest;
    forall i | 0 <= i < |a|
      ensures BuiltChild(sch, cls, relation, a[i]) == Ok(cs[k + i])
    {
      if i > 0 {
        assert a[i] == rest[i - 1];
      }
    }
  }

  lemma PrefixThenChild(before: seq<Instance>, child: Instance, ys: seq<Instance>)
    requires |before| < |ys| && ys[..|before| + 1] == before + [child]
    ensures ys[..|before|] == before && ys[|before|] == child
  {
    assert ys[..|before|] == (ys[..|before| + 1])[..|before|];
    assert ys[|before|] == (ys[..|before| + 1])[|before|];
  }

  /**
   * How a relation's array grows over any payload: it keeps its earlier
   * children and gains one child per statement that appends to it, in
   * encounter order, the `i`-th built from the `i`-th such statement's block
   * as an instance of that statement's element class; every other statement
   * leaves the array alone.
   */
  lemma {:induction false} RelationGrowsInOrder(sch: SchemaView, x: Instance, stmts: seq<Stmt>, relation: Name)
    requires Consistent(sch) && relation !in sch.fields
    requires relation in x.values && x.values[relation].Kids?
    requires Run(sch, x, stmts).Ok?
    ensures var y := Run(sch, x, stmts).value;
      var before := x.values[relation].children;
      && relation in y.values && y.values[relation].Kids?
      && BuiltInOrder(sch, x.cls, relation, AppendersTo(sch, x.cls, relation, stmts),
                      y.values[relation].children, |before|)
      && y.values[relation].children[..|before|] == before
    decreases stmts
  {
    if stmts != [] {
      var st := stmts[0];
      var before := x.values[relation].children;
      var x1 := Step(sch, x, st).value;
      RelationStep(sch, x, st, relation);
      RelationGrowsInOrder(sch, x1, stmts[1..], relation);
      var y := Run(sch, x1, stmts[1..]).value;
      assert Run(sch, x, stmts) == Ok(y);
      var ys := y.values[relation].children;
      var rest := AppendersTo(sch, x.cls, relation, stmts[1..]);
      if AppendsTo(sch, x.cls, relation, st) {
        var child := x1.values[relation].children[|before|];
        assert x1.values[relation].children == before + [child];
        PrefixThenChild(before, child, ys);
        assert AppendersTo(sch, x.cls, relation, stmts) == [st] + rest;
        BuiltInOrderCons(sch, x.cls, relation, st, rest, ys, |before|);
      } else {
        assert AppendersTo(sch, x.cls, relation, stmts) == rest;
      }
    }
  }

  /**
   * A statement the class has no method for aborts the whole build with
   * NoMethodError; statements after it never run.
   */
  lemma UnknownStatementAborts(sch: SchemaView, x: Instance, before: seq<Stmt>, st: Stmt, after: seq<Stmt>)
    requires Lookup(sch, x.cls, st.name) == None
    requires Run(sch, x, before).Ok?
    ensures Run(sch, x, before + [st] + after) == Err(NoMethod(st.name, x.cls))
  {
    RunConcat(sch, x, before + [st], after);
    RunConcat(sch, x, before, [st]);
    var y := Run(sch, x, before).value;
    assert Step(sch, y, st) == Err(NoMethod(st.name, x.cls));
  }

  /**
   * When no name is both a field and a relation, every store a build produces
   * is well formed: the has-many entries are arrays all the way down.
   */
  lemma {:induction false} RunWellFormed(sch: SchemaView, x: Instance, stmts: seq<Stmt>)
    requires Consistent(sch) && sch.fields !! sch.relations
    requires WellFormed(sch.relations, x)
    requires Run(sch, x, stmts).Ok?
    ensures WellFormed(sch.relations, Run(sch, x, stmts).value)
    decreases stmts
  {
    if stmts != [] {
      StepWellFormed(sch, x, stmts[0]);
      RunWellFormed(sch, Step(sch, x, stmts[0]).value, stmts[1..]);
    }
  }

  lemma {:induction false} StepWellFormed(sch: SchemaView, x: Instance, st: Stmt)
    requires Consistent(sch) && sch.fields !! sch.relations
    requires WellFormed(sch.relations, x)
    requires Step(sch, x, st).Ok?
    ensures WellFormed(sch.relations, Step(sch, x, st).value)
    decreases st
  {
    LookupFits(sch, x.cls, st.name);
    var y := Step(sch, x, st).value;
    match Lookup(sch, x.cls, st.name).value
    case Setter =>
      assert forall r :: r in sch.relations ==> r != st.name && y.values[r] == x.values[r];
    case Appender(relation, element) =>
      InitializeWellFormed(sch, element, Absent, st.block);
      var child := Initialize(sch, element, Absent, st.block).value;
      var cs := x.values[relation].children;
      assert y.values[relation].children == cs + [child];
      forall r | r in sch.relations
        ensures r in y.values && y.values[r].Kids?
        ensures forall i :: 0 <= i < |y.values[r].children| ==> WellFormed(sch.relations, y.values[r].children[i])
      {
        if r == relation {
          forall i | 0 <= i < |cs + [child]|
            ensures WellFormed(sch.relations, (cs + [child])[i])
          {
            if i < |cs| { assert (cs + [child])[i] == cs[i]; }
          }
        }
      }
  }

  lemma {:induction false} InitializeWellFormed(sch: SchemaView, cls: ClassId, text: Payload, block: Payload)
    requires Consistent(sch) && sch.fields !! sch.relations
    requires Initialize(sch, cls, text, block).Ok?
    ensures WellFormed(sch.relations, Initialize(sch, cls, text, block).value)
    decreases if text.Given? && !block.Given? then text else block
  {
    FreshWellFormed(sch, cls);
    if block.Given? {
      RunWellFormed(sch, Fresh(sch, cls), block.stmts);
    } else {
      RunWellFormed(sch, Fresh(sch, cls), text.stmts);
    }
  }
}
