# ActiveDSL factory engine in Dafny

This project models `ActiveDSL::Factory` from `lib/active_dsl.rb`, a small
Ruby builder. A factory class declares fields (`field :name`) and one-to-many
relations (`has_many :components`). A factory object is then built from a DSL
payload, which is Ruby text or a block. Each statement of the payload either
sets a field or builds a nested child factory from a nested block and appends
it to a relation. `to_hash` turns the finished object into a nested hash.

The model keeps the shape of the Ruby code:

- `Schema.Registry` is a class holding the shared class variables `@@fields`
  and `@@has_many`, plus one method table per factory class. A method table
  stands in for the methods `define_method` generates. Factory classes are
  identified by object (`ClassId`), and `constants` says which class each
  constant names at the moment.
- `Factories.Factory` is a class whose `values` field is `@values`. Its
  constructor runs the loop that starts every has-many name as an empty array.
  `Set` is the generated setter, `Push` is `<<`, and `Evaluate` runs a payload
  statement by statement. `Factories.New` is `Factory.new`.
- Modules `Evaluation` and `Conversion` give the same behaviour as pure
  functions on values (`Run`, `Step`, `Initialize`, `ToHash`). The methods are
  proved equal to these functions, and the laws are proved about the functions.

Behaviour of the code that the model keeps:

- The registries are shared. `@@fields` and `@@has_many` are class variables,
  so every factory's store starts with an empty array for every relation
  declared anywhere. Likewise, `to_hash` lists every field and relation
  declared anywhere. In the has-many example, each component's hash therefore
  also holds `components: []` (`CoffeeMug.CoffeeMugHash`).
- The child class is resolved eagerly. `has_many` looks up the constant
  `classify(singularize(name) + "_factory")` at declaration time and keeps
  that class. When the constant is missing, Ruby raises `NameError` after the
  relation was already recorded. `Registry.HasMany` returns `resolved == false`
  in that case and leaves the relation recorded.
- There are no field defaults, no value transforms, no `to_object` and no
  build callbacks. A field that was never set reads back as `nil`. The `options` hash is stored but never read, and a block given
  to `field` is ignored.
- The DSL vocabulary is closed. A statement whose name the class has no method
  for fails with `NoMethod`, and the whole build aborts. Calling a setter with
  other than one argument is an `ArgumentError` (`WrongArity`), and so is
  calling a relation method with any argument. A relation method called
  without a block makes the child's `initialize` call `instance_eval(nil)`,
  which fails (`NoPayload`).
- `to_hash` is read-only. `Factories.Factory.ToHash` is a function with a
  `reads` clause, so it cannot change the store, and two calls on the same
  state give the same hash.
- A name declared both as a field and as a relation can break `to_hash`. When
  that name's setter has stored a scalar, `map` fails on it (`ToHash` is
  `None`). `BuildLaws.BuildConverts` proves that `to_hash` never fails when no
  name is both.

## Model

| member | source | states |
|---|---|---|
| Schema.Registry.constructor | lib/active_dsl.rb:5-6 | both registries and the set of factory classes start empty |
| Schema.Registry.DefineClass | lib/active_dsl.rb:4 | a new subclass has no DSL methods; the constant now names it, while older classes and their methods stay as they were |
| Schema.Registry.Field | lib/active_dsl.rb:25-33 | records the options under the name in the shared field registry (overwriting) and defines the setter on that class only; nothing else changes |
| Schema.Registry.HasMany | lib/active_dsl.rb:35-46 | records the relation globally in every case; defines the singular method, bound to the child class resolved at declaration time, exactly when the `<singular>_factory` constant exists |
| Store.FreshWellFormed | lib/active_dsl.rb:9-10 | the initial store has an entry for exactly the has-many names, each an array, so no field has an entry yet |
| Factories.Factory.constructor | lib/active_dsl.rb:9-10 | after the loop, every has-many name maps to an empty array and no other name has an entry |
| Factories.Factory.Set | lib/active_dsl.rb:29-31 | overwrites the named entry with the value and leaves the rest of the store unchanged |
| Factories.Factory.Push | lib/active_dsl.rb:43 | appends the child at the end of the relation's array; fails, changing nothing, when the entry is not an array |
| Factories.Factory.Evaluate | lib/active_dsl.rb:11-15 | running the statements in place ends in the store `Run` computes, or in the first exception `Run` reports |
| Factories.New | lib/active_dsl.rb:8-16 | a fresh factory built by the block when one is given and by the text otherwise; the result or exception is the one `Initialize` computes |
| Evaluation.Append | lib/active_dsl.rb:43 | `<<` succeeds exactly when the relation entry is an array, and then puts the child at its end, keeping the class, the set of keys and every other entry; otherwise the error names the relation |
| Evaluation.Step | lib/active_dsl.rb:28-45 | a statement the class has no generated method for raises NoMethodError naming it and the class; a successful statement keeps the object's class and never removes an entry |
| Evaluation.Run | lib/active_dsl.rb:11-15 | a successful run keeps the object's class and never removes an entry |
| Evaluation.Initialize | lib/active_dsl.rb:8-16 | a built object has the requested class and an entry for every has-many name; with neither text nor block the build fails |
| Factories.Factory.ToHash | lib/active_dsl.rb:18-23 | reads the store without changing it; when it succeeds its keys are exactly the registered fields and has-many names, and it succeeds exactly when every has-many entry, at every depth, is an array |
| EvaluationLaws.RunConcat | lib/active_dsl.rb:11-15 | statements run in sequence: running `a + b` runs `b` on the store `a` left, and an exception in `a` ends the run |
| EvaluationLaws.SetterStep | lib/active_dsl.rb:29-31 | a field statement stores its one argument under its name and changes no other entry; a block is ignored; other arities raise |
| EvaluationLaws.AppenderStep | lib/active_dsl.rb:41-43 | a relation statement builds a child from its block, and the array grows by exactly one with the child at the end; earlier children and other entries stay the same; arity, missing-block and non-array errors |
| EvaluationLaws.BlockTakesPrecedence | lib/active_dsl.rb:11-15 | a given block is evaluated and the DSL text is ignored |
| EvaluationLaws.NoPayloadFails | lib/active_dsl.rb:13-14 | with neither text nor block, `new` fails |
| EvaluationLaws.OtherStatementsKeepEntry | lib/active_dsl.rb:29-31 | statements naming other methods leave a non-relation entry as it was |
| EvaluationLaws.OtherStatementsKeepValue | lib/active_dsl.rb:29-31 | once `n` holds a value, statements not naming `n` keep it, because appending onto it would abort the build |
| EvaluationLaws.LastWriteWins | lib/active_dsl.rb:29-31 | after `n(v)` and any later statements not naming `n`, a build that finishes holds `v` under `n`, whatever the registries declare |
| EvaluationLaws.OverwriteLaw | lib/active_dsl.rb:29-31 | `n(a); n(b)` leaves exactly `b` under `n` |
| EvaluationLaws.AppendsInOrder | lib/active_dsl.rb:41-43 | `k` relation statements add `k` children after the earlier ones, the `i`-th built from the `i`-th block |
| EvaluationLaws.RelationStep | lib/active_dsl.rb:40-45 | one statement appends the child built from its block to a relation's array when its method appends there, and otherwise leaves that entry alone |
| EvaluationLaws.RelationGrowsInOrder | lib/active_dsl.rb:40-45 | over any payload a relation's array keeps its earlier children and gains one child per statement appending to it, in order, the `i`-th built from the `i`-th such statement's block as its element class |
| EvaluationLaws.UnknownStatementAborts | lib/active_dsl.rb:11-15 | a statement without a method aborts the whole build with NoMethodError, and later statements never run |
| EvaluationLaws.RunWellFormed | lib/active_dsl.rb:10 | when no name is both field and relation, statements keep every has-many entry an array, at every depth |
| EvaluationLaws.StepWellFormed | lib/active_dsl.rb:30 | one statement keeps the store well formed |
| EvaluationLaws.InitializeWellFormed | lib/active_dsl.rb:8-16 | every successfully built factory has a well-formed store |
| Conversion.ToHash | lib/active_dsl.rb:18-23 | the keys of the hash are exactly the field names together with the has-many names |
| ConversionLaws.ToHashDefinedIff | lib/active_dsl.rb:21 | `to_hash` raises exactly when some has-many entry, at some depth, is not an array |
| ConversionLaws.ConvertAllDefinedIff | lib/active_dsl.rb:21 | converting a list of children succeeds exactly when every child's store is well formed |
| ConversionLaws.ConvertAllInOrder | lib/active_dsl.rb:21 | `map(&:to_hash)` keeps length and order, with each child's hash at the child's index |
| ConversionLaws.RelationEntry | lib/active_dsl.rb:21 | a has-many name maps to its children's hashes in append order, even when the name is also a field |
| ConversionLaws.FieldEntryValue | lib/active_dsl.rb:20 | a field maps to the value stored, or to `nil` when never set |
| BuildLaws.BuildConverts | lib/active_dsl.rb:18-23 | after any successful build, `to_hash` does not raise, provided no name is both field and relation |
| BuildLaws.OverwriteShowsInHash | lib/active_dsl.rb:29-31 | building from `n(a); n(b)` gives `to_hash[n] == b` |
| BuildLaws.UnsetFieldIsNil | lib/active_dsl.rb:20 | after a build from any payload with no statement naming a registered field, `to_hash` shows `nil` for it |
| BuildLaws.RelationOrderInHash | lib/active_dsl.rb:21 | after a build from any payload, a relation's `to_hash` list has one hash per statement appending to it, the `i`-th being the hash of the child built from the `i`-th such statement |
| CoffeeMug.PartBuilds | spec/active_dsl_spec.rb:170-175 | a component block builds a store holding its name and an empty shared relation |
| CoffeeMug.CoffeeMugBuilds | spec/active_dsl_spec.rb:169-176 | the sprocket's statements give its name and the handle, then the cup |
| CoffeeMug.PartsConvert | spec/active_dsl_spec.rb:179-180 | the two components convert to their hashes in order |
| CoffeeMug.SprocketConverts | spec/active_dsl_spec.rb:178-180 | the built sprocket converts to its name and the two component hashes in order |
| CoffeeMug.CoffeeMugHash | spec/active_dsl_spec.rb:168-180 | the full hash of the has-many example: handle at index 0, cup at index 1 |
| HasManyExample.BuildAndConvert | spec/active_dsl_spec.rb:154-180 | declaring the two classes, building from the text and calling `to_hash` on the object gives that hash |

## Left out

- `instance_eval` of Ruby text or blocks: a payload is given already parsed into a list of method calls, and arbitrary Ruby code inside it is not modelled.
- Methods every Ruby object already has (`to_hash`, `Kernel` methods, and others) could be called from the DSL. Here a statement finds only the methods `field` and `has_many` generated.
- Inheritance: every factory class is taken to be a direct subclass of `ActiveDSL::Factory` with its own method table. Declarations made on `Factory` itself, or inherited through deeper subclassing, are not modelled.
- ActiveSupport's `singularize`, `classify` and `constantize` are not part of this model. The first two are function parameters of `Registry.HasMany`; `constantize` is a lookup in `Registry.constants`. A constant naming something other than a factory class is not modelled.
- Ruby hashes keep insertion order. The registries and `to_hash` results are maps here, so key order is not modelled.
- Exception classes are merged: `NotAList` covers both `NoMethodError` and `TypeError` from `<<`, and a failing `to_hash` is `None`, without saying which relation failed first.
- Field values are a small set of literal kinds (`nil`, booleans, integers, strings, symbols). Arrays, hashes and arbitrary objects as field values are not modelled.
- Child factories are kept as values of their class and store, not as object references. Nothing changes a child after its constructor returns, and no reference to it escapes, so this loses only object identity.
- Declarations made while a payload is running (DSL code calling `field` or `has_many`) are not modelled. The registry is fixed during a build.
- The `Builder` API exercised by `spec/active_dsl_spec.rb` (`builds`, `to_instance`, `initialize_instance_by`, `after_build_instance`, `:default`, field transforms) is not defined in `lib/active_dsl.rb` and is not modelled.
- Factories.Factory.Evaluate: on an exception, does not state the partly updated store. No caller can observe it, because the exception propagates out of `new`.
