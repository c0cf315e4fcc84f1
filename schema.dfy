/**
 * The class-level state of `ActiveDSL::Factory` (lib/active_dsl.rb).
 *
 * `@@fields` and `@@has_many` are class variables, so one pair of maps is
 * shared by `Factory` and every subclass. The DSL methods, on the other hand,
 * are defined with `define_method` on the one subclass that made the
 * declaration. The model therefore keeps one global registry of names plus a
 * method table per factory class.
 */
module Schema {
  import opened Wrappers

  /** A field name, relation name or DSL statement (method) name. */
  type Name = string

  /** The name of a Ruby constant, such as `ComponentFactory`. */
  type TypeName = string

  /** The identity of one factory class object: its index in `Registry.classes`. */
  type ClassId = nat

  /** The Ruby literals a field statement can pass. */
  datatype Value = Nil | Bool(b: bool) | Int(i: int) | Str(s: string) | Sym(s: string)

  /** The `options` hash of `field` and `has_many`: stored, never read. */
  type Options = map<Name, Value>

  /** What a method generated by `define_method` does when a DSL statement calls it. */
  datatype Handler =
    | Setter                                      // `name(value)`: overwrite `@values[name]`
    | Appender(relation: Name, element: ClassId)  // `singular { ... }`: build a child, append it

  /** What evaluation and conversion read from the registry. */
  datatype SchemaView = SchemaView(fields: set<Name>, relations: set<Name>, classes: seq<map<Name, Handler>>)

  /** Ruby's method lookup on an instance of class `cls`. */
  function Lookup(sch: SchemaView, cls: ClassId, name: Name): Option<Handler>
  {
    if cls < |sch.classes| && name in sch.classes[cls] then Some(sch.classes[cls][name]) else None
  }

  /** A method named `name` is consistent with the registries that declared it. */
  ghost predicate Fits(sch: SchemaView, name: Name, h: Handler)
  {
    match h
    case Setter => name in sch.fields
    case Appender(r, e) => r in sch.relations && e < |sch.classes|
  }

  /** Every generated method was produced by a declaration recorded in the registries. */
  ghost predicate Consistent(sch: SchemaView)
  {
    forall c, n :: 0 <= c < |sch.classes| && n in sch.classes[c] ==> Fits(sch, n, sch.classes[c][n])
  }

  lemma {:induction false} LookupFits(sch: SchemaView, cls: ClassId, name: Name)
    requires Consistent(sch) && Lookup(sch, cls, name).Some?
    ensures Fits(sch, name, Lookup(sch, cls, name).value)
    ensures Lookup(sch, cls, name) == Some(Setter) ==> name in sch.fields
    ensures Lookup(sch, cls, name).value.Appender? ==>
              Lookup(sch, cls, name).value.relation in sch.relations
  {
  }

  /** The shared class-level state: `@@fields`, `@@has_many` and the factory classes. */
  class Registry {
    var fields: map<Name, Options>           // @@fields
    var hasMany: map<Name, Options>          // @@has_many
    var classes: seq<map<Name, Handler>>     // the DSL methods of each factory class ever created
    var constants: map<TypeName, ClassId>    // which class each constant currently names

    ghost predicate Valid()
      reads this
    {
      && Consistent(View())
      && forall t :: t in constants ==> constants[t] < |classes|
    }

    function View(): SchemaView
      reads this
    {
      SchemaView(fields.Keys, hasMany.Keys, classes)
    }

    /** The state before any subclass or declaration exists. */
    constructor ()
      ensures Valid()
      ensures fields == map[] && hasMany == map[] && classes == [] && constants == map[]
    {
      fields, hasMany, classes, constants := map[], map[], [], map[];
    }

    /**
     * `Name = Class.new(ActiveDSL::Factory)`: a new class with no DSL methods.
     * Assigning an existing constant replaces the class it names; the old
     * class keeps its methods, and relations resolved earlier still point to it.
     */
    method DefineClass(name: TypeName) returns (cls: ClassId)
      requires Valid()
      modifies this
      ensures Valid()
      ensures cls == |old(classes)| && classes == old(classes) + [map[]]
      ensures constants == old(constants)[name := cls]
      ensures fields == old(fields) && hasMany == old(hasMany)
    {
      cls := |classes|;
      classes := classes + [map[]];
      constants := constants[name := cls];
      assert forall c :: 0 <= c < |old(classes)| ==> classes[c] == old(classes)[c];
    }

    /** `field name, options`: record the field globally and define its setter on `cls`. */
    method Field(cls: ClassId, name: Name, options: Options)
      requires Valid() && cls < |classes|
      modifies this
      ensures Valid()
      ensures fields == old(fields)[name := options]
      ensures classes == old(classes)[cls := old(classes)[cls][name := Setter]]
      ensures hasMany == old(hasMany) && constants == old(constants)
    {
      fields := fields[name := options];
      classes := classes[cls := classes[cls][name := Setter]];
      assert forall c, n :: 0 <= c < |classes| && n in classes[c] && (c != cls || n != name) ==>
        n in old(classes)[c] && classes[c][n] == old(classes)[c][n];
    }

    /**
     * `has_many name, options`. The relation is recorded globally first; then
     * the child class is resolved from the constant
     * `classify(singularize(name) + "_factory")` at once, and the method named
     * by the singular form is defined on `cls`. When the constant does not exist
     * (Ruby's `NameError`), `resolved` is false: the relation stays recorded but
     * no method is defined.
     */
    method HasMany(cls: ClassId, name: Name, options: Options,
                   singularize: Name -> Name, classify: string -> TypeName)
      returns (resolved: bool)
      requires Valid() && cls < |classes|
      modifies this
      ensures Valid()
      ensures hasMany == old(hasMany)[name := options]
      ensures resolved <==> classify(singularize(name) + "_factory") in old(constants)
      ensures classes ==
        if resolved
        then old(classes)[cls := old(classes)[cls][singularize(name) :=
                 Appender(name, old(constants)[classify(singularize(name) + "_factory")])]]
        else old(classes)
      ensures fields == old(fields) && constants == old(constants)
    {
      hasMany := hasMany[name := options];
      var singular := singularize(name);
      var constant := classify(singular + "_factory");
      resolved := constant in constants;
      if resolved {
        classes := classes[cls := classes[cls][singular := Appender(name, constants[constant])]];
        assert forall c, n :: 0 <= c < |classes| && n in classes[c] && (c != cls || n != singular) ==>
          n in old(classes)[c] && classes[c][n] == old(classes)[c][n];
      }
    }
  }
}
