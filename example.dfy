/**
 * The has-many example driven through the objects themselves: declare the two
 * factory classes, build the sprocket from its DSL text, convert it.
 */
module HasManyExample {
  import opened Wrappers
  import opened Schema
  import opened Store
  import opened Evaluation
  import opened Conversion
  import opened Factories
  import CoffeeMug

  /** Stand-ins for ActiveSupport's `singularize` and `classify` on the names used here. */
  function Singularize(n: Name): Name
  {
    if n == "components" then "component" else n
  }

  function Classify(s: string): TypeName
  {
    if s == "component_factory" then "ComponentFactory" else s
  }

  method BuildAndConvert() returns (h: Option<Hash>)
    ensures h == Some(Hash(map["name" := Scalar(Str("Coffee Mug")),
                               "components" := List([CoffeeMug.PartHash("handle"), CoffeeMug.PartHash("cup")])]))
  {
    var registry := new Registry();
    var component := registry.DefineClass("ComponentFactory");
    registry.Field(component, "name", map[]);
    var sprocket := registry.DefineClass("SprocketFactory");
    registry.Field(sprocket, "name", map[]);
    assert "component_factory" == Singularize("components") + "_factory";
    var resolved := registry.HasMany(sprocket, "components", map[], Singularize, Classify);
    assert resolved;
    assert registry.View() == CoffeeMug.Registries();
    CoffeeMug.CoffeeMugHash();
    var built := New(registry, sprocket, Given(CoffeeMug.Script()), Absent);
    h := built.value.ToHash();
  }
}
