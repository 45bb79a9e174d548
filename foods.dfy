/**
  The `IFood` record of the dashboard, and the plain JavaScript objects that
  the dashboard builds from it with object spread before sending them to the
  backend.

  A JavaScript object literal with the fields of `IFood` is modelled as a
  finite map from field names to values: a key is present exactly when the
  object has that own property. Object spread `{...a, ...b}` then is map
  union `a + b`, in which the right operand wins on a shared key, and
  spreading `null` contributes no key at all.
 */
module Foods {
  import opened Wrappers

  /** A food record as the backend returns it (`IFood`). */
  datatype Food = Food(
    id: int,
    name: string,
    description: string,
    price: string,
    available: bool,
    image: string)

  /** The property names of `IFood`. */
  datatype Key = Id | Name | Description | Price | Available | Image

  /** A property value: a number, a string or a boolean. */
  datatype Value = Num(num: int) | Text(text: string) | Flag(flag: bool)

  /** A plain object carrying some of the properties of `IFood`. */
  type FoodObject = map<Key, Value>

  const AllKeys: set<Key> := {Id, Name, Description, Price, Available, Image}

  lemma AllKeysCover()
    ensures forall k: Key :: k in AllKeys
  {
    forall k: Key ensures k in AllKeys {
      match k
      case Id =>
      case Name =>
      case Description =>
      case Price =>
      case Available =>
      case Image =>
    }
  }

  /** The type `IFood` declares for property `k`. */
  predicate Fits(k: Key, v: Value) {
    match k
    case Id => v.Num?
    case Available => v.Flag?
    case _ => v.Text?
  }

  /** Every property present has the type `IFood` declares for it. */
  predicate WellTyped(o: FoodObject) {
    forall k :: k in o ==> Fits(k, o[k])
  }

  /** The object with all six properties of a record. */
  function ObjectOf(f: Food): (o: FoodObject)
    ensures o.Keys == AllKeys && WellTyped(o)
    ensures forall k: Key :: k in o
    ensures o[Id] == Num(f.id) && o[Name] == Text(f.name)
    ensures o[Description] == Text(f.description) && o[Price] == Text(f.price)
    ensures o[Available] == Flag(f.available) && o[Image] == Text(f.image)
  {
    AllKeysCover();
    map[Id := Num(f.id), Name := Text(f.name), Description := Text(f.description),
        Price := Text(f.price), Available := Flag(f.available), Image := Text(f.image)]
  }

  /** Reads an object back as a record; only a complete, well-typed object is one. */
  function FoodOf(o: FoodObject): (r: Option<Food>)
    ensures r.Some? <==> o.Keys == AllKeys && WellTyped(o)
    ensures r.Some? ==> ObjectOf(r.value) == o
  {
    if o.Keys == AllKeys && WellTyped(o) then
      var f := Food(o[Id].num, o[Name].text, o[Description].text,
                    o[Price].text, o[Available].flag, o[Image].text);
      assert ObjectOf(f) == o;
      Some(f)
    else
      None
  }

  /** Turning a record into an object loses nothing. */
  lemma FoodOfObjectOf(f: Food)
    ensures FoodOf(ObjectOf(f)) == Some(f)
  {
  }

  /** Object spread `{...a, ...b}`: the keys of both, `b`'s value winning on a shared key. */
  function Spread(a: FoodObject, b: FoodObject): (o: FoodObject)
    ensures o.Keys == a.Keys + b.Keys
    ensures forall k :: k in b ==> o[k] == b[k]
    ensures forall k :: k in a && k !in b ==> o[k] == a[k]
  {
    a + b
  }

  /** What `...editingFood` contributes: all fields of the record, or none for `null`. */
  function SpreadOf(editing: Option<Food>): (o: FoodObject)
    ensures editing.None? ==> o == map[]
    ensures editing.Some? ==> FoodOf(o) == editing
  {
    if editing.Some? then
      FoodOfObjectOf(editing.value);
      ObjectOf(editing.value)
    else
      map[]
  }

  /**
    The body posted by `handleAddFood`: `{...food, available: true}`. Every
    submitted property is sent as it is, except that `available` is present
    and true whatever was submitted.
   */
  function AddPayload(food: FoodObject): (o: FoodObject)
    ensures o.Keys == food.Keys + {Available}
    ensures o[Available] == Flag(true)
    ensures forall k :: k in food && k != Available ==> o[k] == food[k]
    ensures WellTyped(food) ==> WellTyped(o)
  {
    Spread(food, map[Available := Flag(true)])
  }

  /**
    The body put by `handleUpdateFood`: `{...editingFood, ...food}`. Each
    submitted property wins; every other property keeps the edit target's
    value; with no edit target the body is the submission alone.
   */
  function UpdatePayload(editing: Option<Food>, food: FoodObject): (o: FoodObject)
    ensures forall k :: k in food ==> k in o && o[k] == food[k]
    ensures editing.None? ==> o == food
    ensures editing.Some? ==> o.Keys == AllKeys
    ensures editing.Some? ==> forall k :: k !in food ==> k in o && o[k] == ObjectOf(editing.value)[k]
    ensures editing.Some? && WellTyped(food) ==> FoodOf(o).Some?
  {
    AllKeysCover();
    Spread(SpreadOf(editing), food)
  }

  /** The id in the update request's path, `editingFood?.id`; `None` is rendered as "undefined". */
  function IdOf(editing: Option<Food>): (key: Option<int>)
    ensures key.Some? <==> editing.Some?
    ensures editing.Some? ==> key.value == editing.value.id
  {
    if editing.Some? then Some(editing.value.id) else None
  }

  /**
    If the backend echoes the merged body, the returned record carries the
    submitted properties and, for every property not submitted, the edit
    target's value.
   */
  lemma EchoedUpdate(target: Food, food: FoodObject, echoed: Food)
    requires FoodOf(UpdatePayload(Some(target), food)) == Some(echoed)
    ensures forall k :: k in food ==> ObjectOf(echoed)[k] == food[k]
    ensures forall k :: k !in food ==> ObjectOf(echoed)[k] == ObjectOf(target)[k]
  {
  }

  /**
    Submitting a new name alone, and getting the merged body echoed, changes
    the name and nothing else: price, description, image, availability and id
    stay the edit target's.
   */
  lemma RenameOnlyChangesName(target: Food, newName: string)
    ensures FoodOf(UpdatePayload(Some(target), map[Name := Text(newName)])) == Some(target.(name := newName))
  {
  }

  /** A submission of a whole record overrides the whole edit target. */
  lemma UpdateWithWholeRecord(editing: Option<Food>, f: Food)
    ensures UpdatePayload(editing, ObjectOf(f)) == ObjectOf(f)
  {
  }

  /** Forcing `available` twice is forcing it once. */
  lemma AddPayloadIdempotent(food: FoodObject)
    ensures AddPayload(AddPayload(food)) == AddPayload(food)
  {
  }
}
