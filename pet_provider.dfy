/**
 * The pets content provider: routing of query, insert, update, delete and
 * getType by URI shape, the field checks made before any write, and the
 * provider object that owns the pets table and the change notifications it
 * sends.
 */
module Provider {
  import opened Wrappers
  import opened PetContract
  import opened UriMatching

  /** Why an IllegalArgumentException is thrown. */
  datatype Reason = UnsupportedUri | NameRequired | BreedRequired | InvalidGender

  /** The exceptions the provider's operations throw. */
  datatype Failure =
    | IllegalArgument(reason: Reason)  // a URI of the wrong shape or a field value that fails its check
    | IllegalState                     // getType on a URI of no known shape
    | NullPointer                      // a missing gender unboxed to int

  /** One key of a ContentValues: missing, present with a null value, or present with a value. */
  datatype Field<T> = Absent | Null | Given(value: T)

  /**
   * The ContentValues a caller passes to insert or update. For the weight only
   * presence matters here, so it is an Option.
   */
  datatype PetValues = PetValues(name: Field<string>, breed: Field<string>, gender: Field<int>, weight: Option<int>)

  /** getAsString on the key returns a string other than "". */
  predicate HasText(f: Field<string>) {
    f.Given? && f.value != ""
  }

  /** What every row written through the provider satisfies: a non-empty name and a gender code no greater than 2. */
  predicate Storable(p: Pet) {
    p.name != "" && p.gender <= GENDER_FEMALE
  }

  /** The breed column of a new row: null unless the key holds a string. */
  function BreedColumn(f: Field<string>): Option<string> {
    if f.Given? then Some(f.value) else None
  }

  /**
   * The checks insertPet makes before it opens the database, in order, and the
   * row the insert then hands to storage.
   */
  function CheckInsert(v: PetValues): (r: Result<Pet, Failure>)
    ensures r.Ok? <==> HasText(v.name) && v.gender.Given? && v.gender.value <= GENDER_FEMALE
    ensures !HasText(v.name) ==> r == Err(IllegalArgument(NameRequired))
    ensures HasText(v.name) && !v.gender.Given? ==> r == Err(NullPointer)
    ensures HasText(v.name) && v.gender.Given? && v.gender.value > GENDER_FEMALE ==> r == Err(IllegalArgument(InvalidGender))
    ensures r.Ok? ==> Storable(r.value)
    ensures r.Ok? ==> r.value.name == v.name.value && r.value.gender == v.gender.value
    ensures r.Ok? ==> r.value.breed == (if v.breed.Given? then Some(v.breed.value) else None)
    ensures r.Ok? ==> r.value.weight == (if v.weight.Some? then v.weight.value else WEIGHT_DEFAULT)
  {
    if !HasText(v.name) then Err(IllegalArgument(NameRequired))
    // the breed is read but not checked
    else if !v.gender.Given? then Err(NullPointer)
    else if v.gender.value > 2 then Err(IllegalArgument(InvalidGender))
    else
      var weight := match v.weight case Some(w) => w case None => WEIGHT_DEFAULT;
      Ok(Pet(v.name.value, BreedColumn(v.breed), v.gender.value, weight))
  }

  /** A row after the present keys of `v` have been written over it. */
  function Patch(p: Pet, v: PetValues): Pet {
    Pet(
      if v.name.Given? then v.name.value else p.name,
      if v.breed.Given? then Some(v.breed.value) else p.breed,
      if v.gender.Given? then v.gender.value else p.gender,
      if v.weight.Some? then v.weight.value else p.weight)
  }

  /**
   * The checks updatePet makes before it opens the database, in order: each
   * only when its key is present.
   */
  function CheckUpdate(v: PetValues): (r: Outcome<Failure>)
    ensures r.Pass? <==>
              && (v.name.Absent? || HasText(v.name))
              && (v.breed.Absent? || HasText(v.breed))
              && (v.gender.Absent? || (v.gender.Given? && v.gender.value <= GENDER_FEMALE))
    ensures r.Pass? ==> forall p :: Storable(p) ==> Storable(Patch(p, v))
    ensures !v.name.Absent? && !HasText(v.name) ==> r == Fail(IllegalArgument(NameRequired))
    ensures (v.name.Absent? || HasText(v.name)) && !v.breed.Absent? && !HasText(v.breed)
            ==> r == Fail(IllegalArgument(BreedRequired))
    ensures (v.name.Absent? || HasText(v.name)) && (v.breed.Absent? || HasText(v.breed)) && v.gender.Null?
            ==> r == Fail(NullPointer)
    ensures (v.name.Absent? || HasText(v.name)) && (v.breed.Absent? || HasText(v.breed))
            && v.gender.Given? && v.gender.value > GENDER_FEMALE
            ==> r == Fail(IllegalArgument(InvalidGender))
  {
    if !v.name.Absent? && !HasText(v.name) then Fail(IllegalArgument(NameRequired))
    else if !v.breed.Absent? && !HasText(v.breed) then Fail(IllegalArgument(BreedRequired))
    else if v.gender.Null? then Fail(NullPointer)
    else if v.gender.Given? && v.gender.value > 2 then Fail(IllegalArgument(InvalidGender))
    else Pass
  }

  /** A selection with its arguments, as the predicate it imposes on (_id, row). */
  type Selection = (nat, Pet) -> bool

  /** The null selection: every row. */
  const ALL_ROWS: Selection := (id: nat, p: Pet) => true

  /** The selection "_id=?" with the trailing number of an item URI as its argument. */
  function ItemSelection(id: nat): Selection {
    (row: nat, p: Pet) => row == id
  }

  /** The selection an operation hands to storage: the caller's for the collection, the item's own for an item. */
  function Effective(route: Route, caller: Selection): Selection
    requires !route.Unmatched?
  {
    match route
    case Collection => caller
    case Item(id) => ItemSelection(id)
  }

  /** The ids of the rows a selection matches. */
  function Matching(pets: map<nat, Pet>, sel: Selection): (ids: set<nat>)
    ensures ids <= pets.Keys
    ensures forall id :: id in ids <==> id in pets && sel(id, pets[id])
  {
    set id | id in pets && sel(id, pets[id])
  }

  /** The rows a query returns. */
  function Selected(pets: map<nat, Pet>, sel: Selection): (rows: map<nat, Pet>)
    ensures rows.Keys == Matching(pets, sel)
    ensures forall id :: id in rows ==> rows[id] == pets[id]
  {
    map id | id in pets && sel(id, pets[id]) :: pets[id]
  }

  /** The table after an update: matched rows patched, the others untouched. */
  function Updated(pets: map<nat, Pet>, v: PetValues, sel: Selection): (after: map<nat, Pet>)
    ensures after.Keys == pets.Keys
    ensures forall id :: id in Matching(pets, sel) ==> after[id] == Patch(pets[id], v)
    ensures forall id :: id in pets && id !in Matching(pets, sel) ==> after[id] == pets[id]
  {
    map id | id in pets :: if sel(id, pets[id]) then Patch(pets[id], v) else pets[id]
  }

  /** The table after a delete: the rows the selection does not match. */
  function Remaining(pets: map<nat, Pet>, sel: Selection): (after: map<nat, Pet>)
    ensures after.Keys == pets.Keys - Matching(pets, sel)
    ensures forall id :: id in after ==> after[id] == pets[id]
  {
    map id | id in pets && !sel(id, pets[id]) :: pets[id]
  }

  /** The MIME type of the data at `uri`. */
  function GetType(uri: Uri): (r: Result<string, Failure>)
    ensures r == Ok(CONTENT_LIST_TYPE) <==> uri == CONTENT_URI
    ensures r == Ok(CONTENT_TYPE) <==> IsItemUri(uri)
    ensures r.Err? <==> uri != CONTENT_URI && !IsItemUri(uri)
    ensures r.Err? ==> r.error == IllegalState
  {
    match RouteOf(uri)
    case Collection => Ok(CONTENT_LIST_TYPE)
    case Item(_) => Ok(CONTENT_TYPE)
    case Unmatched => Err(IllegalState)
  }

  /**
   * The provider: the pets table behind its database helper, keyed by _id, and
   * the URIs it has sent change notifications for, in order.
   */
  class PetProvider {
    var pets: map<nat, Pet>
    ghost var notifications: seq<Uri>

    /** Every row in the table passed the checks of the operation that wrote it. */
    ghost predicate Valid()
      reads this
    {
      forall id :: id in pets ==> Storable(pets[id])
    }

    /**
     * A provider over the pets table as the database file holds it: empty when
     * the file is first created, the stored rows on every later start.
     */
    constructor (initial: map<nat, Pet>)
      requires forall id :: id in initial ==> Storable(initial[id])
      ensures Valid()
      ensures pets == initial && notifications == []
    {
      pets := initial;
      notifications := [];
    }

    /** The rows at `uri`: for an item URI the caller's selection is replaced by the item's _id. */
    method Query(uri: Uri, selection: Selection) returns (r: Result<map<nat, Pet>, Failure>)
      ensures RouteOf(uri).Unmatched? ==> r == Err(IllegalArgument(UnsupportedUri))
      ensures !RouteOf(uri).Unmatched? ==> r == Ok(Selected(pets, Effective(RouteOf(uri), selection)))
    {
      var sel := selection;
      match RouteOf(uri) {
        case Collection =>
        case Item(id) =>
          sel := ItemSelection(id);
        case Unmatched =>
          return Err(IllegalArgument(UnsupportedUri));
      }
      r := Ok(Selected(pets, sel));
    }

    /**
     * Inserts a pet through the collection URI. `reply` is what storage's insert
     * returns: -1 on failure, otherwise an id no row has.
     */
    method Insert(uri: Uri, values: PetValues, reply: int) returns (r: Result<Option<Uri>, Failure>)
      requires Valid()
      requires reply == -1 || (reply >= 0 && reply as nat !in pets)
      modifies this
      ensures Valid()
      ensures uri != CONTENT_URI ==> r == Err(IllegalArgument(UnsupportedUri)) && unchanged(this)
      ensures uri == CONTENT_URI && CheckInsert(values).Err? ==> r == Err(CheckInsert(values).error) && unchanged(this)
      ensures uri == CONTENT_URI && CheckInsert(values).Ok? && reply == -1 ==> r == Ok(None) && unchanged(this)
      ensures uri == CONTENT_URI && CheckInsert(values).Ok? && reply != -1 ==>
                && r == Ok(Some(WithAppendedId(uri, reply as nat)))
                && pets == old(pets)[reply as nat := CheckInsert(values).value]
                && notifications == old(notifications) + [uri]
    {
      match RouteOf(uri)
      case Collection =>
        r := InsertPet(uri, values, reply);
      case _ =>
        r := Err(IllegalArgument(UnsupportedUri));
    }

    /** Updates the rows at `uri`; for an item URI the caller's selection is replaced by the item's _id. */
    method Update(uri: Uri, values: PetValues, selection: Selection) returns (r: Result<nat, Failure>)
      requires Valid()
      modifies this
      ensures Valid()
      ensures RouteOf(uri).Unmatched? ==> r == Err(IllegalArgument(UnsupportedUri)) && unchanged(this)
      ensures !RouteOf(uri).Unmatched? && CheckUpdate(values).Fail? ==> r == Err(CheckUpdate(values).error) && unchanged(this)
      ensures !RouteOf(uri).Unmatched? && CheckUpdate(values).Pass? ==>
                var sel := Effective(RouteOf(uri), selection);
                && r == Ok(|Matching(old(pets), sel)|)
                && pets == Updated(old(pets), values, sel)
                && notifications == old(notifications) + [uri]
    {
      var sel := selection;
      match RouteOf(uri) {
        case Collection =>
        case Item(id) =>
          sel := ItemSelection(id);
        case Unmatched =>
          return Err(IllegalArgument(UnsupportedUri));
      }
      r := UpdatePet(uri, values, sel);
    }

    /** Deletes the rows at `uri`; for an item URI the caller's selection is replaced by the item's _id. */
    method Delete(uri: Uri, selection: Selection) returns (r: Result<nat, Failure>)
      requires Valid()
      modifies this
      ensures Valid()
      ensures RouteOf(uri).Unmatched? ==> r == Err(IllegalArgument(UnsupportedUri)) && unchanged(this)
      ensures !RouteOf(uri).Unmatched? ==>
                var sel := Effective(RouteOf(uri), selection);
                && r == Ok(|Matching(old(pets), sel)|)
                && pets == Remaining(old(pets), sel)
                && notifications == old(notifications) + [uri]
    {
      var sel := selection;
      match RouteOf(uri) {
        case Collection =>
        case Item(id) =>
          sel := ItemSelection(id);
        case Unmatched =>
          return Err(IllegalArgument(UnsupportedUri));
      }
      r := DeletePet(uri, sel);
    }

    /** Checks the values, then stores the new row and notifies `uri` unless storage reports -1. */
    method InsertPet(uri: Uri, values: PetValues, reply: int) returns (r: Result<Option<Uri>, Failure>)
      requires Valid()
      requires reply == -1 || (reply >= 0 && reply as nat !in pets)
      modifies this
      ensures Valid()
      ensures CheckInsert(values).Err? ==> r == Err(CheckInsert(values).error) && unchanged(this)
      ensures CheckInsert(values).Ok? && reply == -1 ==> r == Ok(None) && unchanged(this)
      ensures CheckInsert(values).Ok? && reply != -1 ==>
                && r == Ok(Some(WithAppendedId(uri, reply as nat)))
                && pets == old(pets)[reply as nat := CheckInsert(values).value]
                && notifications == old(notifications) + [uri]
    {
      var row := CheckInsert(values);
      if row.Err? {
        return Err(row.error);
      }
      if reply == -1 {
        return Ok(None);
      }
      pets := pets[reply as nat := row.value];
      notifications := notifications + [uri];
      r := Ok(Some(WithAppendedId(uri, reply as nat)));
    }

    /** Checks the present keys, then patches every row `sel` matches and notifies `uri`. */
    method UpdatePet(uri: Uri, values: PetValues, sel: Selection) returns (r: Result<nat, Failure>)
      requires Valid()
      modifies this
      ensures Valid()
      ensures CheckUpdate(values).Fail? ==> r == Err(CheckUpdate(values).error) && unchanged(this)
      ensures CheckUpdate(values).Pass? ==>
                && r == Ok(|Matching(old(pets), sel)|)
                && pets == Updated(old(pets), values, sel)
                && notifications == old(notifications) + [uri]
    {
      var checked := CheckUpdate(values);
      if checked.Fail? {
        return Err(checked.error);
      }
      var rowsAffected := |Matching(pets, sel)|;
      pets := Updated(pets, values, sel);
      notifications := notifications + [uri];
      r := Ok(rowsAffected);
    }

    /** Removes every row `sel` matches and notifies `uri`, whatever the count. */
    method DeletePet(uri: Uri, sel: Selection) returns (r: Result<nat, Failure>)
      requires Valid()
      modifies this
      ensures Valid()
      ensures r == Ok(|Matching(old(pets), sel)|)
      ensures pets == Remaining(old(pets), sel)
      ensures notifications == old(notifications) + [uri]
    {
      var numberOfRowsDeleted := |Matching(pets, sel)|;
      pets := Remaining(pets, sel);
      notifications := notifications + [uri];
      r := Ok(numberOfRowsDeleted);
    }
  }
}
