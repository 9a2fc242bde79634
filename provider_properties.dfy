/**
 * Properties of the provider's routing, checks and storage effects that
 * relate several definitions or hold for all tables.
 */
module ProviderProperties {
  import opened Wrappers
  import opened PetContract
  import opened UriMatching
  import opened Provider

  /** The URI an insert returns routes back to the item form for the new id. */
  lemma InsertedUriRoutesToItem(id: nat)
    ensures RouteOf(WithAppendedId(CONTENT_URI, id)) == Item(id)
  {
  }

  /** An item URI selects the row with its _id and no other, whatever the caller's selection. */
  lemma ItemSelectsOneRow(pets: map<nat, Pet>, id: nat, caller: Selection)
    ensures Matching(pets, Effective(Item(id), caller)) == if id in pets then {id} else {}
    ensures |Matching(pets, Effective(Item(id), caller))| == if id in pets then 1 else 0
  {
  }

  /** A query on an item URI returns that row alone, or nothing when no row has the id. */
  lemma ItemQueryIgnoresSelection(pets: map<nat, Pet>, id: nat, caller: Selection)
    ensures Selected(pets, Effective(Item(id), caller)) == if id in pets then map[id := pets[id]] else map[]
  {
  }

  /** An update on an item URI patches that row alone and leaves every other row as it was. */
  lemma ItemUpdateTargetsOneRow(pets: map<nat, Pet>, v: PetValues, id: nat, caller: Selection)
    ensures Updated(pets, v, Effective(Item(id), caller)) == if id in pets then pets[id := Patch(pets[id], v)] else pets
  {
  }

  /** A delete on an item URI removes that row alone. */
  lemma ItemDeleteTargetsOneRow(pets: map<nat, Pet>, id: nat, caller: Selection)
    ensures Remaining(pets, Effective(Item(id), caller)) == pets - {id}
  {
  }

  /** A delete through the collection URI with no selection removes every row and reports the former row count. */
  lemma DeleteAllRows(pets: map<nat, Pet>)
    ensures |Matching(pets, Effective(Collection, ALL_ROWS))| == |pets|
    ensures Remaining(pets, Effective(Collection, ALL_ROWS)) == map[]
  {
    var ids := Matching(pets, ALL_ROWS);
    assert ids == pets.Keys;
  }

  lemma {:induction false} SubsetCardinality(a: set<nat>, b: set<nat>)
    requires a <= b
    ensures |a| <= |b|
  {
    if a != {} {
      var x :| x in a;
      SubsetCardinality(a - {x}, b - {x});
    }
  }

  /** The count update and delete report never exceeds the number of rows in the table. */
  lemma MatchCountBounded(pets: map<nat, Pet>, sel: Selection)
    ensures |Matching(pets, sel)| <= |pets|
  {
    SubsetCardinality(Matching(pets, sel), pets.Keys);
  }

  /**
   * Round trip: after a successful insert with a fresh id, querying the URI the
   * insert returned yields exactly the stored row, whatever selection is passed.
   */
  lemma InsertThenQuery(pets: map<nat, Pet>, values: PetValues, id: nat, caller: Selection)
    requires CheckInsert(values).Ok?
    requires id !in pets
    ensures
      var after := pets[id := CheckInsert(values).value];
      var uri := WithAppendedId(CONTENT_URI, id);
      && RouteOf(uri) == Item(id)
      && Selected(after, Effective(RouteOf(uri), caller)) == map[id := CheckInsert(values).value]
      && |after| == |pets| + 1
  {
  }

  /** Insert accepts a negative gender code: the check is only "not greater than 2". */
  lemma InsertAcceptsNegativeGender(name: string, breed: Field<string>, gender: int, weight: Option<int>)
    requires name != "" && gender < GENDER_UNKNOWN
    ensures CheckInsert(PetValues(Given(name), breed, Given(gender), weight)).Ok?
  {
  }

  /** Insert does not look at the breed: changing it never changes whether the values pass. */
  lemma InsertIgnoresBreed(v: PetValues, breed: Field<string>)
    ensures CheckInsert(v.(breed := breed)).Ok? == CheckInsert(v).Ok?
  {
  }

  /** Update rejects a present but null or empty breed, which insert would store. */
  lemma UpdateChecksBreed(name: string, gender: int, breed: Field<string>)
    requires name != "" && gender <= GENDER_FEMALE && breed != Absent && !HasText(breed)
    ensures CheckInsert(PetValues(Given(name), breed, Given(gender), None)).Ok?
    ensures CheckUpdate(PetValues(Given(name), breed, Given(gender), None)) == Fail(IllegalArgument(BreedRequired))
  {
  }

  /** A missing gender fails insert with a null unboxing, but is no condition on update. */
  lemma MissingGender(name: string)
    requires name != ""
    ensures CheckInsert(PetValues(Given(name), Absent, Absent, None)) == Err(NullPointer)
    ensures CheckUpdate(PetValues(Given(name), Absent, Absent, None)) == Pass
  {
  }
}
