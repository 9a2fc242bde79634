# Pets content provider, modelled in Dafny

This project models the record router of the pets tutorial app: the content
provider that fronts the single `pets` table. The model covers three things.

- **Routing.** A URI under the authority `com.example.android.pets` is sorted
  into one of three cases: the collection form `pets`, the item form
  `pets/<number>`, or no match.
- **Dispatch.** `query`, `insert`, `update`, `delete` and `getType` act on
  that case. For the item form, query, update and delete replace the caller's
  selection with "`_id` equals the trailing number".
- **Validation.** Field values are checked before anything is written.

Modules:

- `Wrappers` holds the `Option`, `Result` and `Outcome` value types.
- `PetContract` holds the authority, the path and the MIME types. It also holds
  the gender codes 0/1/2, the weight default and the `Pet` row.
- `PetContract` models a URI as an authority plus path segments. A segment made
  only of digits is carried as its number; a text segment can never be all digits.
- `UriMatching` is the matcher: the registration table with codes 100 and 101,
  first-match lookup with -1 for no match, and `RouteOf`.
- `Provider` holds the `ContentValues` model (`PetValues`) and the field checks.
  It also holds the storage effects as functions over the table, `GetType`, and
  the class `PetProvider`.
- `PetProvider` owns the table as a `map` from `_id` to `Pet`, plus a ghost log
  of the URIs it has sent change notifications for.
- `ProviderProperties` holds lemmas that relate several definitions.

Storage is opaque but constrained:

- An insert receives the engine's reply as a parameter. The reply is either
  -1 or an id that no row has.
- A selection string with its arguments is an opaque predicate over
  (`_id`, row). A null selection is `ALL_ROWS`.
- Update and delete act on exactly the rows the predicate matches, and return
  how many rows that is.

Behaviours of the code that the model pins down as written:

- Insert rejects a null or empty name.
- Insert rejects a gender above 2, but accepts a negative one.
- Insert throws a null unboxing (`NullPointer`) when the gender is missing or null.
- Insert does not check the breed.
- Update checks the name, the breed and the gender, and each one only when its key is present.
- Update throws a null unboxing for a present but null gender.
- Every check runs before storage is touched. A rejected operation leaves the table and the notification log unchanged.
- Update and delete notify after the storage call even when no row changed.
- Insert notifies only when storage did not report -1.
- A successful insert returns the collection URI with the new id appended.

## Model

| member | source | states |
|---|---|---|
| PetContract.WithAppendedId | app/src/main/java/com/example/android/pets/data/PetProvider.java:231 | the URI with the id appended parses back to that id, and extending the collection URI gives an item URI |
| UriMatching.Match | app/src/main/java/com/example/android/pets/data/PetProvider.java:36-42 | the matcher yields the code of the first registration the URI matches, and -1 when none matches |
| UriMatching.MatchRegistrations | app/src/main/java/com/example/android/pets/data/PetProvider.java:39-42 | with the two registrations, exactly `pets` gets code 100, exactly `pets/<number>` gets 101, and every other URI gets -1 |
| UriMatching.RouteOf | app/src/main/java/com/example/android/pets/data/PetProvider.java:76-96 | the route is the collection iff the URI is the table's content URI; it is an item iff the URI has the item form, and then the URI is the content URI with that id appended |
| Provider.CheckInsert | app/src/main/java/com/example/android/pets/data/PetProvider.java:198-211 | insert accepts iff the name is non-empty and a gender is present and at most 2; the name is checked first (NameRequired), then a missing gender throws a null unboxing, then a gender above 2 gives InvalidGender; an accepted row is storable and carries the given name, gender, breed (null unless given) and weight (default 0) |
| Provider.CheckUpdate | app/src/main/java/com/example/android/pets/data/PetProvider.java:241-259 | update accepts iff each present key passes its check (name and breed non-empty, gender at most 2); absent keys impose nothing; failures are reported in source order as NameRequired, BreedRequired, a null-gender unboxing, InvalidGender; an accepted patch keeps every storable row storable |
| Provider.Matching | app/src/main/java/com/example/android/pets/data/PetProvider.java:283-285 | an id is matched iff it is a table id and the predicate holds of its row |
| Provider.Selected | app/src/main/java/com/example/android/pets/data/PetProvider.java:82-83 | a query returns exactly the matched rows, unchanged |
| Provider.Updated | app/src/main/java/com/example/android/pets/data/PetProvider.java:263-266 | an update keeps the same ids, patches every matched row and leaves every other row as it was |
| Provider.Remaining | app/src/main/java/com/example/android/pets/data/PetProvider.java:283-285 | a delete keeps exactly the unmatched ids, with their rows unchanged |
| Provider.GetType | app/src/main/java/com/example/android/pets/data/PetProvider.java:181-190 | the list MIME type iff the collection URI, the single-pet MIME type (`CONTENT_TYPE`) iff an item URI, and IllegalState for every other URI |
| Provider.PetProvider.constructor | app/src/main/java/com/example/android/pets/data/PetProvider.java:49-56 | a provider starts over the rows the database file holds (empty on first creation), with no notifications and its invariant established |
| Provider.PetProvider.Query | app/src/main/java/com/example/android/pets/data/PetProvider.java:63-118 | an unknown URI throws IllegalArgument; otherwise the rows matching the effective selection (the caller's for the collection, `_id` equals the number for an item) |
| Provider.PetProvider.Insert | app/src/main/java/com/example/android/pets/data/PetProvider.java:124-133 | any URI but the collection URI throws IllegalArgument and changes nothing; otherwise the result and new state of insertPet |
| Provider.PetProvider.Update | app/src/main/java/com/example/android/pets/data/PetProvider.java:141-156 | an unknown URI throws IllegalArgument and changes nothing; a rejected patch changes nothing; otherwise it returns the matched count for the effective selection, patches those rows and notifies the URI once; the invariant is preserved |
| Provider.PetProvider.Delete | app/src/main/java/com/example/android/pets/data/PetProvider.java:162-174 | an unknown URI throws IllegalArgument and changes nothing; otherwise it returns the matched count for the effective selection, removes those rows and notifies the URI once |
| Provider.PetProvider.InsertPet | app/src/main/java/com/example/android/pets/data/PetProvider.java:198-232 | a rejected value throws before any write; a -1 reply returns null with no write and no notification; otherwise the one new row is stored under the fresh id, the URI is notified once and the URI with the id appended is returned |
| Provider.PetProvider.UpdatePet | app/src/main/java/com/example/android/pets/data/PetProvider.java:237-272 | a rejected value throws before any write; otherwise it returns the matched count (0 included), patches the matched rows and notifies unconditionally |
| Provider.PetProvider.DeletePet | app/src/main/java/com/example/android/pets/data/PetProvider.java:277-291 | it returns the matched count (0 included), removes the matched rows and notifies unconditionally |
| ProviderProperties.InsertedUriRoutesToItem | app/src/main/java/com/example/android/pets/data/PetProvider.java:229-231 | the URI an insert returns routes to the item form for the new id |
| ProviderProperties.ItemSelectsOneRow | app/src/main/java/com/example/android/pets/data/PetProvider.java:94-96 | for an item URI the effective selection matches exactly the row with that id (one row or none), whatever the caller passed |
| ProviderProperties.ItemQueryIgnoresSelection | app/src/main/java/com/example/android/pets/data/PetProvider.java:85-107 | a query on an item URI returns that row alone, or nothing when no row has the id |
| ProviderProperties.ItemUpdateTargetsOneRow | app/src/main/java/com/example/android/pets/data/PetProvider.java:149-152 | an update on an item URI patches that row alone and leaves all others unchanged |
| ProviderProperties.ItemDeleteTargetsOneRow | app/src/main/java/com/example/android/pets/data/PetProvider.java:167-170 | a delete on an item URI removes that row alone |
| ProviderProperties.DeleteAllRows | app/src/main/java/com/example/android/pets/data/PetProvider.java:165-166 | a delete on the collection URI with the null selection reports the former row count and empties the table |
| ProviderProperties.MatchCountBounded | app/src/main/java/com/example/android/pets/data/PetProvider.java:263-266 | the count update and delete return is never more than the number of rows |
| ProviderProperties.InsertThenQuery | app/src/main/java/com/example/android/pets/data/PetProvider.java:218-231 | after a successful insert, a query on the returned URI yields exactly the stored row, and the table has grown by one |
| ProviderProperties.InsertAcceptsNegativeGender | app/src/main/java/com/example/android/pets/data/PetProvider.java:208-211 | a negative gender code passes the insert checks |
| ProviderProperties.InsertIgnoresBreed | app/src/main/java/com/example/android/pets/data/PetProvider.java:204-207 | whether insert accepts never depends on the breed |
| ProviderProperties.UpdateChecksBreed | app/src/main/java/com/example/android/pets/data/PetProvider.java:248-253 | a present but null or empty breed is rejected by update, yet accepted by insert |
| ProviderProperties.MissingGender | app/src/main/java/com/example/android/pets/data/PetProvider.java:254-259 | a missing gender makes insert throw a null unboxing, but imposes no condition on update |

## Left out

- Projection and sort order are not modelled, so a query result is a map from `_id` to row with no order.
- Registering the cursor for notifications (`setNotificationUri`) is not modelled, and neither is logging.
- The change notification broadcast is recorded only as a ghost log of URIs. Observers and delivery are not modelled.
- Opening the readable or writable database through `PetDbHelper` is not modelled. The constructor takes the rows the database file holds; how that file is created and upgraded is not part of this model.
- URI parsing is not modelled: scheme, query, fragment, encoding, and empty segments.
- `UriMatcher`'s tree walk is not modelled. A registration matches when the authority is equal and the path has exactly the pattern's segments.
- `ContentUris.parseId` overflowing a Java `long` on a very long digit segment is not modelled.
- How SQLite assigns row ids is not modelled; the engine's insert reply is an input.
- SQLite errors inside query, update and delete are not modelled. This covers a selection SQLite rejects, which makes query, update or delete throw, a NOT NULL violation from a null weight, and `SQLiteDatabase.update` rejecting empty values. A null weight is outside `PetValues`.
- A null `ContentValues` is not modelled; insert and update throw a NullPointerException on it, after the route check and before any write.
- `ContentValues` keys other than the four columns are not modelled, and neither is an explicit `_id`. Type coercion by `getAsString` and `getAsInteger` is not modelled either.
- Gender is an unbounded integer rather than the value `getAsInteger` returns. `getAsInteger` narrows a stored number with `intValue()`, so a `Long` gender of 4294967297 is checked as 1 and passes, while insert and update hand the un-narrowed value to storage. The source can therefore store a gender above 2. `Provider.PetProvider.Valid` (every stored gender at most 2) holds only for genders given as `Integer`, and relies on the `getAsInteger` coercion that the line above leaves out.
- The activities and the cursor adapter are UI and are not part of this model. This includes the editor's hard-coded row count after an insert.
