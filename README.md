# PetsDb data-access layer in Dafny

This project models the data-access layer of the PetsDb Android app: the content provider
`PetProvider` and the schema and lifecycle of `PetDbHelper`. The provider sits between the UI and a
single SQLite table `pets` with the columns `_id`, `name`, `breed`, `gender` and `weight`. It
classifies an address as the collection `pets`, an item `pets/#`, or unknown, and turns it into a
row filter. It validates a `ContentValues` set, inserts, updates or deletes rows, and posts change
notifications.

Layout, one module per file:

- `Wrappers`: `Option` and `Result`.
- `Errors`: one constructor per exception the layer can raise.
- `PetContract`: the contract constants, the classified address `Addr` and the two MIME types.
- `PetSchema`: `SQL_CREATE_ENTRIES` as a list of typed columns with their constraints.
- `RecordStore`: what SQLite does with that schema. Functions on a table value give the meaning of
  INSERT, UPDATE, DELETE and SELECT. The `Database` class holds the rows and the AUTOINCREMENT counter;
  its methods are proved equal to those functions.
- `PetDbHelper`: `OnCreate` and `OnUpgrade`, which act only by running the create and drop statements.
- `PetProvider`: the provider. The pure decisions are functions: `GetType`, `CheckContentValues` and
  the update acceptance test. For each entry point, an `Effect` function gives the result, the table
  afterwards and the notifications posted. The `Provider` class holds the database and the
  notification log. Its methods follow the Java control flow and are proved equal to the effects.
- `ProviderProperties`: properties across calls. Ids are never reused over any request sequence.
  Inserts, updates and deletes are read back through query. Concrete call sequences are worked out.

A `ContentValues` set is four typed slots, each `Absent`, `Null` (put with a null value) or
`Given(x)`. The `Null` slot keeps exact the paths where the code dereferences a null or SQLite meets
a NOT NULL column. A caller's selection string is a `Filter`: no clause, `_id = id`, or any row
predicate.

Where the code differs from its documented or evident intent, the model follows the code:

- Insert does not default a missing weight. `getAsInteger` returns null and unboxing it throws
  (`PetProvider.java:153`), so the model returns `NullDereference`.
- Insert never checks the breed. Because `breed` is NOT NULL without a default, a value set with a
  valid name, weight and gender but no breed is refused by the store, and insert returns null.
- Every update that passes the acceptance test throws "Pet requires a name" when no name is put,
  even `{weight: 6}`. An empty name passes when a breed or gender is also put, and is written.
- Update notifies the address before the store runs, whatever the count.
- An item delete never notifies. A collection delete notifies when it removed a row.
- The gender value is never range-checked, on insert or update.

## Model

| member | source | states |
|---|---|---|
| RecordStore.Size | app/src/main/java/com/example/android/pets/PetProvider.java:195 | ContentValues.size counts every key put, null values included; it is 0 exactly for the empty set |
| RecordStore.NewRow | app/src/main/java/com/example/android/pets/data/PetDbHelper.java:18-24 | a row is built exactly when name and breed are given and gender and weight are not null; omitted gender and weight become 0; the values put are stored as given |
| RecordStore.StoreInsert | app/src/main/java/com/example/android/pets/data/PetDbHelper.java:20-24 | a refused row gives -1 and leaves the table unchanged; otherwise the new id is the counter plus one, greater than every id in the table; exactly one row is added and the others are unchanged |
| RecordStore.StoreQuery | app/src/main/java/com/example/android/pets/PetProvider.java:71-78 | database.query returns exactly the rows of the table its selection matches, each unchanged |
| RecordStore.StoreUpdate | app/src/main/java/com/example/android/pets/PetProvider.java:216 | the count is the number of selected rows; selected rows get the values put and the others are unchanged; a null on a selected row is a constraint error with the table unchanged; keys and counter are kept |
| RecordStore.StoreDelete | app/src/main/java/com/example/android/pets/PetProvider.java:236 | the selected rows are removed and the others kept unchanged; the count is the number of rows removed; the counter is kept |
| RecordStore.IdFilterAtMostOne | app/src/main/java/com/example/android/pets/PetProvider.java:89-90 | the filter `_id = id` selects at most the one row with that id |
| RecordStore.Database.ExecCreateEntries | app/src/main/java/com/example/android/pets/data/PetDbHelper.java:18-24 | CREATE TABLE makes an empty table with the schema's columns and a fresh counter, and fails without change when the table exists |
| RecordStore.Database.ExecDeleteEntries | app/src/main/java/com/example/android/pets/data/PetDbHelper.java:25-26 | DROP TABLE IF EXISTS leaves no table, no rows and no counter |
| RecordStore.Database.Insert | app/src/main/java/com/example/android/pets/PetProvider.java:134 | the table and the returned id are those of StoreInsert, and the table invariant is kept |
| RecordStore.Database.Update | app/src/main/java/com/example/android/pets/PetProvider.java:216 | the table and the result are those of StoreUpdate |
| RecordStore.Database.Delete | app/src/main/java/com/example/android/pets/PetProvider.java:236 | the table and the count are those of StoreDelete |
| PetDbHelper.OnCreate | app/src/main/java/com/example/android/pets/data/PetDbHelper.java:34-37 | on a database without the table: the table exists, is empty, and has exactly the columns _id, name, breed, gender, weight |
| PetDbHelper.OnUpgrade | app/src/main/java/com/example/android/pets/data/PetDbHelper.java:40-44 | for any two versions, the table exists afterwards with the schema's columns, no rows and the counter back at 0 |
| PetProvider.GetType | app/src/main/java/com/example/android/pets/PetProvider.java:254-265 | the collection gives the list type, an item gives the item type, and an unknown address is an IllegalStateException |
| PetProvider.GetTypeAgreesWithRouting | app/src/main/java/com/example/android/pets/PetProvider.java:255-263 | getType fails exactly where routing refuses the address; where it reports the item type, the routed filter selects at most one row |
| PetProvider.CheckContentValues | app/src/main/java/com/example/android/pets/PetProvider.java:147-161 | it checks the name first, so a missing or empty name is a soft rejection whatever else is put; then a missing weight throws, a weight <= 0 is a soft rejection, a missing gender throws; it accepts exactly a non-empty name, a positive weight and a gender |
| PetProvider.UpdateAccepted | app/src/main/java/com/example/android/pets/PetProvider.java:199-207 | it accepts exactly a non-empty name, a positive weight, any gender key or any breed key; it throws when the name is null, or when the weight is null and the name did not accept |
| PetProvider.Resolve | app/src/main/java/com/example/android/pets/PetProvider.java:66-98 | the URI match table: only an unknown address is refused; the collection keeps the caller's selection; an item selects exactly its own _id whatever selection the caller passed (also lines 170-181 and 232-247); pinned further by GetTypeAgreesWithRouting and the contracts of QueryResult, UpdateEffect and DeleteEffect |
| PetProvider.QueryResult | app/src/main/java/com/example/android/pets/PetProvider.java:56-99 | an unknown address throws; an item query returns that one row if present and nothing else; a collection query returns exactly the rows the selection matches; rows are returned unchanged |
| PetProvider.InsertPetEffect | app/src/main/java/com/example/android/pets/PetProvider.java:122-145 | an error comes only from validation, and every validation error is thrown with nothing changed; an empty name changes nothing; a row is stored exactly when validation passes and the store accepts the row; then the result is the item address of a new id above the old counter, one row is added and the collection is notified once; otherwise nothing changes and nothing is notified |
| PetProvider.InsertEffect | app/src/main/java/com/example/android/pets/PetProvider.java:108-116 | an item or unknown address throws with the table unchanged; on the collection it is insertPet: a validation error is thrown with nothing changed, a soft rejection (empty name, weight not above 0) returns null with nothing changed, and a validated set is stored exactly when the schema accepts the row; a stored insert adds exactly the new row under an id above every existing one and notifies the collection |
| PetProvider.UpdatePetEffect | app/src/main/java/com/example/android/pets/PetProvider.java:190-222 | an empty set returns 0 and changes nothing; a set the check rejects returns 0 and changes nothing; a null name, or a null weight without a non-empty name, throws a null dereference with nothing changed; only an accepted set that puts a name notifies, once, with the address; an accepted set without a name throws with nothing changed; a notified update has the store's result; an update that notifies nothing changes nothing |
| PetProvider.UpdateEffect | app/src/main/java/com/example/android/pets/PetProvider.java:167-183 | an unknown address throws; an item update counts at most one row; rows outside the routed filter are unchanged; keys and counter are kept |
| PetProvider.DeleteEffect | app/src/main/java/com/example/android/pets/PetProvider.java:228-249 | an unknown address throws with nothing changed; the routed rows are removed and the count is how many; the collection is notified exactly when the count is non-zero; an item delete removes at most one row and never notifies |
| PetProvider.Provider.constructor | app/src/main/java/com/example/android/pets/PetProvider.java:46-50 | a new provider has an empty pets table with a fresh counter and no notifications |
| PetProvider.Provider.Query | app/src/main/java/com/example/android/pets/PetProvider.java:56-102 | the result is QueryResult on the current table, which it does not change |
| PetProvider.Provider.Insert | app/src/main/java/com/example/android/pets/PetProvider.java:108-116 | result, new table and appended notifications are those of InsertEffect |
| PetProvider.Provider.InsertPet | app/src/main/java/com/example/android/pets/PetProvider.java:122-145 | result, new table and appended notifications are those of InsertPetEffect |
| PetProvider.Provider.Update | app/src/main/java/com/example/android/pets/PetProvider.java:167-183 | result, new table and appended notifications are those of UpdateEffect |
| PetProvider.Provider.UpdatePet | app/src/main/java/com/example/android/pets/PetProvider.java:190-222 | result, new table and appended notifications are those of UpdatePetEffect |
| PetProvider.Provider.Delete | app/src/main/java/com/example/android/pets/PetProvider.java:228-249 | result, new table and appended notifications are those of DeleteEffect |
| ProviderProperties.IdsNeverReused | app/src/main/java/com/example/android/pets/data/PetDbHelper.java:20 | over any sequence of inserts, updates and deletes, the ids handed out are strictly increasing, above the starting counter, and none was an id of the starting table |
| ProviderProperties.UnknownAddressRefused | app/src/main/java/com/example/android/pets/PetProvider.java:97-263 | query, insert, update and delete refuse an unknown address with IllegalArgumentException (lines 97-98, 113-114, 180-181, 246-247), getType with IllegalStateException (262-263); insert also refuses an item address; the table and notifications are unchanged |
| ProviderProperties.InsertThenQuery | app/src/main/java/com/example/android/pets/PetProvider.java:134-143 | after an accepted insert, querying the returned item address gives exactly one row, under a new id, holding the four values put |
| ProviderProperties.ValidatedInsertNeedsBreed | app/src/main/java/com/example/android/pets/data/PetDbHelper.java:21-22 | a value set that passes validation is stored exactly when it puts a breed; without one, insert returns null and changes nothing |
| ProviderProperties.GenderNeverRangeChecked | app/src/main/java/com/example/android/pets/PetProvider.java:157-160 | any integer gender validates like 0 and is stored as given |
| ProviderProperties.UpdateThenQuery | app/src/main/java/com/example/android/pets/PetProvider.java:173-179 | an update that reaches the store on an existing item counts 1, notifies that item, changes that row to the values put and no other row |
| ProviderProperties.DeleteAllThenQuery | app/src/main/java/com/example/android/pets/PetProvider.java:234-240 | deleting the collection with no selection removes every row, so a later collection query is empty; it notifies exactly when the table had a row |
| ProviderProperties.DeleteItemThenQuery | app/src/main/java/com/example/android/pets/PetProvider.java:241-245 | an item delete counts 1 if the row existed and 0 otherwise; a later item query is empty; nothing is notified |
| ProviderProperties.MiloScenario | app/src/main/java/com/example/android/pets/PetProvider.java:209-212 | inserting name Milo, gender 2, weight 5 and no breed returns null; with breed Lab it gets id 1; updating item 1 with weight 6 alone then throws "Pet requires a name" |
| ProviderProperties.EmptyNameScenarios | app/src/main/java/com/example/android/pets/PetProvider.java:199-212 | an empty name on insert is a soft rejection even without a gender; an update with an empty name and a breed writes the empty name and counts 1 |

## Left out

- Android plumbing: the Context, the ContentResolver, Toast and Log calls, database open and close,
  and cursor notification URIs. Notifications are a sequence of addresses in `Provider.notifications`.
- UriMatcher string parsing and `ContentUris.parseId`: addresses come already classified as `Addr`.
  The match codes PETS and PETS_ID are the `Collection` and `Item` constructors.
- MIME type strings: the two types are the constructors of `MimeType`.
- Projection, sort order and cursors: a query returns the selected rows as a map from id to row.
- SQL selection strings and their arguments: a caller's selection is a row predicate.
- `ContentValues` type coercion, such as `getAsInteger` parsing a string, and keys other than the
  four data columns: each slot holds a value of its column's type.
- Store failures other than constraint violations, such as a full disk or I/O errors.
- RecordStore.StoreInsert: does not model the 64-bit rowid limit; ids are unbounded integers.
- Concurrent or multi-process access: every call runs alone.
- PetProvider.Provider.constructor: models a fresh install only, where no pets.db exists and the
  open helper runs `onCreate`. When a stored database has a version below 4 the helper runs
  `onUpgrade` instead (modelled by PetDbHelper.OnUpgrade, which also leaves an empty table); at
  version 4 it runs neither and the provider sees the rows already stored. A provider over such an
  existing table is not modelled; the provider methods only require that the table exists.
- The editor activity, including its extra notification after a delete: it is a caller, not the provider.
