/** The single pets table as SQLite keeps it under the schema of PetSchema: what an INSERT, an
    UPDATE, a DELETE and a SELECT on it do, first as functions on a table value, then as the
    methods of a Database object that holds the table. */
module RecordStore {
  import opened Wrappers
  import opened Errors
  import opened PetSchema

  /** One row of the table, without its _id (the _id is the row's key). */
  datatype Pet = Pet(name: string, breed: string, gender: int, weight: int)

  /** One key of a ContentValues set: not put, put with null, or put with a value. */
  datatype Slot<T> = Absent | Null | Given(value: T)

  /** A ContentValues set over the four data columns. */
  datatype Values = Values(name: Slot<string>, breed: Slot<string>, gender: Slot<int>, weight: Slot<int>)

  function SlotSize<T>(s: Slot<T>): nat
  {
    if s.Absent? then 0 else 1
  }

  /** ContentValues.size(): the number of keys put, null values included. */
  function Size(v: Values): (n: nat)
    ensures n <= 4
    ensures n == 0 <==> v == Values(Absent, Absent, Absent, Absent)
  {
    SlotSize(v.name) + SlotSize(v.breed) + SlotSize(v.gender) + SlotSize(v.weight)
  }

  /** The rows by _id, and the AUTOINCREMENT counter (the table's entry in sqlite_sequence: the
      largest _id ever handed out, 0 when none was). */
  datatype Table = Table(rows: map<int, Pet>, sequence: nat)

  const EmptyTable: Table := Table(map[], 0)

  /** Every _id in the table was handed out by the counter. */
  ghost predicate TableValid(t: Table)
  {
    forall k :: k in t.rows ==> 0 < k <= t.sequence
  }

  /** A WHERE clause: none (every row), "_id=?" with an id, or any other caller selection. */
  datatype Filter = AllRows | IdEquals(id: int) | Where(pred: (int, Pet) -> bool)

  predicate Matches(f: Filter, id: int, p: Pet)
  {
    match f
    case AllRows => true
    case IdEquals(k) => id == k
    case Where(pred) => pred(id, p)
  }

  function Matching(rows: map<int, Pet>, f: Filter): set<int>
  {
    set k | k in rows && Matches(f, k, rows[k])
  }

  /** A filter on one _id selects at most that row. */
  lemma {:induction false} IdFilterAtMostOne(rows: map<int, Pet>, id: int)
    ensures Matching(rows, IdEquals(id)) <= {id}
    ensures |Matching(rows, IdEquals(id))| <= 1
  {
    var m := Matching(rows, IdEquals(id));
    if id in rows {
      assert m == {id};
    } else {
      assert m == {};
    }
  }

  /** A table value paired with what the statement returned. */
  datatype Stored<R> = Stored(table: Table, result: R)

  /** What a NOT NULL column stores: the value put, else the column's default. None is a constraint
      failure: null put explicitly, or the column omitted and without a default. */
  function StoredValue<T>(s: Slot<T>, default: Option<T>): Option<T>
  {
    match s
    case Given(x) => Some(x)
    case Null => None
    case Absent => default
  }

  /** The row an INSERT of v builds under the schema, or None when a NOT NULL constraint rejects it.
      The text columns name and breed have no default. */
  function NewRow(v: Values): (r: Option<Pet>)
    ensures r.Some? <==> v.name.Given? && v.breed.Given? && !v.gender.Null? && !v.weight.Null?
    ensures r.Some? ==> r.value.name == v.name.value && r.value.breed == v.breed.value
    ensures r.Some? ==> r.value.gender == (if v.gender.Given? then v.gender.value else 0)
    ensures r.Some? ==> r.value.weight == (if v.weight.Given? then v.weight.value else 0)
  {
    var name := StoredValue(v.name, None);
    var breed := StoredValue(v.breed, None);
    var gender := StoredValue(v.gender, DefaultOf(GenderColumn));
    var weight := StoredValue(v.weight, DefaultOf(WeightColumn));
    if name.Some? && breed.Some? && gender.Some? && weight.Some? then
      Some(Pet(name.value, breed.value, gender.value, weight.value))
    else
      None
  }

  /** SQLiteDatabase.insert: the new _id, or -1 when the row is rejected. */
  function StoreInsert(t: Table, v: Values): (r: Stored<int>)
    requires TableValid(t)
    ensures TableValid(r.table)
    ensures r.result == -1 <==> NewRow(v).None?
    ensures r.result == -1 ==> r.table == t
    ensures r.result != -1 ==>
      && r.result == r.table.sequence == t.sequence + 1
      && t.sequence < r.result
      && (forall k :: k in t.rows ==> k < r.result)
      && r.table.rows.Keys == t.rows.Keys + {r.result}
      && r.table.rows[r.result] == NewRow(v).value
      && (forall k :: k in t.rows ==> r.table.rows[k] == t.rows[k])
  {
    match NewRow(v)
    case None => Stored(t, -1)
    case Some(p) =>
      var id := t.sequence + 1;
      Stored(Table(t.rows[id := p], id), id)
  }

  /** The row p after an UPDATE that sets the columns v puts a value in. */
  function Apply(p: Pet, v: Values): Pet
  {
    Pet(if v.name.Given? then v.name.value else p.name,
        if v.breed.Given? then v.breed.value else p.breed,
        if v.gender.Given? then v.gender.value else p.gender,
        if v.weight.Given? then v.weight.value else p.weight)
  }

  /** v puts null in some column; every data column is NOT NULL. */
  predicate HasNull(v: Values)
  {
    v.name.Null? || v.breed.Null? || v.gender.Null? || v.weight.Null?
  }

  /** SQLiteDatabase.update: the number of rows the WHERE clause selects, or the constraint error
      when a selected row would receive null. SQLiteDatabase rejects an empty ContentValues. */
  function StoreUpdate(t: Table, v: Values, f: Filter): (r: Stored<Result<nat, Error>>)
    requires TableValid(t)
    requires Size(v) > 0
    ensures TableValid(r.table) && r.table.sequence == t.sequence
    ensures r.result.Failure? <==> Matching(t.rows, f) != {} && HasNull(v)
    ensures r.result.Failure? ==> r.result.error == ConstraintViolation && r.table == t
    ensures r.result.Success? ==>
      && r.result.value == |Matching(t.rows, f)|
      && r.table.rows.Keys == t.rows.Keys
      && forall k :: k in t.rows ==>
           r.table.rows[k] == if Matches(f, k, t.rows[k]) then Apply(t.rows[k], v) else t.rows[k]
  {
    var m := Matching(t.rows, f);
    if m != {} && HasNull(v) then
      Stored(t, Failure(ConstraintViolation))
    else
      Stored(Table(map k | k in t.rows :: if k in m then Apply(t.rows[k], v) else t.rows[k], t.sequence),
             Success(|m|))
  }

  /** SQLiteDatabase.delete: removes the selected rows and returns how many there were. The
      AUTOINCREMENT counter is kept, so deleted ids are never handed out again. */
  function StoreDelete(t: Table, f: Filter): (r: Stored<nat>)
    requires TableValid(t)
    ensures TableValid(r.table) && r.table.sequence == t.sequence
    ensures r.table.rows.Keys == t.rows.Keys - Matching(t.rows, f)
    ensures forall k :: k in r.table.rows ==> r.table.rows[k] == t.rows[k]
    ensures r.result == |t.rows| - |r.table.rows|
  {
    var m := Matching(t.rows, f);
    Stored(Table(t.rows - m, t.sequence), |m|)
  }

  /** SQLiteDatabase.query without projection and order: the selected rows. */
  function StoreQuery(t: Table, f: Filter): (r: map<int, Pet>)
    ensures r.Keys <= t.rows.Keys
    ensures forall k :: k in t.rows ==> (k in r <==> Matches(f, k, t.rows[k]))
    ensures forall k :: k in r ==> r[k] == t.rows[k]
  {
    map k | k in Matching(t.rows, f) :: t.rows[k]
  }

  /** A database file holding, or not yet holding, the pets table. */
  class Database {
    var hasTable: bool
    var columns: seq<Column>
    var rows: map<int, Pet>
    var sequence: nat

    /** Without the table there are no rows and no sqlite_sequence entry; with it, the table has
        the schema's columns and its ids come from the counter. */
    ghost predicate Valid()
      reads this
    {
      && (hasTable ==> columns == PetsColumns && TableValid(Contents()))
      && (!hasTable ==> columns == [] && rows == map[] && sequence == 0)
    }

    function Contents(): Table
      reads this
    {
      Table(rows, sequence)
    }

    /** A newly created database file: no table yet. */
    constructor ()
      ensures Valid() && !hasTable
    {
      hasTable, columns, rows, sequence := false, [], map[], 0;
    }

    /** execSQL(SQL_CREATE_ENTRIES): fails when the table is already there. */
    method ExecCreateEntries() returns (r: Result<(), Error>)
      requires Valid()
      modifies this
      ensures Valid() && hasTable
      ensures old(hasTable) ==> r == Failure(TableAlreadyExists) && Contents() == old(Contents())
      ensures !old(hasTable) ==> r == Success(()) && Contents() == EmptyTable && columns == PetsColumns
    {
      if hasTable {
        return Failure(TableAlreadyExists);
      }
      hasTable, columns := true, PetsColumns;
      r := Success(());
    }

    /** execSQL(SQL_DELETE_ENTRIES): DROP TABLE IF EXISTS, which also drops the counter. */
    method ExecDeleteEntries()
      requires Valid()
      modifies this
      ensures Valid() && !hasTable
    {
      hasTable, columns, rows, sequence := false, [], map[], 0;
    }

    method Insert(v: Values) returns (id: int)
      requires Valid() && hasTable
      modifies this
      ensures Valid() && hasTable
      ensures Stored(Contents(), id) == StoreInsert(old(Contents()), v)
    {
      var row := NewRow(v);
      if row.None? {
        return -1;
      }
      sequence := sequence + 1;
      rows := rows[sequence := row.value];
      id := sequence;
    }

    method Update(v: Values, f: Filter) returns (r: Result<nat, Error>)
      requires Valid() && hasTable
      requires Size(v) > 0
      modifies this
      ensures Valid() && hasTable
      ensures Stored(Contents(), r) == StoreUpdate(old(Contents()), v, f)
    {
      var m := Matching(rows, f);
      if m != {} && HasNull(v) {
        return Failure(ConstraintViolation);
      }
      rows := map k | k in rows :: if k in m then Apply(rows[k], v) else rows[k];
      r := Success(|m|);
    }

    method Delete(f: Filter) returns (count: nat)
      requires Valid() && hasTable
      modifies this
      ensures Valid() && hasTable
      ensures Stored(Contents(), count) == StoreDelete(old(Contents()), f)
    {
      var m := Matching(rows, f);
      rows := rows - m;
      count := |m|;
    }
  }
}
