/** Properties that relate several provider calls: ids handed out over any sequence of requests,
    what a query sees after an insert, an update or a delete, and concrete call sequences. */
module ProviderProperties {
  import opened Wrappers
  import opened Errors
  import opened PetContract
  import opened RecordStore
  import opened PetProvider

  /** A state-changing call to the provider. */
  datatype Request =
    | InsertRequest(addr: Addr, values: Values)
    | UpdateRequest(addr: Addr, values: Values, selection: Filter)
    | DeleteRequest(addr: Addr, selection: Filter)

  /** One request: the table afterwards and the id of the item address an insert returned. */
  function Perform(t: Table, req: Request): (r: Stored<Option<nat>>)
    requires TableValid(t)
    ensures TableValid(r.table) && t.sequence <= r.table.sequence
    ensures r.result.Some? ==> t.sequence < r.result.value == r.table.sequence
  {
    match req
    case InsertRequest(addr, v) =>
      var e := InsertEffect(t, addr, v);
      var id := if e.result.Success? && e.result.value.Some? && e.result.value.value.Item?
                then Some(e.result.value.value.id) else None;
      Stored(e.table, id)
    case UpdateRequest(addr, v, selection) =>
      Stored(UpdateEffect(t, addr, v, selection).table, None)
    case DeleteRequest(addr, selection) =>
      Stored(DeleteEffect(t, addr, selection).table, None)
  }

  /** A sequence of requests: the final table and the ids handed out, in order. */
  function Run(t: Table, reqs: seq<Request>): Stored<seq<nat>>
    requires TableValid(t)
    decreases |reqs|
  {
    if reqs == [] then Stored(t, [])
    else
      var first := Perform(t, reqs[0]);
      var rest := Run(first.table, reqs[1..]);
      Stored(rest.table, (if first.result.Some? then [first.result.value] else []) + rest.result)
  }

  predicate StrictlyIncreasing(ids: seq<nat>)
  {
    forall i, j :: 0 <= i < j < |ids| ==> ids[i] < ids[j]
  }

  /** AUTOINCREMENT: over any sequence of inserts, updates and deletes, every id handed out is
      greater than every id handed out before it, and none is an id the table already held or
      had held, deleted rows included. */
  lemma {:induction false} IdsNeverReused(t: Table, reqs: seq<Request>)
    requires TableValid(t)
    ensures TableValid(Run(t, reqs).table)
    ensures t.sequence <= Run(t, reqs).table.sequence
    ensures forall i :: 0 <= i < |Run(t, reqs).result| ==>
      t.sequence < Run(t, reqs).result[i] <= Run(t, reqs).table.sequence
    ensures forall i :: 0 <= i < |Run(t, reqs).result| ==> Run(t, reqs).result[i] !in t.rows
    ensures StrictlyIncreasing(Run(t, reqs).result)
    decreases |reqs|
  {
    if reqs != [] {
      var first := Perform(t, reqs[0]);
      IdsNeverReused(first.table, reqs[1..]);
    }
  }

  /** An address the matcher does not know is refused by every entry point, with the table and
      the notifications untouched; insert refuses an item address as well. */
  lemma UnknownAddressRefused(t: Table, v: Values, selection: Filter, id: nat)
    requires TableValid(t)
    ensures QueryResult(t, Unknown, selection) == Failure(UnsupportedUri)
    ensures InsertEffect(t, Unknown, v) == Effect(Failure(UnsupportedUri), t, [])
    ensures InsertEffect(t, Item(id), v) == Effect(Failure(UnsupportedUri), t, [])
    ensures UpdateEffect(t, Unknown, v, selection) == Effect(Failure(UnsupportedUri), t, [])
    ensures DeleteEffect(t, Unknown, selection) == Effect(Failure(UnsupportedUri), t, [])
    ensures GetType(Unknown) == Failure(UnknownUriType)
  {
  }

  /** An insert the provider accepts can be read back on the item address it returns, with the
      four values that were put. */
  lemma InsertThenQuery(t: Table, v: Values)
    requires TableValid(t)
    requires InsertEffect(t, Collection, v).result.Success?
    requires InsertEffect(t, Collection, v).result.value.Some?
    ensures var e := InsertEffect(t, Collection, v);
      var addr := e.result.value.value;
      && addr.Item?
      && addr.id !in t.rows
      && QueryResult(e.table, addr, AllRows)
         == Success(map[addr.id := Pet(v.name.value, v.breed.value, v.gender.value, v.weight.value)])
  {
  }

  /** A validated value set is stored exactly when it also puts a breed: name and breed are
      NOT NULL without a default, and the provider does not check the breed. */
  lemma ValidatedInsertNeedsBreed(t: Table, v: Values)
    requires TableValid(t)
    requires CheckContentValues(v) == Success(true)
    ensures var e := InsertEffect(t, Collection, v);
      && e.result.Success?
      && (e.result.value.Some? <==> v.breed.Given?)
      && (!v.breed.Given? ==> e.table == t && e.notified == [])
  {
  }

  /** The gender value is never range-checked: any integer passes validation as 0 does, and is
      stored as given. */
  lemma GenderNeverRangeChecked(t: Table, v: Values, g: int)
    requires TableValid(t)
    requires NonEmptyName(v) && PositiveWeight(v) && v.breed.Given?
    ensures var e := InsertEffect(t, Collection, v.(gender := Given(g)));
      && CheckContentValues(v.(gender := Given(g))) == CheckContentValues(v.(gender := Given(GenderUnknown)))
      && e.result.Success? && e.result.value.Some?
      && e.table.rows[e.table.sequence].gender == g
  {
  }

  /** An update that reaches the store on an existing item changes that row, and only it, to the
      values put, and counts one row. */
  lemma UpdateThenQuery(t: Table, id: nat, v: Values, selection: Filter)
    requires TableValid(t)
    requires id in t.rows
    requires UpdateEffect(t, Item(id), v, selection).notified != []
    requires UpdateEffect(t, Item(id), v, selection).result.Success?
    ensures var e := UpdateEffect(t, Item(id), v, selection);
      && e.result == Success(1)
      && e.notified == [Item(id)]
      && QueryResult(e.table, Item(id), selection) == Success(map[id := Apply(t.rows[id], v)])
      && forall k :: k in t.rows && k != id ==> e.table.rows[k] == t.rows[k]
  {
  }

  /** Deleting the collection without a selection empties the table; a later query of the
      collection sees nothing; the collection is notified exactly when there was a row. */
  lemma DeleteAllThenQuery(t: Table)
    requires TableValid(t)
    ensures var e := DeleteEffect(t, Collection, AllRows);
      && e.result == Success(|t.rows|)
      && QueryResult(e.table, Collection, AllRows) == Success(map[])
      && (e.notified == [Collection] <==> t.rows != map[])
      && (e.notified == [] <==> t.rows == map[])
  {
  }

  /** An item delete removes at most that row, a later query of the item sees nothing, and the
      provider posts no notification even when the row existed. */
  lemma DeleteItemThenQuery(t: Table, id: nat, selection: Filter)
    requires TableValid(t)
    ensures var e := DeleteEffect(t, Item(id), selection);
      && e.result == Success(if id in t.rows then 1 else 0)
      && QueryResult(e.table, Item(id), selection) == Success(map[])
      && e.notified == []
  {
  }

  /** Inserting name "Milo", gender 2 and weight 5 on an empty table returns null: no breed is put,
      and the store refuses the row. Put with breed "Lab" it gets id 1; updating item 1 with weight 6
      alone then throws, because an accepted update must put a name. */
  lemma MiloScenario()
    ensures var milo := Values(Given("Milo"), Absent, Given(GenderFemale), Given(5));
      InsertEffect(EmptyTable, Collection, milo) == Effect(Success(None), EmptyTable, [])
    ensures var milo := Values(Given("Milo"), Given("Lab"), Given(GenderFemale), Given(5));
      var e := InsertEffect(EmptyTable, Collection, milo);
      && e.result == Success(Some(Item(1)))
      && e.notified == [Collection]
      && UpdateEffect(e.table, Item(1), Values(Absent, Absent, Absent, Given(6)), AllRows)
         == Effect(Failure(NameRequired), e.table, [])
  {
  }

  /** An empty name on insert is a soft rejection before gender is looked at; an empty name on
      update is written when a breed is also put. */
  lemma EmptyNameScenarios(t: Table, id: nat)
    requires TableValid(t)
    requires id in t.rows
    ensures InsertEffect(t, Collection, Values(Given(""), Absent, Absent, Absent)) == Effect(Success(None), t, [])
    ensures var e := UpdateEffect(t, Item(id), Values(Given(""), Given("Lab"), Absent, Absent), AllRows);
      && e.result == Success(1)
      && e.table.rows[id].name == ""
      && e.notified == [Item(id)]
  {
  }
}
