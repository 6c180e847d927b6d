/** The content provider: routes an address to a row filter, validates ContentValues, mutates the
    pets table through the store and posts change notifications. Each operation is first a function
    on a table value giving its Effect, then a method of Provider proved equal to it. */
module PetProvider {
  import opened Wrappers
  import opened Errors
  import opened PetContract
  import opened RecordStore
  import PetDbHelper

  /** What one provider call returns, the table afterwards, and the notifications it posts. */
  datatype Effect<R> = Effect(result: Result<R, Error>, table: Table, notified: seq<Addr>)

  predicate NonEmptyName(v: Values)
  {
    v.name.Given? && v.name.value != ""
  }

  predicate PositiveWeight(v: Values)
  {
    v.weight.Given? && v.weight.value > 0
  }

  /** The filter a call uses: the caller's selection on the collection, "_id = id" on an item
      (the caller's selection is replaced), none on an unknown address. */
  function Resolve(addr: Addr, selection: Filter): (r: Option<Filter>)
    ensures r.None? <==> addr.Unknown?
    ensures addr.Collection? ==> r == Some(selection)
    ensures addr.Item? ==> r.Some? && forall id, p :: Matches(r.value, id, p) <==> id == addr.id
  {
    match addr
    case Collection => Some(selection)
    case Item(id) => Some(IdEquals(id))
    case Unknown => None
  }

  /** getType. */
  function GetType(addr: Addr): (r: Result<MimeType, Error>)
    ensures r.Failure? <==> addr.Unknown?
    ensures r.Failure? ==> r.error == UnknownUriType
    ensures r == Success(ListType) <==> addr.Collection?
    ensures r == Success(ItemType) <==> addr.Item?
  {
    match addr
    case Collection => Success(ListType)
    case Item(_) => Success(ItemType)
    case Unknown => Failure(UnknownUriType)
  }

  /** getType agrees with the routing: it fails exactly where every other entry point refuses the
      address, and where it reports the item type, the routed filter selects at most one row. */
  lemma {:induction false} GetTypeAgreesWithRouting(addr: Addr, selection: Filter, t: Table)
    ensures GetType(addr).Failure? <==> Resolve(addr, selection).None?
    ensures GetType(addr) == Success(ItemType) ==> |Matching(t.rows, Resolve(addr, selection).value)| <= 1
  {
    if addr.Item? {
      IdFilterAtMostOne(t.rows, addr.id);
    }
  }

  /** checkContentValues: name, then weight, then gender. A missing or empty name is a soft
      rejection whatever else is put; a null weight is unboxed and throws; a weight <= 0 is a soft
      rejection; a null gender throws. The gender value is never range-checked. */
  function CheckContentValues(v: Values): (r: Result<bool, Error>)
    ensures r == Success(true) <==> NonEmptyName(v) && PositiveWeight(v) && v.gender.Given?
    ensures !NonEmptyName(v) ==> r == Success(false)
    ensures r == Failure(NullDereference) <==> NonEmptyName(v) && !v.weight.Given?
    ensures r == Failure(GenderRequired) <==> NonEmptyName(v) && PositiveWeight(v) && !v.gender.Given?
    ensures r.Failure? ==> r.error == NullDereference || r.error == GenderRequired
  {
    if !NonEmptyName(v) then Success(false)
    else if !v.weight.Given? then Failure(NullDereference)
    else if v.weight.value <= 0 then Success(false)
    else if !v.gender.Given? then Failure(GenderRequired)
    else Success(true)
  }

  /** The update acceptance test of updatePet, evaluated left to right with short circuits: a null
      name throws at isEmpty; a null weight throws when it is unboxed, which happens only when the
      name did not already accept. The trailing null test on the weight is dead. */
  function UpdateAccepted(v: Values): (r: Result<bool, Error>)
    ensures r.Failure? <==> v.name.Null? || (!NonEmptyName(v) && v.weight.Null?)
    ensures r.Failure? ==> r.error == NullDereference
    ensures r.Success? ==>
      (r.value <==> NonEmptyName(v) || PositiveWeight(v) || !v.gender.Absent? || !v.breed.Absent?)
  {
    var nameAccepts: Result<bool, Error> :=
      match v.name
      case Absent => Success(false)
      case Null => Failure(NullDereference)
      case Given(s) => Success(s != "");
    if nameAccepts.Failure? then nameAccepts
    else if nameAccepts.value then Success(true)
    else
      var weightAccepts: Result<bool, Error> :=
        match v.weight
        case Absent => Success(false)
        case Null => Failure(NullDereference)
        case Given(w) => Success(w > 0);
      if weightAccepts.Failure? then weightAccepts
      else Success(weightAccepts.value || !v.gender.Absent? || !v.breed.Absent?)
  }

  /** query: the rows the routed filter selects, unchanged. */
  function QueryResult(t: Table, addr: Addr, selection: Filter): (r: Result<map<int, Pet>, Error>)
    ensures r.Failure? <==> addr.Unknown?
    ensures r.Failure? ==> r.error == UnsupportedUri
    ensures r.Success? ==> forall k :: k in r.value ==> k in t.rows && r.value[k] == t.rows[k]
    ensures r.Success? && addr.Item? ==>
      r.value == if addr.id in t.rows then map[addr.id := t.rows[addr.id]] else map[]
    ensures r.Success? && addr.Collection? ==>
      forall k :: k in t.rows ==> (k in r.value <==> Matches(selection, k, t.rows[k]))
  {
    match Resolve(addr, selection)
    case None => Failure(UnsupportedUri)
    case Some(f) => Success(StoreQuery(t, f))
  }

  /** insertPet: validate, store, and on a stored row notify the collection and return the item
      address of the new id. */
  function InsertPetEffect(t: Table, v: Values): (e: Effect<Option<Addr>>)
    requires TableValid(t)
    ensures TableValid(e.table)
    ensures e.result.Failure? ==> CheckContentValues(v) == Failure(e.result.error)
    ensures CheckContentValues(v).Failure? ==> e == Effect(Failure(CheckContentValues(v).error), t, [])
    ensures !NonEmptyName(v) ==> e == Effect(Success(None), t, [])
    ensures (e.result.Success? && e.result.value.Some?) <==> CheckContentValues(v) == Success(true) && NewRow(v).Some?
    ensures e.result.Failure? || e.result == Success(None) ==> e.table == t && e.notified == []
    ensures e.result.Success? && e.result.value.Some? ==>
      && e.result.value == Some(Item(e.table.sequence))
      && t.sequence < e.table.sequence
      && e.table.rows == t.rows[e.table.sequence := NewRow(v).value]
      && e.notified == [Collection]
  {
    var ok := CheckContentValues(v);
    if ok.Failure? then Effect(Failure(ok.error), t, [])
    else if !ok.value then Effect(Success(None), t, [])
    else
      var stored := StoreInsert(t, v);
      if stored.result == -1 then Effect(Success(None), t, [])
      else Effect(Success(Some(Item(stored.result))), stored.table, [Collection])
  }

  /** insert: only the collection address takes an insert. */
  function InsertEffect(t: Table, addr: Addr, v: Values): (e: Effect<Option<Addr>>)
    requires TableValid(t)
    ensures TableValid(e.table) && t.sequence <= e.table.sequence
    ensures !addr.Collection? ==> e == Effect(Failure(UnsupportedUri), t, [])
    ensures addr.Collection? && !NonEmptyName(v) ==> e == Effect(Success(None), t, [])
    ensures addr.Collection? ==> e == InsertPetEffect(t, v)
    ensures addr.Collection? && CheckContentValues(v).Failure? ==>
      e == Effect(Failure(CheckContentValues(v).error), t, [])
    ensures addr.Collection? && CheckContentValues(v) == Success(false) ==> e == Effect(Success(None), t, [])
    ensures addr.Collection? && CheckContentValues(v) == Success(true) ==>
      e.result.Success? && (e.result.value.Some? <==> NewRow(v).Some?)
    ensures e.result.Failure? || e.result == Success(None) ==> e.table == t && e.notified == []
    ensures e.result.Success? && e.result.value.Some? ==>
      && addr.Collection?
      && e.result.value == Some(Item(e.table.sequence))
      && (forall k :: k in t.rows ==> k < e.table.sequence)
      && NewRow(v).Some?
      && e.table.rows == t.rows[e.table.sequence := NewRow(v).value]
      && e.notified == [Collection]
  {
    match addr
    case Collection => InsertPetEffect(t, v)
    case _ => Effect(Failure(UnsupportedUri), t, [])
  }

  /** updatePet on filter f: an empty value set does nothing; a rejected one does nothing; an
      accepted one without a name throws; otherwise addr is notified before the store runs. */
  function UpdatePetEffect(t: Table, addr: Addr, v: Values, f: Filter): (e: Effect<nat>)
    requires TableValid(t)
    ensures TableValid(e.table) && e.table.sequence == t.sequence && e.table.rows.Keys == t.rows.Keys
    ensures Size(v) == 0 ==> e == Effect(Success(0), t, [])
    ensures Size(v) > 0 && UpdateAccepted(v) == Success(false) ==> e == Effect(Success(0), t, [])
    ensures Size(v) > 0 && UpdateAccepted(v).Failure? ==> e == Effect(Failure(NullDereference), t, [])
    ensures e.notified == [] ==> e.table == t && (e.result.Success? ==> e.result.value == 0)
    ensures e.notified == (if Size(v) > 0 && UpdateAccepted(v) == Success(true) && v.name.Given? then [addr] else [])
    ensures Size(v) > 0 && UpdateAccepted(v) == Success(true) && !v.name.Given? ==>
      e == Effect(Failure(NameRequired), t, [])
    ensures e.notified != [] ==> Stored(e.table, e.result) == StoreUpdate(t, v, f)
  {
    if Size(v) == 0 then Effect(Success(0), t, [])
    else
      var accepted := UpdateAccepted(v);
      if accepted.Failure? then Effect(Failure(accepted.error), t, [])
      else if !accepted.value then Effect(Success(0), t, [])
      else if !v.name.Given? then Effect(Failure(NameRequired), t, [])
      else
        var stored := StoreUpdate(t, v, f);
        Effect(stored.result, stored.table, [addr])
  }

  /** update: routes the address, then updatePet. Rows the filter does not select are unchanged,
      and on an item address at most one row is counted. */
  function UpdateEffect(t: Table, addr: Addr, v: Values, selection: Filter): (e: Effect<nat>)
    requires TableValid(t)
    ensures TableValid(e.table) && e.table.sequence == t.sequence && e.table.rows.Keys == t.rows.Keys
    ensures addr.Unknown? ==> e == Effect(Failure(UnsupportedUri), t, [])
    ensures !addr.Unknown? ==> e == UpdatePetEffect(t, addr, v, Resolve(addr, selection).value)
    ensures !addr.Unknown? ==> forall k :: k in t.rows && k !in Matching(t.rows, Resolve(addr, selection).value) ==>
      e.table.rows[k] == t.rows[k]
    ensures addr.Item? && e.result.Success? ==> e.result.value <= 1
  {
    match Resolve(addr, selection)
    case None => Effect(Failure(UnsupportedUri), t, [])
    case Some(f) =>
      if addr.Item? then IdFilterAtMostOne(t.rows, addr.id); UpdatePetEffect(t, addr, v, f)
      else UpdatePetEffect(t, addr, v, f)
  }

  /** delete: removes the routed rows. A collection delete notifies the collection when it removed
      something; an item delete never notifies. */
  function DeleteEffect(t: Table, addr: Addr, selection: Filter): (e: Effect<nat>)
    requires TableValid(t)
    ensures TableValid(e.table) && e.table.sequence == t.sequence
    ensures e.result.Failure? <==> addr.Unknown?
    ensures e.result.Failure? ==> e == Effect(Failure(UnsupportedUri), t, [])
    ensures e.result.Success? ==>
      && e.result.value == |t.rows| - |e.table.rows|
      && e.table.rows.Keys == t.rows.Keys - Matching(t.rows, Resolve(addr, selection).value)
      && (forall k :: k in e.table.rows ==> e.table.rows[k] == t.rows[k])
      && e.notified == (if addr.Collection? && e.result.value != 0 then [Collection] else [])
    ensures addr.Item? ==> e.result.value <= 1 && e.notified == []
  {
    match addr
    case Collection =>
      var stored := StoreDelete(t, selection);
      Effect(Success(stored.result), stored.table, if stored.result != 0 then [Collection] else [])
    case Item(id) =>
      IdFilterAtMostOne(t.rows, id);
      var stored := StoreDelete(t, IdEquals(id));
      Effect(Success(stored.result), stored.table, [])
    case Unknown => Effect(Failure(UnsupportedUri), t, [])
  }

  /** The provider object: the database it opened and the change notifications it posted. */
  class Provider {
    const db: Database
    var notifications: seq<Addr>

    ghost predicate Valid()
      reads this, db
    {
      db.Valid() && db.hasTable
    }

    /** onCreate, followed by the helper's first open of a new database, which runs its onCreate. */
    constructor ()
      ensures Valid() && fresh(db)
      ensures db.Contents() == EmptyTable && notifications == []
    {
      var fileDb := new Database();
      var created := PetDbHelper.OnCreate(fileDb);
      db := fileDb;
      notifications := [];
    }

    method Query(addr: Addr, selection: Filter) returns (r: Result<map<int, Pet>, Error>)
      requires Valid()
      ensures r == QueryResult(db.Contents(), addr, selection)
    {
      match addr
      case Collection =>
        r := Success(StoreQuery(db.Contents(), selection));
      case Item(id) =>
        r := Success(StoreQuery(db.Contents(), IdEquals(id)));
      case Unknown =>
        r := Failure(UnsupportedUri);
    }

    method Insert(addr: Addr, v: Values) returns (r: Result<Option<Addr>, Error>)
      requires Valid()
      modifies this, db
      ensures Valid()
      ensures var e := InsertEffect(old(db.Contents()), addr, v);
        r == e.result && db.Contents() == e.table && notifications == old(notifications) + e.notified
    {
      match addr
      case Collection =>
        r := InsertPet(v);
      case _ =>
        r := Failure(UnsupportedUri);
    }

    method InsertPet(v: Values) returns (r: Result<Option<Addr>, Error>)
      requires Valid()
      modifies this, db
      ensures Valid()
      ensures var e := InsertPetEffect(old(db.Contents()), v);
        r == e.result && db.Contents() == e.table && notifications == old(notifications) + e.notified
    {
      var ok := CheckContentValues(v);
      if ok.Failure? {
        return Failure(ok.error);
      }
      if !ok.value {
        return Success(None);
      }
      var id := db.Insert(v);
      if id == -1 {
        return Success(None);
      }
      notifications := notifications + [Collection];
      r := Success(Some(Item(id)));
    }

    method Update(addr: Addr, v: Values, selection: Filter) returns (r: Result<nat, Error>)
      requires Valid()
      modifies this, db
      ensures Valid()
      ensures var e := UpdateEffect(old(db.Contents()), addr, v, selection);
        r == e.result && db.Contents() == e.table && notifications == old(notifications) + e.notified
    {
      match addr
      case Collection =>
        r := UpdatePet(addr, v, selection);
      case Item(id) =>
        r := UpdatePet(addr, v, IdEquals(id));
      case Unknown =>
        r := Failure(UnsupportedUri);
    }

    method UpdatePet(addr: Addr, v: Values, f: Filter) returns (r: Result<nat, Error>)
      requires Valid()
      modifies this, db
      ensures Valid()
      ensures var e := UpdatePetEffect(old(db.Contents()), addr, v, f);
        r == e.result && db.Contents() == e.table && notifications == old(notifications) + e.notified
    {
      if Size(v) == 0 {
        return Success(0);
      }
      var accepted := UpdateAccepted(v);
      if accepted.Failure? {
        return Failure(accepted.error);
      }
      if accepted.value {
        if !v.name.Given? {
          return Failure(NameRequired);
        }
        notifications := notifications + [addr];
        r := db.Update(v, f);
        return;
      }
      r := Success(0);
    }

    method Delete(addr: Addr, selection: Filter) returns (r: Result<nat, Error>)
      requires Valid()
      modifies this, db
      ensures Valid()
      ensures var e := DeleteEffect(old(db.Contents()), addr, selection);
        r == e.result && db.Contents() == e.table && notifications == old(notifications) + e.notified
    {
      match addr
      case Collection =>
        var rowsDeleted := db.Delete(selection);
        if rowsDeleted != 0 {
          notifications := notifications + [Collection];
        }
        r := Success(rowsDeleted);
      case Item(id) =>
        var rowsDeleted := db.Delete(IdEquals(id));
        r := Success(rowsDeleted);
      case Unknown =>
        r := Failure(UnsupportedUri);
    }
  }
}
