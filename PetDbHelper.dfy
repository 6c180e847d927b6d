/** The open helper's two lifecycle callbacks; each acts only by executing SQL on the database. */
module PetDbHelper {
  import opened Wrappers
  import opened Errors
  import opened PetSchema
  import opened RecordStore

  /** onCreate: runs SQL_CREATE_ENTRIES. The open helper calls it on a database without the table;
      on one that has it, CREATE TABLE fails and nothing changes. */
  method OnCreate(db: Database) returns (r: Result<(), Error>)
    requires db.Valid()
    modifies db
    ensures db.Valid() && db.hasTable
    ensures old(db.hasTable) ==> r == Failure(TableAlreadyExists) && db.Contents() == old(db.Contents())
    ensures !old(db.hasTable) ==> r == Success(())
    ensures !old(db.hasTable) ==> db.Contents() == EmptyTable
    ensures !old(db.hasTable) ==> ColumnNames(db.columns) == ["_id", "name", "breed", "gender", "weight"]
  {
    r := db.ExecCreateEntries();
  }

  /** onUpgrade: drops the table and creates it again, whatever the two versions are. */
  method OnUpgrade(db: Database, olderVersion: int, newerVersion: int)
    requires db.Valid()
    modifies db
    ensures db.Valid() && db.hasTable
    ensures db.rows == map[] && db.sequence == 0
    ensures db.columns == PetsColumns
  {
    db.ExecDeleteEntries();
    var created := OnCreate(db);
  }
}
