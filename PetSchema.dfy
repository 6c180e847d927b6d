/** The pets table as SQL_CREATE_ENTRIES declares it. */
module PetSchema {
  import opened Wrappers
  import opened PetContract

  const DatabaseName: string := "pets.db"
  const DatabaseVersion: int := 4

  datatype Affinity = IntegerAffinity | TextAffinity

  /** The column constraints the schema uses. */
  datatype Constraint =
    | AutoincrementKey              // INTEGER PRIMARY KEY AUTOINCREMENT
    | NotNull                       // NOT NULL, no default
    | NotNullDefault(value: int)    // NOT NULL DEFAULT value

  datatype Column = Column(name: string, affinity: Affinity, constraint: Constraint)

  const IdColumn: Column := Column(ColumnId, IntegerAffinity, AutoincrementKey)
  const NameColumn: Column := Column(ColumnName, TextAffinity, NotNull)
  const BreedColumn: Column := Column(ColumnBreed, TextAffinity, NotNull)
  const GenderColumn: Column := Column(ColumnGender, IntegerAffinity, NotNullDefault(0))
  const WeightColumn: Column := Column(ColumnWeight, IntegerAffinity, NotNullDefault(0))

  /** SQL_CREATE_ENTRIES, column by column. */
  const PetsColumns: seq<Column> := [IdColumn, NameColumn, BreedColumn, GenderColumn, WeightColumn]

  /** The value an insert that omits column c stores in it; None when the column has no default. */
  function DefaultOf(c: Column): Option<int>
  {
    match c.constraint
    case NotNullDefault(d) => Some(d)
    case _ => None
  }

  function ColumnNames(cs: seq<Column>): seq<string>
  {
    seq(|cs|, i requires 0 <= i < |cs| => cs[i].name)
  }
}
