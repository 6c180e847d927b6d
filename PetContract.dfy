/** The contract constants shared by the provider and its callers. */
module PetContract {

  const ContentAuthority: string := "com.example.android.pets"

  /** The two paths the URI matcher knows. */
  const PathPets: string := "pets"
  const PathPetsId: string := "pets/#"

  const TableName: string := "pets"

  const ColumnId: string := "_id"
  const ColumnName: string := "name"
  const ColumnBreed: string := "breed"
  const ColumnGender: string := "gender"
  const ColumnWeight: string := "weight"

  const GenderUnknown: int := 0
  const GenderMale: int := 1
  const GenderFemale: int := 2

  /** An address after the URI matcher has classified it: the collection path "pets", an item path
      "pets/#" with its parsed id, or anything else (no match). */
  datatype Addr = Collection | Item(id: nat) | Unknown

  /** The two MIME types getType reports: a list of pets, a single pet. */
  datatype MimeType = ListType | ItemType
}
