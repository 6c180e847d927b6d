/** The exceptions the data-access layer can raise, one constructor per cause. */
module Errors {

  datatype Error =
    /** IllegalArgumentException: query, insert, update or delete on an address the matcher does not know
        (and insert on an item address). */
    | UnsupportedUri
    /** IllegalStateException from getType on an unknown address. */
    | UnknownUriType
    /** IllegalArgumentException "Pet requires valid gender" on insert. */
    | GenderRequired
    /** IllegalArgumentException "Pet requires a name" on update. */
    | NameRequired
    /** NullPointerException: unboxing a null weight, or calling isEmpty on a null name. */
    | NullDereference
    /** SQLiteConstraintException: an UPDATE writes NULL into a NOT NULL column. */
    | ConstraintViolation
    /** SQLiteException: CREATE TABLE on a table that already exists. */
    | TableAlreadyExists
}
