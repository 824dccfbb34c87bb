/**
 * The failure cases of the session and its helpers. Every Java exception that the core
 * throws becomes one `Error` value; a call that can throw returns an `Outcome` or a `Result`.
 */
module Errors {

  datatype Error =
    | SessionClosed     // OrmException "Session is closed"
    | NullArgument      // NullPointerException from requireNonNull in checkSession
    | NotPersisted      // OrmException "Entity not persist."
    | IdNotFound        // AnnotationException: no field carries @Id
    | IdNotUnique       // AnnotationException: more than one field carries @Id
    | ConstructorCount  // IllegalArgumentException: the type does not have exactly one constructor
    | NullColumnValue   // NullPointerException from Collectors.toMap on a null field value
    | DuplicateColumn   // IllegalStateException from Collectors.toMap on a repeated column name
    | EmptyColumnList   // StringIndexOutOfBoundsException from deleteCharAt(-1)
    | StorageFault      // SqlException raised by the storage gateway
    | NumberFormat      // NumberFormatException from Short/Integer/Long.valueOf in setFieldValue
    | FieldTypeMismatch // IllegalArgumentException from Field.set with a value of another type

  datatype Option<+T> = None | Some(value: T)

  datatype Result<+T> = Ok(value: T) | Err(error: Error)

  datatype Outcome = Pass | Fail(error: Error)
}
