/** The exceptions the SQL builder can throw, as values. */
module Exceptions {
  datatype Exception =
    | KeyNotFound          // a catalog dictionary has no entry for the key
    | NullReference        // no current search parameter where one is read
    | InvalidCast          // a resource-type comparison whose value is not a string
    | InvalidOperation     // an unsupported (type, field) pair or comparison operator
    | NotSupported         // the table of a composite parameter
    | ArgumentOutOfRange   // an undefined search-parameter type or boolean operator
    | IndexOutOfRange      // reading the last character of an empty buffer
}
