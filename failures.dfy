/** The exceptions the flattener lets escape to its caller, by kind. */
module Failures {

  datatype Error =
    | NullReference(field: string)    // a missing property (C# null) was dereferenced
    | InvalidTimestamp                // SourceTimestamp is missing or not a date
    | KeyNotFound(key: string)        // the override table was indexed with an unknown node id
    | DuplicateProperty(name: string) // JObject.Add of a name the object already has
    | DuplicateKey(key: string)       // Dictionary.Add of a node id the table already has
}
