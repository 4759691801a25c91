/** Optional values, used for request-body fields that may be absent and for
    record lookups that may find nothing. */
module Wrappers {

  datatype Option<+T> = None | Some(value: T)

  /** JavaScript truthiness of an optional string field of a request body:
      the field is present and is not the empty string. */
  predicate Truthy(field: Option<string>) {
    field.Some? && |field.value| > 0
  }
}
