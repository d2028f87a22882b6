/** Outcomes shared by every workflow of the job board: an optional value and
    the result of a request, which either succeeds with a value or fails with
    an error kind, the key the error is reported under and its message. */
module Outcomes {

  datatype Option<+T> = None | Some(value: T)

  /** The error classes a request can end in, with the HTTP status each is
      reported with. */
  datatype ErrorKind =
    | ValidationError   // 400, raised by a serializer
    | PermissionDenied  // 403
    | BadRequest        // 400, returned explicitly by a view
    | ServerError       // 500, an exception from the store or file storage

  /** `field` is the key of the error payload (`company_title`, `job`, `error`),
      `None` for an error raised with a bare message. */
  datatype Result<+T> =
    | Ok(value: T)
    | Err(kind: ErrorKind, field: Option<string>, message: string)

  /** Python truthiness of an optional string attribute: present and not empty. */
  predicate Given(s: Option<string>) {
    s.Some? && s.value != ""
  }
}
