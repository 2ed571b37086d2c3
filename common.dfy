/** Values shared by every part of the model: ids, optional values, results and the errors
    the services raise. */
module Common {

  /** Document ids. MongoDB ObjectIds grow with creation time, so the model allocates them from
      one counter and uses their order as both natural order and creation order. */
  type Id = nat

  datatype Option<+T> = None | Some(value: T)

  /** What a service throws. The HTTP status of a `Thrown` or a store error is chosen by the
      application's error handler, which is not part of this model. */
  datatype Error =
    | HttpError(status: int, message: string)   // an HttpError raised by a service
    | Thrown(message: string)                   // a plain Error (model hooks, runtime TypeErrors)
    | ValidationFailed(path: string)            // a Mongoose schema validator refused a field
    | DuplicateKey(path: string)                // a MongoDB unique index refused a write

  datatype Result<+T> = Ok(value: T) | Err(error: Error)

  /** A stored document: its id and its record. */
  datatype Doc<+T> = Doc(id: Id, record: T)

  /** JavaScript truthiness of an optional string field: present and not empty. */
  predicate Truthy(o: Option<string>) {
    o.Some? && o.value != ""
  }

  function Min(a: int, b: int): int { if a <= b then a else b }
}
