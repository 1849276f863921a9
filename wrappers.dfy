/** Optional values and fallible results shared by every module of the model. */
module Wrappers {

  datatype Option<T> = None | Some(value: T)
  {
    predicate IsSome() { Some? }

    function GetOr(default: T): T
    {
      match this
      case Some(v) => v
      case None => default
    }
  }

  /** Why an operation of the ingestion core throws (or rejects its promise). */
  datatype Error =
    | SchemaViolation(what: string)   // a zod schema refused a value
    | NotFound(what: string)          // a lookup found nothing to return
    | FetchFailure                    // the network / remote page failed
    | StorageFailure                  // a SQLite statement failed
    | NotMappable(sqlType: string)    // gen-db-types: unknown column type
    | UnsupportedProvider             // a legacy mapper got a foreign row
    | UnsupportedType                 // a legacy mapper got an unknown release type
    | TypeError(what: string)         // a property read on `null`
    | MissingCapability(what: string) // a provider lacks a mapper the job calls

  datatype Result<T> = Ok(value: T) | Err(error: Error)
  {
    predicate IsOk() { Ok? }
  }
}
