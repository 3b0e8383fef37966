/** Shared vocabulary of the CrisisAid backend: optional values, results, primary keys,
    timestamps, the request methods, and the outcomes a request can end in. */
module Common {

  datatype Option<+T> = None | Some(value: T)

  datatype Result<+T, +E> = Ok(value: T) | Err(error: E)

  /** Primary keys of every table. */
  type Id = nat

  /** Timestamps (created_at, applied_at, donated_at, updated_at) as abstract ordered values. */
  type Time = int

  /** Money in integer cents: a DecimalField with two decimal places is exactly representable. */
  type Cents = int

  datatype Method = GET | HEAD | OPTIONS | POST | PUT | PATCH | DELETE

  /** The framework's SAFE_METHODS: the methods that only read. */
  predicate IsSafe(m: Method)
  {
    m == GET || m == HEAD || m == OPTIONS
  }

  /** One field-level validation message, as a serializer reports it. */
  datatype FieldError = FieldError(field: string, message: string)

  /** How a request fails. */
  datatype Error =
    | NotAuthenticated                          // permission refused to a request without credentials
    | PermissionDenied                          // permission refused to an authenticated user
    | NotFound                                  // the object named in the URL does not exist
    | ValidationFailed(errors: seq<FieldError>) // the serializer rejected the payload
    | BadRequest(message: string)               // a view answered 400 itself
    | IntegrityError(constraint: string)        // the database refused the insert

  /** The result of a request that produces no value. */
  datatype Outcome = Pass | Fail(error: Error)
}
