/** The error values of the client (`VaultError`) and the two questions asked about them. */
module VaultErrors {
  import opened Common

  newtype u16 = x: int | 0 <= x <= 0xFFFF

  /** The `reqwest` errors as the client distinguishes them. */
  datatype HttpCause = Timeout | Connect | OtherHttp

  datatype VaultError =
    | Http(cause: HttpCause)
    | Api(status: u16, errors: seq<string>)
    | Sealed(url: string)
    | PermissionDenied(errors: seq<string>)
    | NotFound(path: Bytes)
    | RateLimited(retryAfter: Option<u64>)
    | ConsistencyRetry
    | EmptyResponse
    | AuthRequired
    | Config(message: string)
    | Deserialize(message: string)
    | UrlParse(message: string)
    | LockPoisoned
    | CircuitOpen
    | FieldNotFound(mount: Bytes, path: Bytes, field: string)

  /** `is_retryable`. */
  predicate IsRetryable(e: VaultError) {
    match e
    case Http(cause) => cause.Timeout? || cause.Connect?
    case Sealed(_) => true
    case RateLimited(_) => true
    case ConsistencyRetry => true
    case Api(status, _) => status in {500, 502, 503, 504}
    case _ => false
  }

  /** `status_code`. */
  function StatusCode(e: VaultError): Option<u16> {
    match e
    case Api(status, _) => Some(status)
    case AuthRequired => Some(401)
    case PermissionDenied(_) => Some(403)
    case NotFound(_) => Some(404)
    case RateLimited(_) => Some(429)
    case ConsistencyRetry => Some(412)
    case Sealed(_) => Some(503)
    case _ => None
  }

  /** Whether an error with a status is retried depends on that status, and `Api` errors have four that are. */
  lemma RetryableByStatus(e: VaultError)
    requires StatusCode(e).Some?
    ensures IsRetryable(e) <==>
              StatusCode(e).value in if e.Api? then {500, 502, 503, 504} else {412, 429, 503}
    ensures e.NotFound? ==> StatusCode(e) == Some(404)
    ensures e.AuthRequired? ==> StatusCode(e) == Some(401)
    ensures e.PermissionDenied? ==> StatusCode(e) == Some(403)
  {
  }
}
