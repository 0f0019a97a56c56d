/** Shared vocabulary of the inventory API: optional values, results, the
    errors a route answers with and the HTTP status each maps to. */
module Common {

  datatype Option<+T> = None | Some(value: T) {
    function GetOr(default: T): T
    {
      match this
      case Some(v) => v
      case None => default
    }
  }

  datatype Result<+R, +E> = Success(value: R) | Failure(error: E)

  /** Money is kept exact, as an integer number of minor units (cents). */
  type Money = int

  /** What a schema check complains about, addressed by the field it concerns. */
  datatype IssueCode = InvalidType | InvalidEnum | TooSmall | InvalidDate | InvalidString | Custom
  datatype Issue = Issue(path: string, code: IssueCode)

  /** The error responses of the routes. `StorageError` stands for a write the
      database refuses (a foreign key that points nowhere). */
  datatype ApiError =
    | ValidationFailed(issues: seq<Issue>)
    | NotFound
    | InsufficientStock
    | DuplicateName
    | StorageError

  function Status(e: ApiError): (code: int)
    ensures code in {400, 404, 409, 500}
    ensures code == 404 <==> e.NotFound?
    ensures code == 409 <==> e.DuplicateName?
    ensures code == 400 <==> e.ValidationFailed? || e.InsufficientStock?
    ensures code == 500 <==> e.StorageError?
  {
    match e
    case ValidationFailed(_) => 400
    case NotFound => 404
    case InsufficientStock => 400
    case DuplicateName => 409
    case StorageError => 500
  }
}
