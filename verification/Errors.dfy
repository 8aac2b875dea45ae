/** How an upstream failure is told to the caller. */
module Errors {
  import opened Wrappers

  /** The upstream error types with a code of their own. */
  datatype UpstreamType =
    | SquidNotReady | SquidDoesNotExist | HTTPNotFound | InvalidGrant | NotEnoughCredits
    | SlotsLimitExceeded | SquidsLimitExceeded | OtherType

  /** What the environment does with one request: answers it, rejects it, never gets it, or loses the
      answer after the request was applied or before. */
  datatype Fault =
    | Answered
    | Rejected(status: int, kind: UpstreamType)
    | NotSent
    | LostApplied
    | LostDropped

  /** What the client sees of that: it cannot tell the two lost cases apart. */
  datatype Outcome = Ok | ApiError(status: int, kind: UpstreamType) | NoAnswer(sent: bool)

  function Seen(f: Fault): Outcome {
    match f
    case Answered => Ok
    case Rejected(status, kind) => ApiError(status, kind)
    case NotSent => NoAnswer(false)
    case LostApplied => NoAnswer(true)
    case LostDropped => NoAnswer(true)
  }

  /** Whether the request took effect upstream. */
  predicate Applied(f: Fault) {
    f.Answered? || f.LostApplied?
  }

  datatype ErrorCode =
    | ScraperNotReady | ScraperNotFound | NotFound | Unauthorized | InsufficientCredits
    | SlotsLimit | SquidsLimit | UpstreamRejected | Forbidden | Conflict | ValidationRefused
    | RateLimited | UpstreamUnavailable | UpstreamError

  /** `to_error_dict`: by type first, then by status. */
  function CodeOf(status: int, kind: UpstreamType): ErrorCode {
    match kind
    case SquidNotReady => ScraperNotReady
    case SquidDoesNotExist => ScraperNotFound
    case HTTPNotFound => NotFound
    case InvalidGrant => Unauthorized
    case NotEnoughCredits => InsufficientCredits
    case SlotsLimitExceeded => SlotsLimit
    case SquidsLimitExceeded => SquidsLimit
    case OtherType =>
      if status == 400 then UpstreamRejected
      else if status == 401 then Unauthorized
      else if status == 403 then Forbidden
      else if status == 404 then NotFound
      else if status == 409 then Conflict
      else if status == 422 then ValidationRefused
      else if status == 429 then RateLimited
      else if status >= 500 then UpstreamUnavailable
      else UpstreamError
  }

  datatype RequestState = StateNotSent | StateUnknown

  /** The structured part of an error: its code, and for an unanswered request what is known of it. */
  datatype ErrorInfo = ErrorInfo(code: ErrorCode, state: Option<RequestState>, retrySafe: Option<bool>)

  /** `to_error_dict` and `transport_error_dict`; `writes` is whether a state-checking tool is named. */
  function Describe(o: Outcome, writes: bool): ErrorInfo
    requires !o.Ok?
  {
    match o
    case ApiError(status, kind) => ErrorInfo(CodeOf(status, kind), None, None)
    case NoAnswer(sent) =>
      ErrorInfo(UpstreamUnavailable, Some(if sent then StateUnknown else StateNotSent), Some(!sent || !writes))
  }

  /** The envelope of a write errs on one side only: whatever took effect without an answer is reported
      as unknown, and the writes called safe to retry are those that were never sent. */
  lemma UnknownCoversEveryLostWrite(f: Fault)
    requires !Seen(f).Ok?
    ensures var e := Describe(Seen(f), true);
      && (Applied(f) ==> e.state == Some(StateUnknown))
      && (e.retrySafe == Some(true) ==> !Applied(f))
      && (e.retrySafe == Some(true) <==> f.NotSent?) && (e.retrySafe.None? <==> f.Rejected?)
      && (e.state == Some(StateNotSent) <==> f.NotSent?)
      && (e.state.None? <==> f.Rejected?)
  {
  }

  /** A code can be read back: it names the type of the error if that has a code of its own, and else the
      status it came with. */
  lemma CodeMeans(status: int, kind: UpstreamType)
    ensures match CodeOf(status, kind)
            case ScraperNotReady => kind == SquidNotReady
            case ScraperNotFound => kind == SquidDoesNotExist
            case NotFound => kind == HTTPNotFound || (kind == OtherType && status == 404)
            case Unauthorized => kind == UpstreamType.InvalidGrant || (kind == OtherType && status == 401)
            case InsufficientCredits => kind == NotEnoughCredits
            case SlotsLimit => kind == SlotsLimitExceeded
            case SquidsLimit => kind == SquidsLimitExceeded
            case UpstreamRejected => kind == OtherType && status == 400
            case Forbidden => kind == OtherType && status == 403
            case Conflict => kind == OtherType && status == 409
            case ValidationRefused => kind == OtherType && status == 422
            case RateLimited => kind == OtherType && status == 429
            case UpstreamUnavailable => kind == OtherType && status >= 500
            case UpstreamError => kind == OtherType && status < 500 && status !in {400, 401, 403, 404, 409, 422, 429}
  {
  }
}
