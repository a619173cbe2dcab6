/** Failure categories and the decisions that rest on them (internal/reliability/failure.go). */
module Failure {
  import opened Wrappers

  datatype Category =
    | LocalValidation
    | KeyUnauthorized
    | KeyForbidden
    | UpstreamRateLimit
    | Upstream4xx
    | ModelUnavailable
    | Upstream5xx
    | UpstreamProtocol
    | UnsupportedCapability
    | UnsupportedResponse
    | Network
    | Timeout
    | KeyExhausted
    | Queue
    | Breaker
    | Canceled

  datatype TimeoutScope = NoTimeout | UpstreamTimeout | RequestBudget

  /** `tooLarge` says that the cause wraps the response-too-large error. */
  datatype Failure = Failure(
    category: Category,
    statusCode: int,
    timeout: TimeoutScope,
    retryAfter: int,
    retryAfterSet: bool,
    tooLarge: bool)

  function Plain(category: Category): Failure {
    Failure(category, 0, NoTimeout, 0, false, false)
  }

  datatype Signals = Signals(retry: bool, switchKey: bool, fallback: bool, countBreaker: bool)

  const SILENT := Signals(false, false, false, false)

  predicate BreakerStatus(statusCode: int) {
    statusCode in {500, 502, 503, 504}
  }

  function SignalsFor(failure: Option<Failure>): Signals {
    match failure
    case None => SILENT
    case Some(f) =>
      match f.category
      case KeyUnauthorized | KeyForbidden => Signals(false, true, true, false)
      case UpstreamRateLimit => Signals(true, true, true, false)
      case Upstream5xx => if BreakerStatus(f.statusCode) then Signals(true, false, true, true) else SILENT
      case Network => Signals(true, false, true, true)
      case Timeout => if f.timeout == UpstreamTimeout then Signals(true, false, true, true) else SILENT
      case UpstreamProtocol => Signals(false, false, true, !f.tooLarge)
      case UnsupportedCapability | UnsupportedResponse | ModelUnavailable | Queue | Breaker =>
        Signals(false, false, true, false)
      case KeyExhausted => Signals(f.retryAfter > 0, false, true, false)
      case _ => SILENT
  }

  predicate Counts(failure: Option<Failure>) {
    SignalsFor(failure).countBreaker
  }

  predicate Retries(failure: Option<Failure>) {
    SignalsFor(failure).retry || SignalsFor(failure).switchKey
  }

  /** The four signals, one by one, for any failure however it came about. */
  lemma SignalsExactly(failure: Failure)
    ensures var signals := SignalsFor(Some(failure));
            var upstream :=
              || failure.category == Network
              || (failure.category == Timeout && failure.timeout == UpstreamTimeout)
              || (failure.category == Upstream5xx && failure.statusCode in {500, 502, 503, 504});
            && (signals.switchKey <==> failure.category in {KeyUnauthorized, KeyForbidden, UpstreamRateLimit})
            && (signals.retry <==>
                  upstream || failure.category == UpstreamRateLimit ||
                  (failure.category == KeyExhausted && failure.retryAfter > 0))
            && (signals.countBreaker <==> upstream || (failure.category == UpstreamProtocol && !failure.tooLarge))
            && (signals.fallback <==>
                  upstream || failure.category in
                    {KeyUnauthorized, KeyForbidden, UpstreamRateLimit, UpstreamProtocol, UnsupportedCapability,
                     UnsupportedResponse, ModelUnavailable, Queue, Breaker, KeyExhausted})
  {
  }

  /** What an adapter call returned, each error wrapping one cause. */
  datatype ProviderError =
    | CanceledError
    | DeadlineError
    | Existing(failure: Failure)
    | UnsupportedCapabilityError
    | UnsupportedResponseError
    | InvalidRequestError
    | InvalidResponseError
    | InvalidStreamError
    | ResponseTooLargeError
    | HttpError(statusCode: int, modelUnavailable: bool, retryAfter: Option<int>)
    | OtherError

  datatype ContextState = Active | ContextCanceled | ContextDeadline

  const DEFAULT_COOLDOWN := 30_000_000_000
  const MAXIMUM_RETRY_AFTER := 86_400_000_000_000

  function FromHttp(statusCode: int, modelUnavailable: bool, retryAfter: Option<int>): Failure {
    var failure := Plain(UpstreamProtocol).(statusCode := statusCode);
    if statusCode == 401 then failure.(category := KeyUnauthorized)
    else if statusCode == 403 then failure.(category := KeyForbidden)
    else if statusCode == 429 then
      failure.(category := UpstreamRateLimit,
               retryAfter := if retryAfter.Some? then retryAfter.value else DEFAULT_COOLDOWN,
               retryAfterSet := true)
    else if statusCode in {400, 404, 422} && modelUnavailable then failure.(category := ModelUnavailable)
    else if 400 <= statusCode < 500 then failure.(category := Upstream4xx)
    else if statusCode >= 500 then failure.(category := Upstream5xx)
    else failure
  }

  function FromProvider(context: ContextState, error: Option<ProviderError>): Option<Failure> {
    match error
    case None => None
    case Some(e) =>
      if context.ContextCanceled? || e.CanceledError? then Some(Plain(Canceled))
      else if context.ContextDeadline? then Some(Plain(Timeout).(timeout := RequestBudget))
      else
        match e
        case DeadlineError => Some(Plain(Timeout).(timeout := UpstreamTimeout))
        case Existing(failure) => Some(failure)
        case UnsupportedCapabilityError => Some(Plain(UnsupportedCapability))
        case UnsupportedResponseError => Some(Plain(UnsupportedResponse))
        case InvalidRequestError => Some(Plain(LocalValidation))
        case InvalidResponseError | InvalidStreamError => Some(Plain(UpstreamProtocol))
        case ResponseTooLargeError => Some(Plain(UpstreamProtocol).(tooLarge := true))
        case HttpError(statusCode, modelUnavailable, retryAfter) =>
          Some(FromHttp(statusCode, modelUnavailable, retryAfter))
        case _ => Some(Plain(Network))
  }

  /** Whether the adapter got as far as the upstream. */
  predicate ReachedUpstream(error: Option<ProviderError>) {
    error != Some(InvalidRequestError) && error != Some(UnsupportedCapabilityError)
  }

  /** An error raised before the upstream was reached asks for no retry and no other key. */
  lemma LocalErrorsAreFinal(context: ContextState, error: ProviderError)
    requires !ReachedUpstream(Some(error))
    ensures var signals := SignalsFor(FromProvider(context, Some(error)));
            !signals.retry && !signals.switchKey && !signals.countBreaker
  {
  }

  /** What the breaker counts: the upstream was silent, broken or failing; never the caller or the key. */
  lemma CountedErrors(context: ContextState, error: ProviderError)
    ensures Counts(FromProvider(context, Some(error))) <==>
            context.Active? &&
            ((error.Existing? && Counts(Some(error.failure))) ||
             error in {DeadlineError, InvalidResponseError, InvalidStreamError, OtherError} ||
             (error.HttpError? && (error.statusCode in {500, 502, 503, 504} || error.statusCode < 400)))
  {
  }

  /** Another attempt at the same provider is asked for exactly on silence and on these statuses. */
  lemma RetriedErrors(context: ContextState, error: ProviderError)
    ensures Retries(FromProvider(context, Some(error))) <==>
            context.Active? &&
            ((error.Existing? && Retries(Some(error.failure))) ||
             error in {DeadlineError, OtherError} ||
             (error.HttpError? && error.statusCode in {401, 403, 429, 500, 502, 503, 504}))
  {
  }

  /** Another provider is tried unless the caller is gone or the request itself is at fault. */
  lemma FallbackErrors(context: ContextState, error: ProviderError)
    ensures SignalsFor(FromProvider(context, Some(error))).fallback <==>
            context.Active? && error !in {CanceledError, InvalidRequestError} &&
            (error.Existing? ==> SignalsFor(Some(error.failure)).fallback) &&
            (error.HttpError? ==>
               || error.statusCode < 400
               || error.statusCode in {401, 403, 429, 500, 502, 503, 504}
               || (error.modelUnavailable && error.statusCode in {400, 404, 422}))
  {
  }

  /** The category an HTTP status stands for, in a live context. */
  lemma HttpCategories(statusCode: int, modelUnavailable: bool, retryAfter: Option<int>)
    ensures var failure := FromProvider(Active, Some(HttpError(statusCode, modelUnavailable, retryAfter)));
            && failure.Some? && failure.value.statusCode == statusCode
            && (failure.value.category == KeyUnauthorized <==> statusCode == 401)
            && (failure.value.category == KeyForbidden <==> statusCode == 403)
            && (failure.value.category == UpstreamRateLimit <==> statusCode == 429)
            && (failure.value.category == ModelUnavailable <==> modelUnavailable && statusCode in {400, 404, 422})
            && (failure.value.category == Upstream4xx <==>
                  400 <= statusCode < 500 && statusCode !in {401, 403, 429} &&
                  !(modelUnavailable && statusCode in {400, 404, 422}))
            && (failure.value.category == Upstream5xx <==> statusCode >= 500)
            && (failure.value.category == UpstreamProtocol <==> statusCode < 400)
            && (failure.value.retryAfterSet <==> statusCode == 429)
            && (statusCode == 429 ==>
                  failure.value.retryAfter == if retryAfter.Some? then retryAfter.value else 30 * 1_000_000_000)
  {
  }

  /** The category of every other error: the context comes first, then what the error wraps. */
  lemma OtherCategories(context: ContextState, error: ProviderError)
    requires !error.HttpError?
    ensures var failure := FromProvider(context, Some(error));
            && failure.Some?
            && (context.ContextCanceled? || error.CanceledError? ==> failure.value.category == Canceled)
            && (context.ContextDeadline? && !error.CanceledError? ==>
                  failure.value.category == Timeout && failure.value.timeout == RequestBudget)
            && (context.Active? ==>
                  match error
                  case CanceledError => true
                  case DeadlineError => failure.value.category == Timeout && failure.value.timeout == UpstreamTimeout
                  case Existing(inner) => failure.value == inner
                  case UnsupportedCapabilityError => failure.value.category == UnsupportedCapability
                  case UnsupportedResponseError => failure.value.category == UnsupportedResponse
                  case InvalidRequestError => failure.value.category == LocalValidation
                  case InvalidResponseError => failure.value.category == UpstreamProtocol && !failure.value.tooLarge
                  case InvalidStreamError => failure.value.category == UpstreamProtocol && !failure.value.tooLarge
                  case ResponseTooLargeError => failure.value.category == UpstreamProtocol && failure.value.tooLarge
                  case _ => failure.value.category == Network)
  {
  }

  /** A second attempt with another key is asked for exactly on 401, 403 and 429. */
  lemma KeySwitchingErrors(context: ContextState, error: ProviderError)
    ensures SignalsFor(FromProvider(context, Some(error))).switchKey <==>
            context.Active? &&
            ((error.Existing? && error.failure.category in {KeyUnauthorized, KeyForbidden, UpstreamRateLimit}) ||
             (error.HttpError? && error.statusCode in {401, 403, 429}))
  {
  }
}
