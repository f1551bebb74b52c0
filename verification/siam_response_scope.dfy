/**
 * SiamResponseScope: maps a promise of a SIAM response, observing upstream
 * errors and failed responses, and retries on failed responses.
 */
module SiamResponseScope {
  import opened Wrappers
  import opened Throwables
  import opened Telemetry
  import C = ObservabilityCompanion
  import opened ObservabilityScope
  import R = RatpackScope

  /** The fields of a SIAM client response that the mapping reads, plus its body. */
  datatype SiamResponse<T> = SiamResponse(status: int, isFailed: bool, error: Throwable, body: Option<T>)

  /** `logMap + ("request" to request.toString())` */
  function WithRequest(logMap: LogMap, requestText: string): (m: LogMap)
    ensures m.Keys == logMap.Keys + {"request"}
    ensures m["request"] == Text(requestText)
    ensures forall k :: k in logMap && k != "request" ==> m[k] == logMap[k]
  {
    logMap["request" := Text(requestText)]
  }

  /** `logMap + ("status" to response.status)` */
  function WithStatus(logMap: LogMap, status: int): (m: LogMap)
    ensures m.Keys == logMap.Keys + {"status"}
    ensures m["status"] == Number(status)
    ensures forall k :: k in logMap && k != "status" ==> m[k] == logMap[k]
  {
    logMap["status" := Number(status)]
  }

  /** `"$failureLogKey-ignored"` */
  function Ignored(failureLogKey: string): (k: string)
    ensures |k| == |failureLogKey| + 8
    ensures k[..|failureLogKey|] == failureLogKey
    ensures k != failureLogKey
  {
    failureLogKey + "-ignored"
  }

  /**
   * `observeNonException`, applied when upstream delivered `response`: a
   * failed response is logged at ERROR with its status and either thrown
   * (`throwOnFailure`) or let through under the `-ignored` key, marking the
   * failure meter either way; a response that did not fail only marks the
   * success meter.
   */
  function ObserveNonException<T>(o: Observer, response: SiamResponse<T>, logMap: LogMap, failureLogKey: string,
                                  throwOnFailure: bool := true): (r: C.Observed<SiamResponse<T>>)
    ensures !response.isFailed ==>
      r.outcome == Success(response) && LogCount(r.events) == 0
      && forall m :: MarkCount(r.events, m) == if m == o.successMeter then 1 else 0
    ensures response.isFailed ==>
      && r.events == [Log(ERROR, if throwOnFailure then failureLogKey else Ignored(failureLogKey),
                          WithStatus(logMap, response.status), Some(response.error)),
                      Mark(o.failureMeter)]
      && r.outcome == if throwOnFailure then Failure(response.error) else Success(response)
  {
    var logMapWithStatus := WithStatus(logMap, response.status);
    if response.isFailed then
      if throwOnFailure then
        var thrown := ObserveAndThrowThrowable(o, response.error, logMapWithStatus, failureLogKey);
        C.Observed(thrown.events, Failure(thrown.error))
      else
        C.Observed(ObserveAtError(o, response.error, logMapWithStatus, Ignored(failureLogKey)), Success(response))
    else
      C.Observed(ObserveJustMarkSuccess(o), Success(response))
  }

  /** `next { ... }`: the stage runs only on a value; an upstream throwable passes by, adding no events. */
  function NextObserved<T>(first: C.Observed<SiamResponse<T>>, o: Observer, logMap: LogMap, failureLogKey: string,
                           throwOnFailure: bool): (r: C.Observed<SiamResponse<T>>)
    ensures first.outcome.Failure? ==> r == first
    ensures first.outcome.Success? ==>
      var second := ObserveNonException(o, first.outcome.value, logMap, failureLogKey, throwOnFailure);
      r.outcome == second.outcome && r.events == first.events + second.events
  {
    match first.outcome
    case Failure(_) => first
    case Success(response) =>
      var second := ObserveNonException(o, response, logMap, failureLogKey, throwOnFailure);
      C.Observed(first.events + second.events, second.outcome)
  }

  /**
   * `mapSiamResponse` with a dummy. An upstream error is either rethrown
   * after an ERROR line under the observer's own failure key, or replaced
   * by the dummy after an ERROR line under `"$failureLogKey-ignored"`; both
   * logs carry the request. Whatever value results then goes through
   * `observeNonException` with the same flag.
   */
  function MapSiamResponseWithDummy<T>(o: Observer, throwOnFailure: bool, incoming: Outcome<SiamResponse<T>>,
                                       dummyValue: SiamResponse<T>, logMap: LogMap := map[],
                                       requestText: string := "null",
                                       failureLogKey: string := o.failureLogKey): (r: C.Observed<SiamResponse<T>>)
    ensures incoming.Failure? && throwOnFailure ==>
      r == C.Observed([Log(ERROR, o.failureLogKey, WithRequest(logMap, requestText), Some(incoming.error)),
                       Mark(o.failureMeter)], Failure(incoming.error))
    ensures incoming.Failure? && !throwOnFailure ==>
      && |r.events| >= 2
      && r.events[..2] == [Log(ERROR, Ignored(failureLogKey), WithRequest(logMap, requestText), Some(incoming.error)),
                           Mark(o.failureMeter)]
      && r.events[2..] == ObserveNonException(o, dummyValue, logMap, failureLogKey, false).events
      && r.outcome == Success(dummyValue)
    ensures incoming.Success? ==> r == ObserveNonException(o, incoming.value, logMap, failureLogKey, throwOnFailure)
  {
    var mapped: C.Observed<SiamResponse<T>> := match incoming
      case Success(response) => C.Observed([], Success(response))
      case Failure(t) =>
        var errorLogMap := WithRequest(logMap, requestText);
        if throwOnFailure then
          (var thrown := ObserveAndThrowThrowable(o, t, errorLogMap);
           C.Observed(thrown.events, Failure(thrown.error)))
        else
          C.Observed(ObserveAtError(o, t, errorLogMap, Ignored(failureLogKey)), Success(dummyValue));
    NextObserved(mapped, o, logMap, failureLogKey, throwOnFailure)
  }

  /**
   * `mapSiamResponse` without a dummy: an upstream error is always rethrown
   * after an ERROR line under the `failureLogKey` argument; responses go
   * through `observeNonException` with its default flag, so failed ones
   * are always thrown.
   */
  function MapSiamResponse<T>(o: Observer, incoming: Outcome<SiamResponse<T>>, logMap: LogMap := map[],
                              requestText: string := "null",
                              failureLogKey: string := o.failureLogKey): (r: C.Observed<SiamResponse<T>>)
    ensures incoming.Failure? ==>
      r == C.Observed([Log(ERROR, failureLogKey, WithRequest(logMap, requestText), Some(incoming.error)),
                       Mark(o.failureMeter)], Failure(incoming.error))
    ensures incoming.Success? && incoming.value.isFailed ==> r.outcome == Failure(incoming.value.error)
    ensures incoming.Success? ==> r == ObserveNonException(o, incoming.value, logMap, failureLogKey)
  {
    var mapped: C.Observed<SiamResponse<T>> := match incoming
      case Success(response) => C.Observed([], Success(response))
      case Failure(t) =>
        var thrown := ObserveAndThrowThrowable(o, t, WithRequest(logMap, requestText), failureLogKey);
        C.Observed(thrown.events, Failure(thrown.error));
    NextObserved(mapped, o, logMap, failureLogKey, true)
  }

  /**
   * With the flag clear, a non-failed dummy also marks the success meter:
   * the failure meter and the success meter are each marked once.
   */
  lemma IgnoredErrorThenDummyMarksBoth<T>(o: Observer, incoming: Outcome<SiamResponse<T>>,
                                          dummyValue: SiamResponse<T>, logMap: LogMap, requestText: string,
                                          failureLogKey: string)
    requires incoming.Failure? && !dummyValue.isFailed
    requires o.successMeter != o.failureMeter
    ensures var r := MapSiamResponseWithDummy(o, false, incoming, dummyValue, logMap, requestText, failureLogKey);
      && r.outcome == Success(dummyValue)
      && MarkCount(r.events, o.failureMeter) == 1
      && MarkCount(r.events, o.successMeter) == 1
      && LogCount(r.events) == 1
  {
    var r := MapSiamResponseWithDummy(o, false, incoming, dummyValue, logMap, requestText, failureLogKey);
    var first := [Log(ERROR, Ignored(failureLogKey), WithRequest(logMap, requestText), Some(incoming.error)),
                  Mark(o.failureMeter)];
    var second := ObserveJustMarkSuccess(o);
    assert r.events == first + second;
    assert first == [first[0]] + [first[1]];
    CountsAppend(first, second, o.failureMeter);
    CountsAppend(first, second, o.successMeter);
    CountsAppend([first[0]], [first[1]], o.failureMeter);
    CountsAppend([first[0]], [first[1]], o.successMeter);
    CountsSingle(first[0], o.failureMeter);
    CountsSingle(first[1], o.failureMeter);
    CountsSingle(first[0], o.successMeter);
    CountsSingle(first[1], o.successMeter);
  }

  /** `retrySiamResponse`: `conditionallyRetry` that by default retries failed responses, with the response's error as suppressed cause. */
  function RetrySiamResponse<T>(maxRetries: int, promiseDurationOnError: (int, SiamResponse<T>) -> R.DelayRequest,
                                upstream: int -> R.Signal<SiamResponse<T>>,
                                retryCondition: SiamResponse<T> -> bool := (response: SiamResponse<T>) => response.isFailed)
    : (r: R.RetryRun<SiamResponse<T>>)
    ensures r.attempts >= 1 && |r.delays| == r.attempts - 1
    ensures r.attempts <= if maxRetries >= 0 then maxRetries + 1 else 1
  {
    var responseError := (response: SiamResponse<T>) => Some(response.error);
    R.ConditionallyRetry(R.RetryPolicy(maxRetries, promiseDurationOnError, retryCondition, responseError), upstream)
  }

  /** With the default condition, a first response that did not fail is forwarded after one attempt. */
  lemma RetryStopsOnGoodResponse<T>(maxRetries: int, promiseDurationOnError: (int, SiamResponse<T>) -> R.DelayRequest,
                                    upstream: int -> R.Signal<SiamResponse<T>>)
    requires upstream(1).Emitted? && !upstream(1).value.isFailed
    ensures RetrySiamResponse(maxRetries, promiseDurationOnError, upstream) == R.RetryRun(upstream(1), 1, [])
  {
  }

  /**
   * With the default condition, when the duration function throws for a
   * failed first response, the chain fails with that error carrying the
   * response's error as suppressed; when the thrown error is the
   * response's error itself, `addSuppressed` refuses it and the chain
   * fails with the self-suppression error instead.
   */
  lemma RetryFailureCarriesResponseError<T>(maxRetries: int, promiseDurationOnError: (int, SiamResponse<T>) -> R.DelayRequest,
                                            upstream: int -> R.Signal<SiamResponse<T>>, e: Throwable)
    requires maxRetries >= 1 && upstream(1).Emitted? && upstream(1).value.isFailed
    requires promiseDurationOnError(1, upstream(1).value) == R.Threw(e)
    ensures var response, signal := upstream(1).value, RetrySiamResponse(maxRetries, promiseDurationOnError, upstream).signal;
      !SameObject(e, response.error) ==>
        signal.Errored? && SameIdentity(e, signal.error) && signal.error.suppressed == e.suppressed + [response.error]
    ensures var response, signal := upstream(1).value, RetrySiamResponse(maxRetries, promiseDurationOnError, upstream).signal;
      SameObject(e, response.error) ==> signal == R.Errored(SelfSuppression(response.error, []))
  {
  }
}
