/**
 * The companion object of ObservabilityScope: each call logs one structured
 * line and marks one meter, returned here as the trace of events it causes
 * together with the value returned or the throwable raised.
 */
module ObservabilityCompanion {
  import opened Wrappers
  import opened Throwables
  import opened Telemetry

  /** The events a call causes, then what it returns or throws. */
  datatype Observed<T> = Observed(events: seq<Event>, outcome: Outcome<T>)

  /** `"$successLogKey-error"`, the failure key used when the caller gives none. */
  function DefaultFailureLogKey(successLogKey: string): (k: string)
    ensures |k| == |successLogKey| + 6
    ensures k[..|successLogKey|] == successLogKey
    ensures k[|successLogKey|..] == "-error"
  {
    successLogKey + "-error"
  }

  /** `observe`: one log line at `level` under `logKey`, then one mark of `meter`. */
  function Observe(meter: string, level: Level, logKey: string, throwable: Option<Throwable> := None,
                   logMap: LogMap := map[]): (r: seq<Event>)
    ensures LogCount(r) == 1 && r[0] == Log(level, logKey, logMap, throwable)
    ensures forall m :: MarkCount(r, m) == if m == meter then 1 else 0
    ensures |r| == 2 && r[1] == Mark(meter)
  {
    var log, mark := Log(level, logKey, logMap, throwable), Mark(meter);
    assert forall m :: MarkCount([log] + [mark], m) == if m == meter then 1 else 0 by {
      forall m ensures MarkCount([log] + [mark], m) == if m == meter then 1 else 0 {
        CountsAppend([log], [mark], m);
        CountsSingle(log, m);
        CountsSingle(mark, m);
      }
    }
    CountsAppend([log], [mark], meter);
    CountsSingle(log, meter);
    CountsSingle(mark, meter);
    [log] + [mark]
  }

  /** `observeAtError`: `observe` at ERROR, with the throwable attached. */
  function ObserveAtError(meter: string, logKey: string, throwable: Throwable, logMap: LogMap := map[]): (r: seq<Event>)
    ensures r == [Log(ERROR, logKey, logMap, Some(throwable)), Mark(meter)]
  {
    Observe(meter, ERROR, logKey, Some(throwable), logMap)
  }

  /** `observeAtWarn`: `observe` at WARN; the throwable is optional. */
  function ObserveAtWarn(meter: string, logKey: string, throwable: Option<Throwable> := None,
                         logMap: LogMap := map[]): (r: seq<Event>)
    ensures r == [Log(WARN, logKey, logMap, throwable), Mark(meter)]
  {
    Observe(meter, WARN, logKey, throwable, logMap)
  }

  /** `observeAtInfo`: `observe` at INFO, no throwable. */
  function ObserveAtInfo(meter: string, logKey: string, logMap: LogMap := map[]): (r: seq<Event>)
    ensures r == [Log(INFO, logKey, logMap, None), Mark(meter)]
  {
    Observe(meter, INFO, logKey, logMap := logMap)
  }

  /** `observeAtDebug`: `observe` at DEBUG, no throwable. */
  function ObserveAtDebug(meter: string, logKey: string, logMap: LogMap := map[]): (r: seq<Event>)
    ensures r == [Log(DEBUG, logKey, logMap, None), Mark(meter)]
  {
    Observe(meter, DEBUG, logKey, logMap := logMap)
  }

  /**
   * `observeAndBury`: `block` is what the wrapped block did. A value is
   * returned after an INFO line (from the finally clause) and a success
   * mark; a throwable is buried: a WARN line, a failure mark, and the dummy
   * value is returned instead.
   */
  function ObserveAndBury<T>(dummyValue: T, successMeter: string, failureMeter: string, successLogKey: string,
                             block: Outcome<T>, failureLogKey: string := DefaultFailureLogKey(successLogKey),
                             logMapFactory: Option<T> -> LogMap := (value: Option<T>) => map[]): (r: Observed<T>)
    ensures r.outcome.Success?
    ensures |r.events| == 2 && LogCount(r.events) == 1
    ensures block.Success? ==>
      && r.outcome == block
      && r.events[0] == Log(INFO, successLogKey, logMapFactory(Some(block.value)), None)
      && MarkCount(r.events, successMeter) == 1
      && (failureMeter != successMeter ==> MarkCount(r.events, failureMeter) == 0)
    ensures block.Failure? ==>
      && r.outcome == Success(dummyValue)
      && r.events[0] == Log(WARN, failureLogKey, logMapFactory(None), Some(block.error))
      && MarkCount(r.events, failureMeter) == 1
      && (failureMeter != successMeter ==> MarkCount(r.events, successMeter) == 0)
  {
    match block
    case Success(value) =>
      Observed(ObserveAtInfo(successMeter, successLogKey, logMapFactory(Some(value))), Success(value))
    case Failure(t) =>
      Observed(ObserveAtWarn(failureMeter, failureLogKey, Some(t), logMapFactory(None)), Success(dummyValue))
  }

  /**
   * `observeAndThrow` around a block: a value is returned after an INFO
   * line and a success mark; a throwable is rethrown unchanged after an
   * ERROR line and a failure mark.
   */
  function ObserveAndThrow<T>(successMeter: string, failureMeter: string, successLogKey: string, block: Outcome<T>,
                              logMapFactory: Option<T> -> LogMap := (value: Option<T>) => map[],
                              failureLogKey: string := DefaultFailureLogKey(successLogKey)): (r: Observed<T>)
    ensures r.outcome == block
    ensures |r.events| == 2 && LogCount(r.events) == 1
    ensures block.Success? ==>
      && r.events[0] == Log(INFO, successLogKey, logMapFactory(Some(block.value)), None)
      && MarkCount(r.events, successMeter) == 1
      && (failureMeter != successMeter ==> MarkCount(r.events, failureMeter) == 0)
    ensures block.Failure? ==>
      && r.events[0] == Log(ERROR, failureLogKey, logMapFactory(None), Some(block.error))
      && MarkCount(r.events, failureMeter) == 1
      && (failureMeter != successMeter ==> MarkCount(r.events, successMeter) == 0)
  {
    match block
    case Success(value) =>
      Observed(ObserveAtInfo(successMeter, successLogKey, logMapFactory(Some(value))), Success(value))
    case Failure(t) =>
      Observed(ObserveAtError(failureMeter, failureLogKey, t, logMapFactory(None)), Failure(t))
  }

  /** What a member returning `Nothing` leaves behind: the events it emitted and the throwable it threw. */
  datatype Thrown = Thrown(events: seq<Event>, error: Throwable)

  /** `observeAndThrow` of a throwable: an ERROR line, a mark, and `throwable` is always thrown. */
  function ObserveAndThrowThrowable(throwable: Throwable, metric: string, logKey: string,
                                    logMap: LogMap := map[]): (r: Thrown)
    ensures r.error == throwable
    ensures r.events == [Log(ERROR, logKey, logMap, Some(throwable)), Mark(metric)]
  {
    Thrown(ObserveAtError(metric, logKey, throwable, logMap), throwable)
  }

  /** Burying and rethrowing agree on a block that returns normally. */
  lemma BuryAndThrowAgreeOnSuccess<T>(dummyValue: T, successMeter: string, failureMeter: string,
                                      successLogKey: string, failureLogKey: string,
                                      logMapFactory: Option<T> -> LogMap, value: T)
    ensures ObserveAndBury(dummyValue, successMeter, failureMeter, successLogKey, Success(value),
                           failureLogKey, logMapFactory)
      == ObserveAndThrow(successMeter, failureMeter, successLogKey, Success(value), logMapFactory, failureLogKey)
  {
  }

  /** On a throwing block the two differ only in the log level and in what is handed back. */
  lemma BuryAndThrowDifferOnFailure<T>(dummyValue: T, successMeter: string, failureMeter: string,
                                       successLogKey: string, failureLogKey: string,
                                       logMapFactory: Option<T> -> LogMap, t: Throwable)
    ensures var buried := ObserveAndBury(dummyValue, successMeter, failureMeter, successLogKey, Failure(t),
                                         failureLogKey, logMapFactory);
      var thrown := ObserveAndThrow(successMeter, failureMeter, successLogKey, Failure(t), logMapFactory, failureLogKey);
      && buried.events[1..] == thrown.events[1..]
      && buried.events[0] == thrown.events[0].(level := WARN)
      && buried.outcome == Success(dummyValue)
      && thrown.outcome == Failure(t)
  {
  }
}

/**
 * ObservabilityScope itself: an observer configured with its log keys and
 * meters, whose members default to those settings and delegate to the
 * companion object.
 */
module ObservabilityScope {
  import opened Wrappers
  import opened Throwables
  import opened Telemetry
  import C = ObservabilityCompanion

  /** The observer's settings: meter name prefix, log keys and the two meters (by name). */
  datatype Observer = Observer(
    baseMeterName: string,
    successLogKey: string,
    failureLogKey: string,
    successMeter: string,
    failureMeter: string)

  /** `observeAtError`: ERROR line under `failureLogKey` by default, failure mark. */
  function ObserveAtError(o: Observer, throwable: Throwable, logMap: LogMap := map[],
                          logKey: string := o.failureLogKey): (r: seq<Event>)
    ensures r == [Log(ERROR, logKey, logMap, Some(throwable)), Mark(o.failureMeter)]
  {
    C.ObserveAtError(o.failureMeter, logKey, throwable, logMap)
  }

  /** `observeAtWarn`: WARN line under `failureLogKey` by default, failure mark. */
  function ObserveAtWarn(o: Observer, throwable: Option<Throwable> := None, logMap: LogMap := map[],
                         logKey: string := o.failureLogKey): (r: seq<Event>)
    ensures r == [Log(WARN, logKey, logMap, throwable), Mark(o.failureMeter)]
  {
    C.ObserveAtWarn(o.failureMeter, logKey, throwable, logMap)
  }

  /** `observeAtInfo`: INFO line under `successLogKey` by default, success mark. */
  function ObserveAtInfo(o: Observer, logMap: LogMap := map[], logKey: string := o.successLogKey): (r: seq<Event>)
    ensures r == [Log(INFO, logKey, logMap, None), Mark(o.successMeter)]
  {
    C.ObserveAtInfo(o.successMeter, logKey, logMap)
  }

  /** `observeAtDebug`: DEBUG line under `successLogKey` by default, success mark. */
  function ObserveAtDebug(o: Observer, logMap: LogMap := map[], logKey: string := o.successLogKey): (r: seq<Event>)
    ensures r == [Log(DEBUG, logKey, logMap, None), Mark(o.successMeter)]
  {
    C.ObserveAtDebug(o.successMeter, logKey, logMap)
  }

  /** `observeJustMarkSuccess`: the success meter is marked and nothing is logged. */
  function ObserveJustMarkSuccess(o: Observer): (r: seq<Event>)
    ensures LogCount(r) == 0
    ensures forall m :: MarkCount(r, m) == if m == o.successMeter then 1 else 0
  {
    var events := [Mark(o.successMeter)];
    assert forall m :: MarkCount(events, m) == if m == o.successMeter then 1 else 0 by {
      forall m ensures MarkCount(events, m) == if m == o.successMeter then 1 else 0 {
        CountsSingle(Mark(o.successMeter), m);
      }
    }
    CountsSingle(Mark(o.successMeter), o.successMeter);
    events
  }

  /** `observeAndBury` with the observer's meters; the failure key defaults to `"$successLogKey-error"`. */
  function ObserveAndBury<T>(o: Observer, dummyValue: T, block: Outcome<T>, successLogKey: string := o.successLogKey,
                             failureLogKey: string := C.DefaultFailureLogKey(successLogKey),
                             logMapFactory: Option<T> -> LogMap := (value: Option<T>) => map[]): (r: C.Observed<T>)
    ensures block.Success? ==> r == C.Observed([Log(INFO, successLogKey, logMapFactory(Some(block.value)), None),
                                                Mark(o.successMeter)], block)
    ensures block.Failure? ==> r == C.Observed([Log(WARN, failureLogKey, logMapFactory(None), Some(block.error)),
                                                Mark(o.failureMeter)], Success(dummyValue))
  {
    C.ObserveAndBury(dummyValue, o.successMeter, o.failureMeter, successLogKey, block, failureLogKey, logMapFactory)
  }

  /** `observeAndThrow` around a block with the observer's meters; same defaults as `observeAndBury`. */
  function ObserveAndThrow<T>(o: Observer, block: Outcome<T>, logMapFactory: Option<T> -> LogMap := (value: Option<T>) => map[],
                              successLogKey: string := o.successLogKey,
                              failureLogKey: string := C.DefaultFailureLogKey(successLogKey)): (r: C.Observed<T>)
    ensures block.Success? ==> r == C.Observed([Log(INFO, successLogKey, logMapFactory(Some(block.value)), None),
                                                Mark(o.successMeter)], block)
    ensures block.Failure? ==> r == C.Observed([Log(ERROR, failureLogKey, logMapFactory(None), Some(block.error)),
                                                Mark(o.failureMeter)], block)
  {
    C.ObserveAndThrow(o.successMeter, o.failureMeter, successLogKey, block, logMapFactory, failureLogKey)
  }

  /** `observeAndThrow` of a throwable: ERROR line under `failureLogKey` by default, failure mark, rethrow. */
  function ObserveAndThrowThrowable(o: Observer, throwable: Throwable, logMap: LogMap := map[],
                                    logKey: string := o.failureLogKey): (r: C.Thrown)
    ensures r.error == throwable
    ensures r.events == [Log(ERROR, logKey, logMap, Some(throwable)), Mark(o.failureMeter)]
  {
    C.ObserveAndThrowThrowable(throwable, o.failureMeter, logKey, logMap)
  }

  /**
   * The instance members fall into two groups by their defaults: ERROR and
   * WARN use `failureLogKey` and the failure meter; INFO and DEBUG use
   * `successLogKey` and the success meter.
   */
  lemma InstanceDefaults(o: Observer, t: Throwable)
    ensures ObserveAtError(o, t) == [Log(ERROR, o.failureLogKey, map[], Some(t)), Mark(o.failureMeter)]
    ensures ObserveAtWarn(o) == [Log(WARN, o.failureLogKey, map[], None), Mark(o.failureMeter)]
    ensures ObserveAtInfo(o) == [Log(INFO, o.successLogKey, map[], None), Mark(o.successMeter)]
    ensures ObserveAtDebug(o) == [Log(DEBUG, o.successLogKey, map[], None), Mark(o.successMeter)]
  {
  }

  /**
   * A buried failure is logged under `"<successLogKey>-error"` by default,
   * derived from the success key in use and not from the observer's own
   * `failureLogKey`.
   */
  lemma BuryDefaultFailureKey<T>(o: Observer, dummyValue: T, t: Throwable)
    ensures ObserveAndBury(o, dummyValue, Failure(t)).events[0]
      == Log(WARN, o.successLogKey + "-error", map[], Some(t))
  {
  }
}
