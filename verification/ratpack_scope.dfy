/**
 * The promise combinators of RatpackScope, with Ratpack's scheduling taken
 * away: a batch is the sequence of results its promises settled with, and a
 * retry chain is driven by the outcome each new subscription to upstream
 * yields.
 */
module RatpackScope {
  import opened Wrappers
  import opened Throwables
  import opened Sequences
  import opened Telemetry

  /** Ratpack's ExecResult: what one promise of a batch settled with. */
  type ExecResult<T> = Outcome<T>

  /** A promise built by a list combinator: resolved on the spot, or yielded by a ParallelBatch. */
  datatype Built<T> = Immediate(value: T) | Batched(value: T)

  predicate IsSuccess<T>(r: ExecResult<T>) { r.Success? }

  predicate IsFailure<T>(r: ExecResult<T>) { r.Failure? }

  /** The throwables of a sequence of failed results. */
  function ErrorsOf<T>(rs: seq<ExecResult<T>>): (ts: seq<Throwable>)
    requires forall i :: 0 <= i < |rs| ==> rs[i].Failure?
    ensures |ts| == |rs|
    ensures forall i :: 0 <= i < |rs| ==> rs[i] == Failure(ts[i])
  {
    seq(|rs|, i requires 0 <= i < |rs| => rs[i].error)
  }

  /** The values of a sequence of successful results (`results.map { it.value }`). */
  function Values<T>(rs: seq<ExecResult<T>>): (vs: seq<T>)
    requires forall i :: 0 <= i < |rs| ==> rs[i].Success?
    ensures |vs| == |rs|
    ensures forall i :: 0 <= i < |rs| ==> rs[i] == Success(vs[i])
  {
    seq(|rs|, i requires 0 <= i < |rs| => rs[i].value)
  }

  // ---------------------------------------------------------------------
  // Parallel batches over a list of promises
  // ---------------------------------------------------------------------

  /**
   * `List<Promise<T>>.parallelBatch`: an empty list resolves at once to an
   * empty list without building a batch; otherwise `yieldAll()` gives one
   * result per promise, at that promise's position. `R` is the type of a
   * settled result, so that the keyed batch can pass its wrapped errors.
   */
  function ParallelBatch<R>(promises: seq<R>): (r: Built<seq<R>>)
    ensures r.Immediate? <==> |promises| == 0
    ensures r.Immediate? ==> r.value == []
    ensures |r.value| == |promises|
    ensures forall i :: 0 <= i < |promises| ==> r.value[i] == promises[i]
  {
    if |promises| == 0 then Immediate([]) else Batched(promises)
  }

  /**
   * `parallelBatchFailFast`: `Some([])` when the empty list resolves at once;
   * `None` when the promises are handed to Ratpack's `yield()`, whose
   * fail-fast behaviour is not part of this model.
   */
  function ParallelBatchFailFast<T>(promises: seq<ExecResult<T>>): (r: Option<seq<T>>)
    ensures r.Some? <==> |promises| == 0
    ensures r.Some? ==> r.value == []
  {
    if |promises| == 0 then Some([]) else None
  }

  /** Position of the first failed result (`firstOrNull { it.isError }`). */
  function FirstFailure<T>(rs: seq<ExecResult<T>>): (r: Option<nat>)
    ensures r.None? <==> forall i :: 0 <= i < |rs| ==> rs[i].Success?
    ensures r.Some? ==> r.value < |rs| && rs[r.value].Failure?
    ensures r.Some? ==> forall j :: 0 <= j < r.value ==> rs[j].Success?
    decreases |rs|
  {
    if rs == [] then None
    else if rs[0].Failure? then Some(0)
    else match FirstFailure(rs[1..])
      case None => None
      case Some(i) => Some(i + 1)
  }

  /**
   * The throwables that get suppressed onto the first failure's:
   * `results.filter { it != firstFailedResult && it.isError }`, in order.
   * Results are compared by value, so a later result equal to the first
   * failed one is left out.
   */
  function OtherFailures<T(==)>(rs: seq<ExecResult<T>>, first: ExecResult<T>): (ts: seq<Throwable>)
    ensures forall t :: t in ts ==> Failure(t) in rs && Failure(t) != first
  {
    var keep := (r: ExecResult<T>) => r != first && r.Failure?;
    FilterMembers(rs, keep);
    ErrorsOf(Filter(rs, keep))
  }

  /**
   * `parallelBatchOrThrow`: all values in input order when every promise
   * succeeded; otherwise the throwable of the first failure by position,
   * carrying every other failure's throwable as suppressed, in input order.
   * Should one of those be the first throwable itself, `addSuppressed`
   * throws, and its exception fails the promise instead.
   */
  function ParallelBatchOrThrow<T(==)>(promises: seq<ExecResult<T>>): (r: ExecResult<seq<T>>)
    ensures r.Success? <==> forall i :: 0 <= i < |promises| ==> promises[i].Success?
    ensures r.Success? ==> |r.value| == |promises|
    ensures r.Success? ==> forall i :: 0 <= i < |promises| ==> promises[i] == Success(r.value[i])
    ensures r.Failure? ==>
      exists i :: 0 <= i < |promises| && promises[i].Failure?
        && (forall j :: 0 <= j < i ==> promises[j].Success?)
        && r.error == Escaping(AddAllSuppressed(promises[i].error, OtherFailures(promises, promises[i])))
  {
    var results := ParallelBatch(promises).value;
    match FirstFailure(results)
    case None => Success(Values(results))
    case Some(i) =>
      var throwable := results[i].error;
      Failure(Escaping(AddAllSuppressed(throwable, OtherFailures(results, results[i]))))
  }

  /** Unless the first failure recurs, the failures other than the first are exactly the later ones. */
  lemma OtherFailuresAreLaterFailures<T>(promises: seq<ExecResult<T>>, i: nat)
    requires i < |promises| && promises[i].Failure?
    requires forall j :: 0 <= j < i ==> promises[j].Success?
    requires forall j :: i < j < |promises| ==> promises[j] != promises[i]
    ensures Filter(promises, (r: ExecResult<T>) => r != promises[i] && r.Failure?)
      == Filter(promises[i + 1..], IsFailure)
  {
    var first := promises[i];
    var p := (r: ExecResult<T>) => r != first && r.Failure?;
    var before, after := promises[..i], promises[i + 1..];
    FilterSplitAt(promises, i, p);
    assert Filter(before, p) == [] by {
      forall j | 0 <= j < |before| ensures !p(before[j]) {
        assert before[j] == promises[j];
      }
      FilterDropsAll(before, p);
    }
    assert Filter([first], p) == [] by {
      assert [first][1..] == [];
    }
    assert Filter(after, p) == Filter(after, IsFailure) by {
      forall j | 0 <= j < |after|
        ensures p(after[j]) == IsFailure(after[j])
      {
        assert after[j] == promises[i + 1 + j];
      }
      FilterCongruent(after, p, IsFailure);
    }
  }

  /**
   * Unless the first failure recurs later, the thrown error is what
   * suppressing the throwables of all the later failures onto the first
   * one, in input order, leaves: when none of them is the first throwable
   * itself, that throwable with exactly those appended to its suppressed
   * list; otherwise the self-suppression error for the earliest such one.
   */
  lemma OrThrowSuppressesAllLaterFailures<T>(promises: seq<ExecResult<T>>, i: nat)
    requires i < |promises| && promises[i].Failure?
    requires forall j :: 0 <= j < i ==> promises[j].Success?
    requires forall j :: i < j < |promises| ==> promises[j] != promises[i]
    ensures var later := Filter(promises[i + 1..], IsFailure);
      ParallelBatchOrThrow(promises)
        == Failure(Escaping(AddAllSuppressed(promises[i].error, ErrorsOf(later))))
    ensures var first, later := promises[i].error, ErrorsOf(Filter(promises[i + 1..], IsFailure));
      var r := ParallelBatchOrThrow(promises);
      (forall k :: 0 <= k < |later| ==> !SameObject(first, later[k])) ==>
        r.Failure? && SameIdentity(first, r.error) && r.error.suppressed == first.suppressed + later
    ensures var first, later := promises[i].error, ErrorsOf(Filter(promises[i + 1..], IsFailure));
      forall k :: FirstSelf(first, later, k) ==> ParallelBatchOrThrow(promises) == Failure(SelfSuppression(later[k], []))
  {
    assert FirstFailure(promises) == Some(i);
    OtherFailuresAreLaterFailures(promises, i);
  }

  /**
   * `parallelBatchAndFilter`: the values of the successful promises, in
   * their original relative order; failures are dropped.
   */
  function ParallelBatchAndFilter<T>(promises: seq<ExecResult<T>>): (r: seq<T>)
    ensures |r| <= |promises|
    ensures forall v :: v in r ==> Success(v) in promises
    ensures forall i :: 0 <= i < |promises| && promises[i].Success? ==> promises[i].value in r
  {
    var results := ParallelBatch(promises).value;
    FilterMembers(results, IsSuccess);
    Values(Filter(results, IsSuccess))
  }

  /** Survivors of `parallelBatchAndFilter` keep their order: it distributes over concatenation. */
  lemma AndFilterAppend<T>(a: seq<ExecResult<T>>, b: seq<ExecResult<T>>)
    ensures ParallelBatchAndFilter(a + b) == ParallelBatchAndFilter(a) + ParallelBatchAndFilter(b)
  {
    FilterAppend(a, b, IsSuccess);
  }

  /** On a single promise, `parallelBatchAndFilter` keeps its value or drops its failure. */
  lemma AndFilterSingle<T>(r: ExecResult<T>)
    ensures ParallelBatchAndFilter([r]) == if r.Success? then [r.value] else []
  {
    assert [r][1..] == [];
  }

  // ---------------------------------------------------------------------
  // Keyed parallel batch
  // ---------------------------------------------------------------------

  /** The private WrappingException: carries the input key of a failed promise and its cause. */
  datatype WrappingException<I> = WrappingException(wrapped: I, cause: Throwable)

  /** `Pair<List<O>, Map<I, Throwable>>`: the successes and the failures by input key. */
  datatype KeyedBatch<I, O> = KeyedBatch(successes: seq<O>, failures: map<I, Throwable>)

  /** A `Map<I, Promise<O>>` in iteration order; `None` is a successful null value. */
  type Entries<I, O> = seq<(I, ExecResult<Option<O>>)>

  /** Keys of a map are unique. */
  ghost predicate DistinctKeys<I, O>(entries: Entries<I, O>) {
    forall i, j :: 0 <= i < j < |entries| ==> entries[i].0 != entries[j].0
  }

  /** `promise.mapError { throw WrappingException(input, it) }` for every entry. */
  function WrapErrors<I, O>(entries: Entries<I, O>): (rs: seq<Result<Option<O>, WrappingException<I>>>)
    ensures |rs| == |entries|
    ensures forall i :: 0 <= i < |entries| && entries[i].1.Success? ==> rs[i] == Success(entries[i].1.value)
    ensures forall i :: 0 <= i < |entries| && entries[i].1.Failure? ==>
      rs[i] == Failure(WrappingException(entries[i].0, entries[i].1.error))
  {
    seq(|entries|, i requires 0 <= i < |entries| =>
      entries[i].1.MapFailure((e: Throwable) => WrappingException(entries[i].0, e)))
  }

  /**
   * One step of the pass over the batch results: a failure records its
   * cause under its input key, replacing only that key; a non-null value is
   * appended to the successes; a null value changes nothing.
   */
  function CollectStep<I, O>(acc: KeyedBatch<I, O>, r: Result<Option<O>, WrappingException<I>>): (out: KeyedBatch<I, O>)
    ensures r.Failure? ==> out.successes == acc.successes
    ensures r.Failure? ==> out.failures.Keys == acc.failures.Keys + {r.error.wrapped}
    ensures r.Failure? ==> out.failures[r.error.wrapped] == r.error.cause
    ensures r.Failure? ==> forall k :: k in acc.failures && k != r.error.wrapped ==> out.failures[k] == acc.failures[k]
    ensures r.Success? ==> out.failures == acc.failures
    ensures r.Success? ==> out.successes == acc.successes + if r.value.Some? then [r.value.value] else []
  {
    match r
    case Failure(w) => acc.(failures := acc.failures[w.wrapped := w.cause])
    case Success(Some(v)) => acc.(successes := acc.successes + [v])
    case Success(None) => acc
  }

  /**
   * The pass over the batch results, left to right: a failure stores the
   * wrapped cause under the wrapped key; a non-null success value is kept
   * (`mapNotNull`).
   */
  function Collect<I, O>(rs: seq<Result<Option<O>, WrappingException<I>>>, acc: KeyedBatch<I, O>): (out: KeyedBatch<I, O>)
    ensures acc.successes <= out.successes
    ensures |out.successes| <= |acc.successes| + |rs|
    ensures acc.failures.Keys <= out.failures.Keys
    decreases |rs|
  {
    if rs == [] then acc
    else
      Collect(rs[1..], CollectStep(acc, rs[0]))
  }

  /** Reference definition of the keyed successes: the non-null success values, in iteration order. */
  function PresentSuccesses<I, O>(entries: Entries<I, O>): seq<O>
    decreases |entries|
  {
    if entries == [] then []
    else
      (match entries[0].1 case Success(Some(v)) => [v] case _ => [])
      + PresentSuccesses(entries[1..])
  }

  /** The keys whose promise failed. */
  ghost function FailedKeys<I, O>(entries: Entries<I, O>): set<I> {
    set i | 0 <= i < |entries| && entries[i].1.Failure? :: entries[i].0
  }

  lemma FailedKeysSplit<I, O>(entries: Entries<I, O>)
    requires entries != []
    ensures FailedKeys(entries)
      == (if entries[0].1.Failure? then {entries[0].0} else {}) + FailedKeys(entries[1..])
  {
    var tail := entries[1..];
    forall k | k in FailedKeys(entries) && k != entries[0].0
      ensures k in FailedKeys(tail)
    {
      var i :| 0 <= i < |entries| && entries[i].1.Failure? && entries[i].0 == k;
      assert tail[i - 1] == entries[i];
    }
    forall k | k in FailedKeys(tail)
      ensures k in FailedKeys(entries)
    {
      var i :| 0 <= i < |tail| && tail[i].1.Failure? && tail[i].0 == k;
      assert entries[i + 1] == tail[i];
    }
  }

  lemma {:induction false} CollectSuccesses<I, O>(entries: Entries<I, O>, acc: KeyedBatch<I, O>)
    ensures Collect(WrapErrors(entries), acc).successes == acc.successes + PresentSuccesses(entries)
    decreases |entries|
  {
    var rs := WrapErrors(entries);
    if entries != [] {
      assert rs[1..] == WrapErrors(entries[1..]);
      CollectSuccesses(entries[1..], CollectStep(acc, rs[0]));
    }
  }

  lemma {:induction false} CollectFailures<I, O>(entries: Entries<I, O>, acc: KeyedBatch<I, O>)
    requires DistinctKeys(entries)
    ensures var r := Collect(WrapErrors(entries), acc);
      && r.failures.Keys == acc.failures.Keys + FailedKeys(entries)
      && (forall i :: 0 <= i < |entries| && entries[i].1.Failure? ==>
            entries[i].0 in r.failures && r.failures[entries[i].0] == entries[i].1.error)
      && (forall k :: k in acc.failures && k !in FailedKeys(entries) ==>
            k in r.failures && r.failures[k] == acc.failures[k])
    decreases |entries|
  {
    var rs := WrapErrors(entries);
    if entries == [] {
      assert FailedKeys(entries) == {};
    } else {
      var tail := entries[1..];
      assert rs[1..] == WrapErrors(tail);
      var next := CollectStep(acc, rs[0]);
      CollectFailures(tail, next);
      FailedKeysSplit(entries);
      var r := Collect(rs, acc);
      assert r == Collect(WrapErrors(tail), next);
      forall j | 0 <= j < |tail|
        ensures tail[j].0 != entries[0].0
      {
        assert entries[j + 1] == tail[j];
      }
      assert entries[0].0 !in FailedKeys(tail);
      forall i | 0 <= i < |entries| && entries[i].1.Failure?
        ensures entries[i].0 in r.failures && r.failures[entries[i].0] == entries[i].1.error
      {
        if i > 0 {
          assert tail[i - 1] == entries[i];
        }
      }
    }
  }

  /**
   * Keyed `parallelBatch`: each failure sits under its own input key with
   * the original, unwrapped cause; only keys that failed appear there; the
   * successes are the non-null success values in iteration order.
   */
  function KeyedParallelBatch<I, O>(entries: Entries<I, O>): (r: KeyedBatch<I, O>)
    requires DistinctKeys(entries)
    ensures r.successes == PresentSuccesses(entries)
    ensures forall i :: 0 <= i < |entries| && entries[i].1.Failure? ==>
      entries[i].0 in r.failures && r.failures[entries[i].0] == entries[i].1.error
    ensures forall k :: k in r.failures ==>
      exists i :: 0 <= i < |entries| && entries[i].0 == k && entries[i].1.Failure?
    ensures forall i :: 0 <= i < |entries| && entries[i].1.Success? ==> entries[i].0 !in r.failures
  {
    var wrapped := WrapErrors(entries);
    var results := ParallelBatch(wrapped).value;
    CollectSuccesses(entries, KeyedBatch([], map[]));
    CollectFailures(entries, KeyedBatch([], map[]));
    var r := Collect(results, KeyedBatch([], map[]));
    assert forall i :: 0 <= i < |entries| && entries[i].1.Success? ==> entries[i].0 !in FailedKeys(entries) by {
      forall i | 0 <= i < |entries| && entries[i].1.Success?
        ensures entries[i].0 !in FailedKeys(entries)
      {
        forall j | 0 <= j < |entries| && entries[j].1.Failure?
          ensures entries[j].0 != entries[i].0
        {
          assert j != i;
        }
      }
    }
    r
  }

  /** Two successes and two failures: the first failure carries the second as suppressed. */
  lemma OrThrowExample()
    ensures ParallelBatchOrThrow([Success(1), Failure(Throwable(10, [])), Success(3), Failure(Throwable(20, []))])
      == Failure(Throwable(10, [Throwable(20, [])]))
  {
    var ps: seq<ExecResult<int>> := [Success(1), Failure(Throwable(10, [])), Success(3), Failure(Throwable(20, []))];
    var t10, t20 := Throwable(10, []), Throwable(20, []);
    assert ErrorsOf(Filter(ps[2..], IsFailure)) == [t20] by {
      var later := ps[2..];
      assert later == [Success(3), Failure(t20)];
      assert later[1..][1..] == [];
      assert Filter(later, IsFailure) == [Failure(t20)];
    }
    assert AddAllSuppressed(t10, [t20]) == Success(Throwable(10, [t20])) by {
      assert !SameObject(t10, t20);
      assert t10.suppressed + [t20] == [t20];
      assert AddSuppressed(t10, t20) == Success(Throwable(10, [t20]));
      assert [t20][1..] == [];
    }
    OrThrowSuppressesAllLaterFailures(ps, 1);
  }

  /**
   * A later failure carrying the first failure's throwable in another
   * state: `addSuppressed` refuses it, and the promise fails with the
   * self-suppression error instead. Two values with one `id` and
   * different suppressed lists are one object seen in two states, which
   * no single heap holds: the example only exercises the self-suppression
   * branch. The case a real heap allows, one throwable failing two
   * promises in the same state, is removed by the by-value `!=` of
   * `OtherFailures` before any `addSuppressed` call.
   */
  lemma OrThrowSelfSuppressionExample()
    ensures ParallelBatchOrThrow<int>([Failure(Throwable(10, [])), Failure(Throwable(10, [Throwable(20, [])]))])
      == Failure(SelfSuppression(Throwable(10, [Throwable(20, [])]), []))
  {
    var ps: seq<ExecResult<int>> := [Failure(Throwable(10, [])), Failure(Throwable(10, [Throwable(20, [])]))];
    OrThrowSuppressesAllLaterFailures(ps, 0);
    assert ps[1..] == [ps[1]] && ps[1..][1..] == [];
    assert ErrorsOf(Filter(ps[1..], IsFailure)) == [Throwable(10, [Throwable(20, [])])];
    assert FirstSelf(Throwable(10, []), [Throwable(10, [Throwable(20, [])])], 0);
  }

  /** The same four promises: filtering keeps the two values in order. */
  lemma AndFilterExample()
    ensures ParallelBatchAndFilter([Success(1), Failure(Throwable(10, [])), Success(3), Failure(Throwable(20, []))])
      == [1, 3]
  {
    var a: ExecResult<int>, b: ExecResult<int> := Success(1), Failure(Throwable(10, []));
    var c: ExecResult<int>, d: ExecResult<int> := Success(3), Failure(Throwable(20, []));
    assert ParallelBatchAndFilter([a, b]) == [1] by {
      AndFilterAppend([a], [b]);
      AndFilterSingle(a);
      AndFilterSingle(b);
      assert [a] + [b] == [a, b];
    }
    assert ParallelBatchAndFilter([c, d]) == [3] by {
      AndFilterAppend([c], [d]);
      AndFilterSingle(c);
      AndFilterSingle(d);
      assert [c] + [d] == [c, d];
    }
    AndFilterAppend([a, b], [c, d]);
    assert [a, b] + [c, d] == [a, b, c, d];
  }

  /** `{"a": ok(1), "b": fail(E)}` gives successes `[1]` and failures `{"b": E}`. */
  lemma KeyedExample()
    ensures KeyedParallelBatch([("a", Success(Some(1))), ("b", Failure(Throwable(7, [])))])
      == KeyedBatch([1], map["b" := Throwable(7, [])])
  {
    var entries: Entries<string, int> := [("a", Success(Some(1))), ("b", Failure(Throwable(7, [])))];
    var r := KeyedParallelBatch(entries);
    assert entries[1..][1..] == [];
    assert PresentSuccesses(entries) == [1];
    assert r.failures.Keys == {"b"} by {
      forall k | k in r.failures ensures k == "b" {
        var i :| 0 <= i < |entries| && entries[i].0 == k && entries[i].1.Failure?;
      }
    }
  }

  // ---------------------------------------------------------------------
  // Conditional retry
  // ---------------------------------------------------------------------

  /** What a Ratpack `Downstream` is told: a value, an error, or completion without a value. */
  datatype Signal<T> = Emitted(value: T) | Errored(error: Throwable) | Completed

  /** A `java.time.Duration`, in milliseconds. */
  type Duration = int

  /**
   * What `promiseDurationOnError.apply(retryNum, result)` does: throw at
   * once, or return a promise of a delay that later signals downstream.
   */
  datatype DelayRequest = Threw(error: Throwable) | Promised(delay: Signal<Duration>)

  /** The arguments of `conditionallyRetry`, fixed for the whole chain. */
  datatype RetryPolicy<!T> = RetryPolicy(
    maxRetries: int,
    promiseDurationOnError: (int, T) -> DelayRequest,
    retryCondition: T -> bool,
    resultThrowableExtractor: T -> Option<Throwable>)

  /**
   * A finished retry chain: the signal given downstream, how many times
   * upstream was subscribed, and the delays slept between subscriptions.
   */
  datatype RetryRun<T> = RetryRun(signal: Signal<T>, attempts: nat, delays: seq<Duration>)

  /**
   * `conditionallyRetryAttempt`: subscribe to upstream as attempt
   * `retryNum`; `upstream(n)` is what the n-th subscription yields. Errors
   * and completions go straight downstream; a value is let through once
   * `retryNum > maxRetries` or the condition rejects it; otherwise the
   * duration function decides between failing the chain and sleeping
   * before attempt `retryNum + 1`.
   */
  function ConditionallyRetryAttempt<T>(retryNum: int, policy: RetryPolicy<T>, upstream: int -> Signal<T>): (r: RetryRun<T>)
    ensures r.attempts >= 1
    ensures |r.delays| == r.attempts - 1
    ensures r.attempts <= if retryNum <= policy.maxRetries then policy.maxRetries - retryNum + 2 else 1
    decreases policy.maxRetries - retryNum
  {
    match upstream(retryNum)
    case Errored(e) => RetryRun(Errored(e), 1, [])
    case Completed => RetryRun(Completed, 1, [])
    case Emitted(result) =>
      if retryNum > policy.maxRetries || !policy.retryCondition(result) then
        RetryRun(Emitted(result), 1, [])
      else
        match policy.promiseDurationOnError(retryNum, result)
        case Threw(e) =>
          RetryRun(Errored(WithOptionalSuppressed(e, policy.resultThrowableExtractor(result))), 1, [])
        case Promised(Errored(e)) => RetryRun(Errored(e), 1, [])
        case Promised(Completed) => RetryRun(Completed, 1, [])
        case Promised(Emitted(d)) =>
          var next := ConditionallyRetryAttempt(retryNum + 1, policy, upstream);
          RetryRun(next.signal, next.attempts + 1, [d] + next.delays)
  }

  /** `conditionallyRetry`: the chain starts with attempt number 1. */
  function ConditionallyRetry<T>(policy: RetryPolicy<T>, upstream: int -> Signal<T>): (r: RetryRun<T>)
    ensures r.attempts >= 1
    ensures r.attempts <= if policy.maxRetries >= 0 then policy.maxRetries + 1 else 1
    ensures upstream(1).Errored? || upstream(1).Completed? ==> r == RetryRun(upstream(1), 1, [])
  {
    ConditionallyRetryAttempt(1, policy, upstream)
  }

  /** Attempt `n` ended with a value that was retried after sleeping `d`. */
  ghost predicate Retried<T>(policy: RetryPolicy<T>, upstream: int -> Signal<T>, n: int, d: Duration) {
    && upstream(n).Emitted?
    && n <= policy.maxRetries
    && policy.retryCondition(upstream(n).value)
    && policy.promiseDurationOnError(n, upstream(n).value) == Promised(Emitted(d))
  }

  /** Attempt `n` was the last one, and the chain signalled `signal` downstream. */
  ghost predicate Stopped<T>(policy: RetryPolicy<T>, upstream: int -> Signal<T>, n: int, signal: Signal<T>) {
    match upstream(n)
    case Errored(_) => signal == upstream(n)
    case Completed => signal == Completed
    case Emitted(v) =>
      if n > policy.maxRetries || !policy.retryCondition(v) then signal == Emitted(v)
      else match policy.promiseDurationOnError(n, v)
        case Threw(e) => signal == Errored(WithOptionalSuppressed(e, policy.resultThrowableExtractor(v)))
        case Promised(Errored(e)) => signal == Errored(e)
        case Promised(Completed) => signal == Completed
        case Promised(Emitted(_)) => false
  }

  /**
   * Reference description of a chain started at `retryNum`: every attempt
   * but the last was retried after the delay recorded for it, and the last
   * one stopped the chain with the recorded signal.
   */
  ghost predicate IsRetryRun<T>(retryNum: int, policy: RetryPolicy<T>, upstream: int -> Signal<T>, run: RetryRun<T>) {
    && run.attempts >= 1
    && |run.delays| == run.attempts - 1
    && (forall j :: 0 <= j < run.attempts - 1 ==> Retried(policy, upstream, retryNum + j, run.delays[j]))
    && Stopped(policy, upstream, retryNum + run.attempts - 1, run.signal)
  }

  /** The recursive retry state machine produces exactly the run the reference description admits. */
  lemma {:induction false} RetryAttemptIsRetryRun<T>(retryNum: int, policy: RetryPolicy<T>, upstream: int -> Signal<T>, run: RetryRun<T>)
    ensures ConditionallyRetryAttempt(retryNum, policy, upstream) == run <==> IsRetryRun(retryNum, policy, upstream, run)
    decreases policy.maxRetries - retryNum
  {
    var r := ConditionallyRetryAttempt(retryNum, policy, upstream);
    if run.attempts >= 2 && |run.delays| == run.attempts - 1 {
      assert IsRetryRun(retryNum, policy, upstream, run) ==> Retried(policy, upstream, retryNum + 0, run.delays[0]);
    }
    if upstream(retryNum).Emitted? {
      var v := upstream(retryNum).value;
      if retryNum <= policy.maxRetries && policy.retryCondition(v) {
        match policy.promiseDurationOnError(retryNum, v)
        case Threw(e) =>
          assert r == RetryRun(Errored(WithOptionalSuppressed(e, policy.resultThrowableExtractor(v))), 1, []);
        case Promised(Errored(_)) =>
        case Promised(Completed) =>
        case Promised(Emitted(d)) =>
          if run.attempts >= 2 && |run.delays| == run.attempts - 1 {
            var tail := RetryRun(run.signal, run.attempts - 1, run.delays[1..]);
            RetryAttemptIsRetryRun(retryNum + 1, policy, upstream, tail);
            RetriedStepIsRetryRun(retryNum, policy, upstream, run, d);
          } else {
            var next := ConditionallyRetryAttempt(retryNum + 1, policy, upstream);
            assert r == RetryRun(next.signal, next.attempts + 1, [d] + next.delays);
            RetryAttemptIsRetryRun(retryNum + 1, policy, upstream, next);
          }
      }
    }
  }

  /** The step of RetryAttemptIsRetryRun where attempt `retryNum` is retried after sleeping `d`. */
  lemma RetriedStepIsRetryRun<T>(retryNum: int, policy: RetryPolicy<T>, upstream: int -> Signal<T>, run: RetryRun<T>, d: Duration)
    requires Retried(policy, upstream, retryNum, d)
    requires run.attempts >= 2 && |run.delays| == run.attempts - 1
    requires var tail := RetryRun(run.signal, run.attempts - 1, run.delays[1..]);
      ConditionallyRetryAttempt(retryNum + 1, policy, upstream) == tail <==> IsRetryRun(retryNum + 1, policy, upstream, tail)
    ensures ConditionallyRetryAttempt(retryNum, policy, upstream) == run <==> IsRetryRun(retryNum, policy, upstream, run)
  {
    var r := ConditionallyRetryAttempt(retryNum, policy, upstream);
    var next := ConditionallyRetryAttempt(retryNum + 1, policy, upstream);
    assert r == RetryRun(next.signal, next.attempts + 1, [d] + next.delays);
    var tail := RetryRun(run.signal, run.attempts - 1, run.delays[1..]);
    if IsRetryRun(retryNum, policy, upstream, run) {
      RetriedRunHasRetriedTail(retryNum, policy, upstream, run, d);
      assert run.delays == [d] + tail.delays;
    }
    if r == run {
      assert next == tail;
      RetriedTailExtends(retryNum, policy, upstream, run, d);
    }
  }

  /** A run retried first after `d` has `d` as its first delay and a tail that is a run from the next attempt. */
  lemma RetriedRunHasRetriedTail<T>(retryNum: int, policy: RetryPolicy<T>, upstream: int -> Signal<T>, run: RetryRun<T>, d: Duration)
    requires Retried(policy, upstream, retryNum, d)
    requires run.attempts >= 2
    requires IsRetryRun(retryNum, policy, upstream, run)
    ensures run.delays[0] == d
    ensures IsRetryRun(retryNum + 1, policy, upstream, RetryRun(run.signal, run.attempts - 1, run.delays[1..]))
  {
    var tail := RetryRun(run.signal, run.attempts - 1, run.delays[1..]);
    assert Retried(policy, upstream, retryNum + 0, run.delays[0]);
    forall j | 0 <= j < tail.attempts - 1
      ensures Retried(policy, upstream, retryNum + 1 + j, tail.delays[j])
    {
      assert Retried(policy, upstream, retryNum + (j + 1), run.delays[j + 1]);
    }
    assert retryNum + 1 + tail.attempts - 1 == retryNum + run.attempts - 1;
  }

  /** Prefixing a run from the next attempt with attempt `retryNum`, retried after `d`, gives a run from `retryNum`. */
  lemma RetriedTailExtends<T>(retryNum: int, policy: RetryPolicy<T>, upstream: int -> Signal<T>, run: RetryRun<T>, d: Duration)
    requires Retried(policy, upstream, retryNum, d)
    requires run.attempts >= 2 && |run.delays| == run.attempts - 1 && run.delays[0] == d
    requires IsRetryRun(retryNum + 1, policy, upstream, RetryRun(run.signal, run.attempts - 1, run.delays[1..]))
    ensures IsRetryRun(retryNum, policy, upstream, run)
  {
    var tail := RetryRun(run.signal, run.attempts - 1, run.delays[1..]);
    forall j | 0 <= j < run.attempts - 1
      ensures Retried(policy, upstream, retryNum + j, run.delays[j])
    {
      if j > 0 {
        assert run.delays[j] == tail.delays[j - 1];
        assert Retried(policy, upstream, retryNum + 1 + (j - 1), tail.delays[j - 1]);
      }
    }
    assert retryNum + 1 + tail.attempts - 1 == retryNum + run.attempts - 1;
  }

  /**
   * The chain as an explicit state machine (attempt number, delays so far),
   * looping where the source recurses through `Execution.sleep`.
   */
  method RunConditionallyRetry<T>(policy: RetryPolicy<T>, upstream: int -> Signal<T>) returns (signal: Signal<T>, attempts: nat, delays: seq<Duration>)
    ensures RetryRun(signal, attempts, delays) == ConditionallyRetry(policy, upstream)
  {
    var retryNum := 1;
    delays := [];
    while true
      invariant retryNum >= 1 && |delays| == retryNum - 1
      invariant var rest := ConditionallyRetryAttempt(retryNum, policy, upstream);
        ConditionallyRetry(policy, upstream)
          == RetryRun(rest.signal, rest.attempts + retryNum - 1, delays + rest.delays)
      decreases policy.maxRetries - retryNum
    {
      ghost var rest := ConditionallyRetryAttempt(retryNum, policy, upstream);
      var outcome := upstream(retryNum);
      if !outcome.Emitted? {
        assert rest == RetryRun(outcome, 1, []);
        assert delays + [] == delays;
        return outcome, retryNum, delays;
      }
      var result := outcome.value;
      if retryNum > policy.maxRetries || !policy.retryCondition(result) {
        assert rest == RetryRun(Emitted(result), 1, []);
        assert delays + [] == delays;
        return Emitted(result), retryNum, delays;
      }
      assert delays + [] == delays;
      match policy.promiseDurationOnError(retryNum, result) {
        case Threw(e) =>
          return Errored(WithOptionalSuppressed(e, policy.resultThrowableExtractor(result))), retryNum, delays;
        case Promised(Errored(e)) =>
          return Errored(e), retryNum, delays;
        case Promised(Completed) =>
          return Completed, retryNum, delays;
        case Promised(Emitted(d)) =>
          ghost var next := ConditionallyRetryAttempt(retryNum + 1, policy, upstream);
          assert rest == RetryRun(next.signal, next.attempts + 1, [d] + next.delays);
          assert (delays + [d]) + next.delays == delays + ([d] + next.delays);
          delays := delays + [d];
          retryNum := retryNum + 1;
      }
    }
  }

  /** With `maxRetries <= 0` there is one attempt, whose outcome goes downstream unchanged. */
  lemma NoRetriesForwardsFirstAttempt<T>(policy: RetryPolicy<T>, upstream: int -> Signal<T>)
    requires policy.maxRetries <= 0
    ensures ConditionallyRetry(policy, upstream) == RetryRun(upstream(1), 1, [])
  {
  }

  /** A condition that never asks for a retry forwards the first attempt's outcome, whatever `maxRetries` is. */
  lemma NeverRetryForwardsFirstAttempt<T>(policy: RetryPolicy<T>, upstream: int -> Signal<T>)
    requires forall v :: !policy.retryCondition(v)
    ensures ConditionallyRetry(policy, upstream) == RetryRun(upstream(1), 1, [])
  {
    match upstream(1)
    case Emitted(v) => assert !policy.retryCondition(v);
    case _ =>
  }

  /**
   * From attempt `retryNum`, when every attempt yields a value, the
   * condition always asks for a retry and every delay promise yields a
   * duration, the chain subscribes up to attempt `maxRetries + 1` and
   * forwards that attempt's value.
   */
  lemma {:induction false} AlwaysRetryAttemptsFrom<T>(retryNum: int, policy: RetryPolicy<T>, upstream: int -> Signal<T>)
    requires retryNum <= policy.maxRetries + 1
    requires forall n :: upstream(n).Emitted?
    requires forall v :: policy.retryCondition(v)
    requires forall n, v :: policy.promiseDurationOnError(n, v).Promised? && policy.promiseDurationOnError(n, v).delay.Emitted?
    ensures ConditionallyRetryAttempt(retryNum, policy, upstream).attempts == policy.maxRetries - retryNum + 2
    ensures ConditionallyRetryAttempt(retryNum, policy, upstream).signal == upstream(policy.maxRetries + 1)
    decreases policy.maxRetries - retryNum
  {
    match upstream(retryNum)
    case Emitted(v) =>
      assert policy.retryCondition(v);
      if retryNum <= policy.maxRetries {
        assert policy.promiseDurationOnError(retryNum, v).Promised?;
        assert policy.promiseDurationOnError(retryNum, v).delay.Emitted?;
        AlwaysRetryAttemptsFrom(retryNum + 1, policy, upstream);
      }
  }

  /** An always-true condition gives exactly `maxRetries + 1` attempts (for `maxRetries >= 0`). */
  lemma AlwaysRetryAttempts<T>(policy: RetryPolicy<T>, upstream: int -> Signal<T>)
    requires policy.maxRetries >= 0
    requires forall n :: upstream(n).Emitted?
    requires forall v :: policy.retryCondition(v)
    requires forall n, v :: policy.promiseDurationOnError(n, v).Promised? && policy.promiseDurationOnError(n, v).delay.Emitted?
    ensures ConditionallyRetry(policy, upstream).attempts == policy.maxRetries + 1
    ensures ConditionallyRetry(policy, upstream).signal == upstream(policy.maxRetries + 1)
  {
    AlwaysRetryAttemptsFrom(1, policy, upstream);
  }

  /**
   * When the duration function throws for a retryable first attempt, that
   * error goes downstream with the extracted throwable, if any, suppressed
   * onto it, and upstream is not subscribed again.
   */
  lemma DurationFunctionFailureEndsChain<T>(policy: RetryPolicy<T>, upstream: int -> Signal<T>, e: Throwable)
    requires upstream(1).Emitted? && 1 <= policy.maxRetries && policy.retryCondition(upstream(1).value)
    requires policy.promiseDurationOnError(1, upstream(1).value) == Threw(e)
    ensures var v := upstream(1).value;
      ConditionallyRetry(policy, upstream)
        == RetryRun(Errored(WithOptionalSuppressed(e, policy.resultThrowableExtractor(v))), 1, [])
  {
  }

  // ---------------------------------------------------------------------
  // Linear backoff
  // ---------------------------------------------------------------------

  const DefaultFirstDelayMillis := 20

  /**
   * One retry step of `backOffRetryWithWarnings`: a WARN log of the error
   * under `failureLogKey`, then a delay of `firstDelayMillis * retry`.
   */
  function BackOffStep(failureLogKey: string, error: Throwable, retry: int, logMap: LogMap := map[],
                       firstDelayMillis: int := DefaultFirstDelayMillis): (r: (seq<Event>, Duration))
    ensures r.0 == [Log(WARN, failureLogKey, logMap, Some(error))]
    ensures retry >= 1 && firstDelayMillis >= 0 ==> r.1 >= firstDelayMillis
  {
    ([Log(WARN, failureLogKey, logMap, Some(error))], firstDelayMillis * retry)
  }

  /** The delays grow linearly: the first is `firstDelayMillis`, and each later one adds `firstDelayMillis`. */
  lemma BackOffIsLinear(failureLogKey: string, error: Throwable, firstDelayMillis: int, retry: int)
    ensures BackOffStep(failureLogKey, error, 1, firstDelayMillis := firstDelayMillis).1 == firstDelayMillis
    ensures BackOffStep(failureLogKey, error, retry + 1, firstDelayMillis := firstDelayMillis).1
      == BackOffStep(failureLogKey, error, retry, firstDelayMillis := firstDelayMillis).1 + firstDelayMillis
  {
  }

  /** With the defaults, the three retries sleep 20, 40 and 60 ms. */
  lemma BackOffDefaults(failureLogKey: string, error: Throwable)
    ensures BackOffStep(failureLogKey, error, 1).1 == 20
    ensures BackOffStep(failureLogKey, error, 2).1 == 40
    ensures BackOffStep(failureLogKey, error, 3).1 == 60
  {
  }
}
