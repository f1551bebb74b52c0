/**
 * JVM throwables, reduced to what the modelled code observes: an identity
 * and the list of suppressed throwables that `addSuppressed` appends to.
 */
module Throwables {
  import opened Wrappers

  /**
   * A throwable the modelled code receives from elsewhere has an `id`
   * standing for its object identity. `SelfSuppression` is the
   * IllegalArgumentException that `addSuppressed` throws when asked to
   * suppress a throwable into itself; its cause is that throwable.
   * `suppressed` is in insertion order.
   */
  datatype Throwable =
    | Throwable(id: nat, suppressed: seq<Throwable>)
    | SelfSuppression(cause: Throwable, suppressed: seq<Throwable>)

  /** What a block or a promise ends with: its value, or the throwable it raised. */
  type Outcome<T> = Result<T, Throwable>

  /**
   * Whether `a` and `b` are one object, as Java's `==` on references. Only
   * throwables with an identity are compared: the modelled code never
   * suppresses a `SelfSuppression` into itself.
   */
  predicate SameObject(a: Throwable, b: Throwable) {
    a.Throwable? && b.Throwable? && a.id == b.id
  }

  /** The same object after a change of state: same kind, same identity or cause. */
  predicate SameIdentity(before: Throwable, after: Throwable) {
    && before.Throwable? == after.Throwable?
    && (before.Throwable? ==> before.id == after.id)
    && (before.SelfSuppression? ==> before.cause == after.cause)
  }

  /**
   * `t.addSuppressed(s)`: `s` goes to the end of `t`'s suppressed list,
   * unless `s` is `t` itself, when the call throws instead.
   */
  function AddSuppressed(t: Throwable, s: Throwable): (r: Result<Throwable, Throwable>)
    ensures r.Failure? <==> SameObject(t, s)
    ensures r.Failure? ==> r.error == SelfSuppression(s, [])
    ensures r.Success? ==> SameIdentity(t, r.value)
    ensures r.Success? ==> r.value.suppressed == t.suppressed + [s]
  {
    if SameObject(t, s) then Failure(SelfSuppression(s, []))
    else Success(t.(suppressed := t.suppressed + [s]))
  }

  /** `ss[i]` is the first element of `ss` that is `t` itself. */
  predicate FirstSelf(t: Throwable, ss: seq<Throwable>, i: int) {
    0 <= i < |ss| && SameObject(t, ss[i]) && forall j :: 0 <= j < i ==> !SameObject(t, ss[j])
  }

  /**
   * Calls `addSuppressed` once per element of `ss`, in order; the first
   * call that throws ends the loop with its exception.
   */
  function AddAllSuppressed(t: Throwable, ss: seq<Throwable>): (r: Result<Throwable, Throwable>)
    ensures r.Success? <==> forall i :: 0 <= i < |ss| ==> !SameObject(t, ss[i])
    ensures r.Success? ==> SameIdentity(t, r.value)
    ensures r.Success? ==> r.value.suppressed == t.suppressed + ss
    ensures r.Failure? ==> exists i :: FirstSelf(t, ss, i) && r.error == SelfSuppression(ss[i], [])
    decreases |ss|
  {
    if ss == [] then Success(t)
    else match AddSuppressed(t, ss[0])
      case Failure(e) => Failure(e)
      case Success(t') =>
        var r := AddAllSuppressed(t', ss[1..]);
        assert forall i :: 1 <= i < |ss| ==> ss[i] == ss[1..][i - 1];
        assert r.Failure? ==> exists i :: FirstSelf(t, ss, i) && r.error == SelfSuppression(ss[i], []) by {
          if r.Failure? {
            var k :| FirstSelf(t', ss[1..], k) && r.error == SelfSuppression(ss[1..][k], []);
            assert FirstSelf(t, ss, k + 1);
          }
        }
        r
  }

  /** The throwable that leaves a block which ends in `throw`: the one built, or the one that interrupted building it. */
  function Escaping(r: Result<Throwable, Throwable>): Throwable {
    match r
    case Success(t) => t
    case Failure(e) => e
  }

  /**
   * `s?.let { t.addSuppressed(it) }` followed by raising `t`: with no `s`,
   * `t` itself; with a different `s`, `t` carrying `s` last; with `t`
   * itself, the IllegalArgumentException raised by `addSuppressed`.
   */
  function WithOptionalSuppressed(t: Throwable, s: Option<Throwable>): (r: Throwable)
    ensures s.None? ==> r == t
    ensures s.Some? && !SameObject(t, s.value) ==> SameIdentity(t, r) && r.suppressed == t.suppressed + [s.value]
    ensures s.Some? && SameObject(t, s.value) ==> r == SelfSuppression(s.value, [])
  {
    match s
    case None => t
    case Some(x) => Escaping(AddSuppressed(t, x))
  }
}
