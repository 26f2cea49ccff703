/** The retry loop around a fallible asynchronous call.  The call is an oracle: `fn(k)` is
    the outcome of the k-th call (counted from 0).  Waiting is not performed; the waits the
    loop would sleep are recorded, together with the notifications `onRetry` receives. */
module Backoff {
  import opened Wrappers

  const DEFAULT_RETRIES := 3
  const DEFAULT_BASE_MS := 1000
  const DEFAULT_FACTOR := 3

  datatype Outcome<+T, +E> = Success(value: T) | Failure(error: E)

  /** What the loop throws: an error of the call, or the generic error for a loop that
      never called. */
  datatype Thrown<+E> = Raised(error: E) | NoError

  /** The options; absent fields take their defaults. */
  datatype BackoffOptions<!E> = BackoffOptions(retries: Option<int>, baseMs: Option<int>, factor: Option<int>,
                                              shouldRetry: Option<E -> bool>)

  datatype Settings<!E> = Settings(retries: int, baseMs: int, factor: int, shouldRetry: E -> bool)

  /** The effective settings: 3 retries, a 1000 ms base and a factor of 3 by default, and
      every error retried unless `shouldRetry` says otherwise. */
  function Resolve<E(!new)>(options: BackoffOptions<E>): (s: Settings<E>)
    ensures s.retries == options.retries.GetOr(DEFAULT_RETRIES)
    ensures s.baseMs == options.baseMs.GetOr(DEFAULT_BASE_MS)
    ensures s.factor == options.factor.GetOr(DEFAULT_FACTOR)
    ensures options.shouldRetry.Some? ==> s.shouldRetry == options.shouldRetry.value
    ensures options.shouldRetry.None? ==> forall e :: s.shouldRetry(e)
  {
    Settings(options.retries.GetOr(DEFAULT_RETRIES), options.baseMs.GetOr(DEFAULT_BASE_MS),
             options.factor.GetOr(DEFAULT_FACTOR),
             match options.shouldRetry
             case Some(p) => p
             case None => (e: E) => true)
  }

  /** What a run of the loop produces: its result, how many times it called `fn`, the
      `(error, attempt)` pairs passed to `onRetry`, and the waits in milliseconds. */
  datatype Trace<+T, +E> = Trace(result: Result<T, Thrown<E>>, calls: nat, notified: seq<(E, nat)>, waits: seq<int>)

  function Pow(b: int, n: nat): int {
    if n == 0 then 1 else b * Pow(b, n - 1)
  }

  /** The wait after the failure of attempt `k`. */
  function Wait(s: Settings, k: nat): int {
    s.baseMs * Pow(s.factor, k)
  }

  /** The loop from attempt `attempt` on: a reference definition of one attempt after the
      other. */
  function RunFrom<T, E(!new)>(fn: nat -> Outcome<T, E>, s: Settings<E>, attempt: nat): (t: Trace<T, E>)
    ensures t.calls >= attempt
    decreases s.retries - attempt
  {
    if attempt > s.retries then Trace(Err(NoError), attempt, [], [])
    else match fn(attempt)
      case Success(v) => Trace(Ok(v), attempt + 1, [], [])
      case Failure(e) =>
        if attempt == s.retries || !s.shouldRetry(e) then Trace(Err(Raised(e)), attempt + 1, [], [])
        else
          var rest := RunFrom(fn, s, attempt + 1);
          Trace(rest.result, rest.calls, [(e, attempt + 1)] + rest.notified, [Wait(s, attempt)] + rest.waits)
  }

  /** The loop's behaviour stated call by call: with negative `retries` there is no call
      and the generic error; otherwise there are between 1 and `retries + 1` calls, every
      call but the last failed with an error to be retried, `onRetry` was told about each
      of those with attempt numbers 1, 2, ... and a wait of `baseMs * factor^k` followed
      failure k, and the run ends with the last call's outcome: its value or its own error,
      the error only when that was the last allowed attempt or not to be retried. */
  ghost predicate Describes<T, E(!new)>(fn: nat -> Outcome<T, E>, s: Settings<E>, t: Trace<T, E>) {
    if s.retries < 0 then t == Trace(Err(NoError), 0, [], [])
    else
      1 <= t.calls <= s.retries + 1 &&
      |t.notified| == t.calls - 1 && |t.waits| == t.calls - 1 &&
      (forall k :: 0 <= k < t.calls - 1 ==>
        fn(k).Failure? && s.shouldRetry(fn(k).error) &&
        t.notified[k] == (fn(k).error, k + 1) && t.waits[k] == Wait(s, k)) &&
      match fn(t.calls - 1)
      case Success(v) => t.result == Ok(v)
      case Failure(e) => t.result == Err(Raised(e)) && (t.calls - 1 == s.retries || !s.shouldRetry(e))
  }

  /** `withBackoff`. */
  method WithBackoff<T, E(!new)>(fn: nat -> Outcome<T, E>, options: BackoffOptions<E>) returns (t: Trace<T, E>)
    ensures Describes(fn, Resolve(options), t)
    ensures t == RunFrom(fn, Resolve(options), 0)
  {
    var s := Resolve(options);
    var retries, baseMs, factor, shouldRetry := s.retries, s.baseMs, s.factor, s.shouldRetry;
    var attempt: nat := 0;
    var lastError: Option<E> := None;
    var notified: seq<(E, nat)> := [];
    var waits: seq<int> := [];
    while attempt <= retries
      invariant attempt == 0 || attempt <= retries
      invariant attempt == 0 <==> lastError.None?
      invariant |notified| == attempt && |waits| == attempt
      invariant forall k :: 0 <= k < attempt ==>
        fn(k).Failure? && shouldRetry(fn(k).error) && notified[k] == (fn(k).error, k + 1) && waits[k] == Wait(s, k)
      decreases retries - attempt
    {
      match fn(attempt)
      case Success(v) =>
        t := Trace(Ok(v), attempt + 1, notified, waits);
        DescribesRunFrom(fn, s, t);
        return;
      case Failure(error) =>
        lastError := Some(error);
        if attempt == retries || !shouldRetry(error) {
          t := Trace(Err(Raised(error)), attempt + 1, notified, waits);
          DescribesRunFrom(fn, s, t);
          return;
        }
        notified := notified + [(error, attempt + 1)];
        var waitMs := baseMs * Pow(factor, attempt);
        waits := waits + [waitMs];
        attempt := attempt + 1;
    }
    match lastError
    case Some(e) =>
      t := Trace(Err(Raised(e)), attempt, notified, waits);
    case None =>
      t := Trace(Err(NoError), attempt, notified, waits);
    DescribesRunFrom(fn, s, t);
  }

  // ---------------------------------------------------------------------------
  // Properties

  /** The call-by-call behaviour of the calls from attempt `attempt` on. */
  ghost predicate ShapeFrom<T, E(!new)>(fn: nat -> Outcome<T, E>, s: Settings<E>, t: Trace<T, E>, attempt: nat) {
    attempt + 1 <= t.calls <= s.retries + 1 &&
    |t.notified| == t.calls - 1 - attempt && |t.waits| == t.calls - 1 - attempt &&
    (forall k :: attempt <= k < t.calls - 1 ==>
      fn(k).Failure? && s.shouldRetry(fn(k).error) &&
      t.notified[k - attempt] == (fn(k).error, k + 1) && t.waits[k - attempt] == Wait(s, k)) &&
    (fn(t.calls - 1).Success? ==> t.result == Ok(fn(t.calls - 1).value)) &&
    (fn(t.calls - 1).Failure? ==>
      t.result == Err(Raised(fn(t.calls - 1).error)) &&
      (t.calls - 1 == s.retries || !s.shouldRetry(fn(t.calls - 1).error)))
  }

  /** The behaviour from the first call on is the behaviour `Describes` states. */
  lemma ShapeDescribes<T, E(!new)>(fn: nat -> Outcome<T, E>, s: Settings<E>, t: Trace<T, E>)
    requires s.retries >= 0 && ShapeFrom(fn, s, t, 0)
    ensures Describes(fn, s, t)
  {
  }

  /** The reference definition, from attempt `attempt` on, described call by call. */
  lemma {:induction false} RunFromShape<T, E(!new)>(fn: nat -> Outcome<T, E>, s: Settings<E>, attempt: nat)
    requires attempt <= s.retries
    ensures ShapeFrom(fn, s, RunFrom(fn, s, attempt), attempt)
    decreases s.retries - attempt
  {
    match fn(attempt)
    case Success(v) =>
    case Failure(e) =>
      if attempt < s.retries && s.shouldRetry(e) {
        RunFromShape(fn, s, attempt + 1);
        ShapeStep(fn, s, attempt, RunFrom(fn, s, attempt + 1));
      }
  }

  /** A retried failure in front of the calls after it. */
  lemma ShapeStep<T, E(!new)>(fn: nat -> Outcome<T, E>, s: Settings<E>, attempt: nat, rest: Trace<T, E>)
    requires attempt < s.retries && fn(attempt).Failure? && s.shouldRetry(fn(attempt).error)
    requires ShapeFrom(fn, s, rest, attempt + 1)
    ensures ShapeFrom(fn, s, Trace(rest.result, rest.calls, [(fn(attempt).error, attempt + 1)] + rest.notified,
                                   [Wait(s, attempt)] + rest.waits), attempt)
  {
    var t := Trace(rest.result, rest.calls, [(fn(attempt).error, attempt + 1)] + rest.notified, [Wait(s, attempt)] + rest.waits);
    assert forall j :: 1 <= j < |t.notified| ==> t.notified[j] == rest.notified[j - 1];
    assert forall j :: 1 <= j < |t.waits| ==> t.waits[j] == rest.waits[j - 1];
  }

  /** The reference definition has the call-by-call behaviour. */
  lemma RunFromDescribed<T, E(!new)>(fn: nat -> Outcome<T, E>, s: Settings<E>)
    ensures Describes(fn, s, RunFrom(fn, s, 0))
  {
    if s.retries >= 0 {
      RunFromShape(fn, s, 0);
      ShapeDescribes(fn, s, RunFrom(fn, s, 0));
    }
  }

  /** The call-by-call behaviour determines the run. */
  lemma DescribesUnique<T, E(!new)>(fn: nat -> Outcome<T, E>, s: Settings<E>, t: Trace<T, E>, t': Trace<T, E>)
    requires Describes(fn, s, t) && Describes(fn, s, t')
    ensures t == t'
  {
    if s.retries >= 0 {
      assert t.calls == t'.calls;
      assert t.notified == t'.notified;
      assert t.waits == t'.waits;
    }
  }

  /** A run with the call-by-call behaviour is the reference run. */
  lemma DescribesRunFrom<T, E(!new)>(fn: nat -> Outcome<T, E>, s: Settings<E>, t: Trace<T, E>)
    requires Describes(fn, s, t)
    ensures t == RunFrom(fn, s, 0)
  {
    RunFromDescribed(fn, s);
    DescribesUnique(fn, s, t, RunFrom(fn, s, 0));
  }

  /** `fn` is called at least once and at most `retries + 1` times; the result is the
      outcome of the last call, which is the first success, or its error, thrown as is. */
  lemma CallsBounded<T, E(!new)>(fn: nat -> Outcome<T, E>, options: BackoffOptions<E>)
    requires Resolve(options).retries >= 0
    ensures var t := RunFrom(fn, Resolve(options), 0);
      1 <= t.calls <= Resolve(options).retries + 1 &&
      (forall k :: 0 <= k < t.calls - 1 ==> fn(k).Failure?) &&
      (t.result.Ok? <==> fn(t.calls - 1).Success?) &&
      (t.result.Ok? ==> t.result.value == fn(t.calls - 1).value) &&
      (t.result.Err? ==> t.result.error == Raised(fn(t.calls - 1).error))
  {
    RunFromShape(fn, Resolve(options), 0);
  }

  /** `onRetry` is called once per retried failure, with attempt numbers 1, 2, ... in
      order, and the wait after the failure of attempt k is `baseMs * factor^k`. */
  lemma RetriesNotified<T, E(!new)>(fn: nat -> Outcome<T, E>, options: BackoffOptions<E>)
    requires Resolve(options).retries >= 0
    ensures var t := RunFrom(fn, Resolve(options), 0);
      |t.notified| == |t.waits| == t.calls - 1 &&
      forall k :: 0 <= k < |t.notified| ==>
        fn(k).Failure? && t.notified[k] == (fn(k).error, k + 1) &&
        t.waits[k] == options.baseMs.GetOr(DEFAULT_BASE_MS) * Pow(options.factor.GetOr(DEFAULT_FACTOR), k)
  {
    RunFromDescribed(fn, Resolve(options));
  }

  /** An error that is not to be retried is rethrown at once: no later call, no `onRetry`
      for it and no wait after it. */
  lemma NoRetryStops<T, E(!new)>(fn: nat -> Outcome<T, E>, options: BackoffOptions<E>, k: nat)
    requires Resolve(options).retries >= 0
    requires fn(k).Failure? && !Resolve(options).shouldRetry(fn(k).error)
    requires forall j :: 0 <= j < k ==> fn(j).Failure? && Resolve(options).shouldRetry(fn(j).error)
    requires k <= Resolve(options).retries
    ensures var t := RunFrom(fn, Resolve(options), 0);
      t.calls == k + 1 && t.result == Err(Raised(fn(k).error)) && |t.notified| == k && |t.waits| == k
  {
    RunFromShape(fn, Resolve(options), 0);
  }

  /** A success ends the loop at once with its value. */
  lemma FirstSuccessReturned<T, E(!new)>(fn: nat -> Outcome<T, E>, options: BackoffOptions<E>, k: nat)
    requires fn(k).Success?
    requires forall j :: 0 <= j < k ==> fn(j).Failure? && Resolve(options).shouldRetry(fn(j).error)
    requires k <= Resolve(options).retries
    ensures var t := RunFrom(fn, Resolve(options), 0);
      t.calls == k + 1 && t.result == Ok(fn(k).value) && |t.notified| == k
  {
    RunFromShape(fn, Resolve(options), 0);
  }

  /** With negative `retries` the call is never made and the generic error is thrown. */
  lemma NegativeRetries<T, E(!new)>(fn: nat -> Outcome<T, E>, options: BackoffOptions<E>)
    requires Resolve(options).retries < 0
    ensures RunFrom(fn, Resolve(options), 0) == Trace(Err(NoError), 0, [], [])
  {
  }

  /** An always failing call with `retries = 2` and the default `shouldRetry` is made
      exactly three times; the last error is rethrown. */
  lemma AlwaysFailingTwoRetries<T, E(!new)>(fn: nat -> Outcome<T, E>, baseMs: Option<int>, factor: Option<int>)
    requires forall k :: fn(k).Failure?
    ensures var t := RunFrom(fn, Resolve(BackoffOptions(Some(2), baseMs, factor, None)), 0);
      t.calls == 3 && t.result == Err(Raised(fn(2).error)) && |t.notified| == 2
  {
    var s := Resolve(BackoffOptions(Some(2), baseMs, factor, None));
    RunFromShape(fn, s, 0);
  }

  /** Failing twice and then succeeding with the defaults gives exactly two `onRetry`
      calls, numbered 1 and 2, and waits of 1000 and 3000 ms. */
  lemma FailTwiceThenSucceed<T, E(!new)>(fn: nat -> Outcome<T, E>)
    requires fn(0).Failure? && fn(1).Failure? && fn(2).Success?
    ensures var t := RunFrom(fn, Resolve(BackoffOptions(None, None, None, None)), 0);
      t.result == Ok(fn(2).value) && t.calls == 3 &&
      t.notified == [(fn(0).error, 1), (fn(1).error, 2)] && t.waits == [1000, 3000]
  {
    var s: Settings<E> := Resolve(BackoffOptions(None, None, None, None));
    assert Pow(3, 1) == 3;
  }
}
