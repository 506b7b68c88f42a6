/** `retryWithTimeout`: run an asynchronous call, racing it against a timer,
    and retry on failure until `maxRetries` attempts have failed.

    Each attempt is abstracted to its outcome: the call returned a value, the
    call threw, or the timer fired first. The callbacks `onWarning` and
    `onError` are observed as a stream of events. */
module Retry {
  import opened Decimal

  /** What one attempt of the wrapped call came to. */
  datatype Outcome<+T, +E> = Ok(value: T) | Err(error: E) | Timeout

  /** The exception a failed attempt rejects with: the call's own error, or
      the timer's message. */
  datatype Failure<+E> = Thrown(error: E) | TimedOut(message: string)

  /** The options of `retryWithTimeout` other than the callbacks. */
  datatype Policy = Policy(fnName: string, timeoutMs: nat, maxRetries: int)

  /** A callback invocation: `onWarning(retriesLeft, ex)` or `onError(ex)`. */
  datatype Event<+E> = Warned(retriesLeft: int, failure: Failure<E>) | Errored(failure: Failure<E>)

  /** How the loop ended: by returning a value, by rethrowing a failure, or not
      (yet) at all, because the attempts given ran out while it was still
      retrying. */
  datatype Exit<+T, +E> = Returned(value: T) | Rethrown(failure: Failure<E>) | Pending

  /** Everything observable about one run: its exit, the callbacks fired in
      order, and how many times the wrapped call was started. */
  datatype Trace<+T, +E> = Trace(exit: Exit<T, E>, events: seq<Event<E>>, calls: nat)

  /** The rejection reason of the timer. */
  function TimeoutMessage(p: Policy): (m: string)
    ensures |m| > |p.fnName|
  {
    p.fnName + " did not return within " + NatToString(p.timeoutMs) + "ms."
  }

  /** The exception caught for a failed attempt. */
  function FailureOf<T, E>(p: Policy, o: Outcome<T, E>): (f: Failure<E>)
    requires !o.Ok?
    ensures o.Err? ==> f == Thrown(o.error)
    ensures o.Timeout? ==> f == TimedOut(TimeoutMessage(p))
  {
    if o.Err? then Thrown(o.error) else TimedOut(TimeoutMessage(p))
  }

  /** What the loop does with `retriesLeft` as it stands and `attempts` as
      the outcomes of the calls still to come. */
  function Attempts<T, E>(p: Policy, attempts: seq<Outcome<T, E>>, retriesLeft: int): (t: Trace<T, E>)
    ensures t.calls <= |attempts|
    ensures attempts != [] ==> t.calls >= 1
    ensures t.exit.Pending? ==> t.calls == |attempts|
  {
    if attempts == [] then Trace(Pending, [], 0)
    else if attempts[0].Ok? then Trace(Returned(attempts[0].value), [], 1)
    else
      var ex := FailureOf(p, attempts[0]);
      if retriesLeft - 1 == 0 then Trace(Rethrown(ex), [Errored(ex)], 1)
      else
        var rest := Attempts(p, attempts[1..], retriesLeft - 1);
        Trace(rest.exit, [Warned(retriesLeft - 1, ex)] + rest.events, rest.calls + 1)
  }

  /** A whole run: the loop starts with `retriesLeft = maxRetries`. */
  function Run<T, E>(p: Policy, attempts: seq<Outcome<T, E>>): (t: Trace<T, E>)
    ensures t.calls <= |attempts|
  {
    Attempts(p, attempts, p.maxRetries)
  }

  /** The trace of a run that has already fired `events` and made `calls`
      calls, and continues as `rest`. */
  function After<T, E>(events: seq<Event<E>>, calls: nat, rest: Trace<T, E>): (t: Trace<T, E>)
    ensures t.calls == calls + rest.calls && t.exit == rest.exit
  {
    Trace(rest.exit, events + rest.events, calls + rest.calls)
  }

  /** The loop of `retryWithTimeout`. The k-th call of `fn` (counting from 0)
      comes to `attempts[k]`; a timeout is one more kind of failure. */
  method RetryWithTimeout<T, E>(p: Policy, attempts: seq<Outcome<T, E>>)
    returns (exit: Exit<T, E>, events: seq<Event<E>>, calls: nat)
    ensures Trace(exit, events, calls) == Run(p, attempts)
  {
    var retriesLeft := p.maxRetries;
    exit, events, calls := Pending, [], 0;
    while calls < |attempts|
      invariant calls <= |attempts|
      invariant Run(p, attempts) == After(events, calls, Attempts(p, attempts[calls..], retriesLeft))
    {
      var outcome := attempts[calls];
      assert attempts[calls..][0] == outcome;
      assert attempts[calls..][1..] == attempts[calls + 1..];
      calls := calls + 1;
      if outcome.Ok? {
        exit := Returned(outcome.value);
        return;
      }
      var ex := FailureOf(p, outcome);
      retriesLeft := retriesLeft - 1;
      if retriesLeft == 0 {
        events := events + [Errored(ex)];
        exit := Rethrown(ex);
        return;
      }
      events := events + [Warned(retriesLeft, ex)];
    }
    assert attempts[calls..] == [];
  }

  // ---------------------------------------------------------------------------
  // Properties of the retry loop

  /** If the first successful attempt is the (i+1)-th and the countdown does
      not reach 0 within the i failures before it, its value is returned after
      i warnings with retriesLeft = r-1, r-2, ..., r-i, and no error. */
  lemma {:induction false} SucceedsAfter<T, E>(p: Policy, attempts: seq<Outcome<T, E>>, r: int, i: nat)
    requires i < |attempts| && attempts[i].Ok?
    requires forall j :: 0 <= j < i ==> !attempts[j].Ok?
    requires r <= 0 || r > i
    ensures var t := Attempts(p, attempts, r);
            && t.exit == Returned(attempts[i].value)
            && t.calls == i + 1
            && |t.events| == i
            && forall j :: 0 <= j < i ==> t.events[j] == Warned(r - 1 - j, FailureOf(p, attempts[j]))
  {
    if i > 0 {
      SucceedsAfter(p, attempts[1..], r - 1, i - 1);
      var t := Attempts(p, attempts, r);
      var rest := Attempts(p, attempts[1..], r - 1);
      assert t.events == [Warned(r - 1, FailureOf(p, attempts[0]))] + rest.events;
      forall j | 0 < j < i ensures t.events[j] == Warned(r - 1 - j, FailureOf(p, attempts[j])) {
        assert t.events[j] == rest.events[j - 1];
        assert attempts[1..][j - 1] == attempts[j];
      }
    }
  }

  /** With maxRetries = k >= 1 and the first success at attempt i+1 <= k,
      retryWithTimeout returns that value, calls fn i+1 times, warns i times
      with retriesLeft = k-1, ..., k-i, and never calls onError. */
  lemma ReturnsFirstSuccess<T, E>(p: Policy, attempts: seq<Outcome<T, E>>, i: nat)
    requires p.maxRetries >= 1 && i < p.maxRetries
    requires i < |attempts| && attempts[i].Ok?
    requires forall j :: 0 <= j < i ==> !attempts[j].Ok?
    ensures var t := Run(p, attempts);
            && t.exit == Returned(attempts[i].value)
            && t.calls == i + 1
            && |t.events| == i
            && (forall j :: 0 <= j < i ==> t.events[j] == Warned(p.maxRetries - 1 - j, FailureOf(p, attempts[j])))
            && (forall j :: 0 <= j < |t.events| ==> !t.events[j].Errored?)
  {
    SucceedsAfter(p, attempts, p.maxRetries, i);
  }

  /** r failures in a row starting from retriesLeft = r: warnings with r-1, ...,
      1, then onError with the r-th failure, which is rethrown. */
  lemma {:induction false} ExhaustsAfter<T, E>(p: Policy, attempts: seq<Outcome<T, E>>, r: int)
    requires 1 <= r <= |attempts|
    requires forall j :: 0 <= j < r ==> !attempts[j].Ok?
    ensures var t := Attempts(p, attempts, r);
            && t.exit == Rethrown(FailureOf(p, attempts[r - 1]))
            && t.calls == r
            && |t.events| == r
            && (forall j :: 0 <= j < r - 1 ==> t.events[j] == Warned(r - 1 - j, FailureOf(p, attempts[j])))
            && t.events[r - 1] == Errored(FailureOf(p, attempts[r - 1]))
  {
    if r > 1 {
      ExhaustsAfter(p, attempts[1..], r - 1);
      var t := Attempts(p, attempts, r);
      var rest := Attempts(p, attempts[1..], r - 1);
      assert t.events == [Warned(r - 1, FailureOf(p, attempts[0]))] + rest.events;
      forall j | 0 < j < r ensures t.events[j] == rest.events[j - 1] && attempts[1..][j - 1] == attempts[j] {
      }
    }
  }

  /** With maxRetries = k >= 1 and k failures (thrown or timed out) in a row:
      onWarning(k-1), ..., onWarning(1), then onError once with the last
      failure, which is rethrown; fn ran exactly k times. */
  lemma RethrowsLastFailure<T, E>(p: Policy, attempts: seq<Outcome<T, E>>)
    requires 1 <= p.maxRetries <= |attempts|
    requires forall j :: 0 <= j < p.maxRetries ==> !attempts[j].Ok?
    ensures var t := Run(p, attempts);
            var k := p.maxRetries;
            && t.exit == Rethrown(FailureOf(p, attempts[k - 1]))
            && t.calls == k
            && |t.events| == k
            && (forall j :: 0 <= j < k - 1 ==> t.events[j] == Warned(k - 1 - j, FailureOf(p, attempts[j])))
            && t.events[k - 1] == Errored(FailureOf(p, attempts[k - 1]))
  {
    ExhaustsAfter(p, attempts, p.maxRetries);
  }

  /** Starting from retriesLeft <= 0 the countdown never meets 0: the loop
      never calls onError and never rethrows; it stops only on a success. */
  lemma {:induction false} NeverGivesUp<T, E>(p: Policy, attempts: seq<Outcome<T, E>>, r: int)
    requires r <= 0
    ensures var t := Attempts(p, attempts, r);
            && !t.exit.Rethrown?
            && (forall j :: 0 <= j < |t.events| ==> t.events[j].Warned?)
            && (t.exit.Pending? <==> forall j :: 0 <= j < |attempts| ==> !attempts[j].Ok?)
  {
    if attempts != [] && !attempts[0].Ok? {
      NeverGivesUp(p, attempts[1..], r - 1);
      var t := Attempts(p, attempts, r);
      var rest := Attempts(p, attempts[1..], r - 1);
      assert t.events == [Warned(r - 1, FailureOf(p, attempts[0]))] + rest.events;
      assert forall j :: 0 < j < |attempts| ==> attempts[1..][j - 1] == attempts[j];
    }
  }

  /** With maxRetries <= 0, retryWithTimeout ends only on success. */
  lemma EndsOnlyOnSuccess<T, E>(p: Policy, attempts: seq<Outcome<T, E>>)
    requires p.maxRetries <= 0
    ensures var t := Run(p, attempts);
            && !t.exit.Rethrown?
            && (forall j :: 0 <= j < |t.events| ==> t.events[j].Warned?)
            && (t.exit.Pending? <==> forall j :: 0 <= j < |attempts| ==> !attempts[j].Ok?)
  {
    NeverGivesUp(p, attempts, p.maxRetries);
  }

  /** From retriesLeft = r >= 1 at most r calls are made, so r scripted
      attempts are always enough to reach an exit. */
  lemma {:induction false} AttemptsBounded<T, E>(p: Policy, attempts: seq<Outcome<T, E>>, r: int)
    requires r >= 1
    ensures Attempts(p, attempts, r).calls <= r
    ensures |attempts| >= r ==> !Attempts(p, attempts, r).exit.Pending?
  {
    if attempts != [] && !attempts[0].Ok? && r > 1 {
      AttemptsBounded(p, attempts[1..], r - 1);
    }
  }

  /** A run with maxRetries >= 1 calls fn at most maxRetries times and, given
      that many attempts, always returns or rethrows. */
  lemma RunBounded<T, E>(p: Policy, attempts: seq<Outcome<T, E>>)
    requires p.maxRetries >= 1
    ensures Run(p, attempts).calls <= p.maxRetries
    ensures |attempts| >= p.maxRetries ==> !Run(p, attempts).exit.Pending?
  {
    AttemptsBounded(p, attempts, p.maxRetries);
  }

  // ---------------------------------------------------------------------------
  // A timeout counts the same as a thrown error

  /** The trace with every failure made anonymous. */
  function Shape<T, E>(t: Trace<T, E>): (s: Trace<T, ()>)
    ensures s.calls == t.calls && |s.events| == |t.events|
  {
    Trace(ShapeOfExit(t.exit), ShapeOfEvents(t.events), t.calls)
  }

  function ShapeOfExit<T, E>(x: Exit<T, E>): Exit<T, ()> {
    match x
    case Returned(v) => Returned(v)
    case Rethrown(_) => Rethrown(Thrown(()))
    case Pending => Pending
  }

  function ShapeOfEvents<E>(es: seq<Event<E>>): (r: seq<Event<()>>)
    ensures |r| == |es|
  {
    if es == [] then []
    else
      var head := match es[0]
        case Warned(n, _) => Warned(n, Thrown(()))
        case Errored(_) => Errored(Thrown(()));
      [head] + ShapeOfEvents(es[1..])
  }

  /** Two attempt sequences that succeed at the same places with the same values. */
  ghost predicate SameSuccesses<T, E>(a: seq<Outcome<T, E>>, b: seq<Outcome<T, E>>) {
    |a| == |b| && forall j :: 0 <= j < |a| ==> (a[j].Ok? <==> b[j].Ok?) && (a[j].Ok? ==> a[j] == b[j])
  }

  /** Whether a failure was thrown or timed out (and which error it was) does
      not change the returned value, the rethrow decision, the number of calls,
      or the retriesLeft passed to each warning. */
  lemma {:induction false} TimeoutCountsAsFailure<T, E>(p: Policy, a: seq<Outcome<T, E>>, b: seq<Outcome<T, E>>, r: int)
    requires SameSuccesses(a, b)
    ensures Shape(Attempts(p, a, r)) == Shape(Attempts(p, b, r))
  {
    if a != [] && !a[0].Ok? && r - 1 != 0 {
      assert SameSuccesses(a[1..], b[1..]) by {
        assert forall j :: 0 <= j < |a| - 1 ==> a[1..][j] == a[j + 1] && b[1..][j] == b[j + 1];
      }
      TimeoutCountsAsFailure(p, a[1..], b[1..], r - 1);
      var ea := Attempts(p, a, r).events;
      var eb := Attempts(p, b, r).events;
      assert ea[1..] == Attempts(p, a[1..], r - 1).events;
      assert eb[1..] == Attempts(p, b[1..], r - 1).events;
      assert ShapeOfEvents(ea) == [ShapeOfEvents(ea)[0]] + ShapeOfEvents(ea[1..]);
      assert ShapeOfEvents(eb) == [ShapeOfEvents(eb)[0]] + ShapeOfEvents(eb[1..]);
    }
  }
}
