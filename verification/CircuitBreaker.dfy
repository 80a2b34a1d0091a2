/** The circuit breaker around database calls, for calls made one at a time. */
module CircuitBreaking {

  datatype Phase = Closed | Open | HalfOpen

  datatype Limits = Limits(threshold: nat, recovery: real, maxProbes: nat) {
    predicate Valid() { threshold >= 1 && maxProbes >= 1 && recovery > 0.0 }
  }

  datatype Breaker = Breaker(phase: Phase, failures: nat, lastFailure: real, probes: nat)

  const FRESH := Breaker(Closed, 0, 0.0, 0)

  /** A call as its caller sees it: when it starts, when the function would return, and whether it would succeed. */
  datatype Call = Call(start: real, end: real, ok: bool)

  datatype Outcome = Rejected | Succeeded | Failed

  /** What happens before the function runs: rejection, or admission possibly as a probe. */
  function Admit(lim: Limits, b: Breaker, now: real): (Breaker, bool) {
    var b1 := if b.phase.Open? && now - b.lastFailure >= lim.recovery then b.(phase := HalfOpen, probes := 0) else b;
    if b1.phase.Open? then (b1, false)
    else if b1.phase.HalfOpen? then
      if b1.probes >= lim.maxProbes then (b1, false) else (b1.(probes := b1.probes + 1), true)
    else (b1, true)
  }

  function OnSuccess(b: Breaker): Breaker {
    if b.phase.HalfOpen? then b.(failures := 0, phase := Closed, probes := 0) else b.(failures := 0)
  }

  function OnFailure(lim: Limits, b: Breaker, now: real): Breaker {
    var b1 := b.(failures := b.failures + 1, lastFailure := now);
    if b1.failures >= lim.threshold then b1.(phase := Open, probes := 0) else b1
  }

  function Step(lim: Limits, b: Breaker, c: Call): (Breaker, Outcome) {
    var (b1, admitted) := Admit(lim, b, c.start);
    if !admitted then (b1, Rejected)
    else if c.ok then (OnSuccess(b1), Succeeded)
    else (OnFailure(lim, b1, c.end), Failed)
  }

  function After(lim: Limits, b: Breaker, calls: seq<Call>): Breaker {
    if calls == [] then b else Step(lim, After(lim, b, calls[..|calls| - 1]), calls[|calls| - 1]).0
  }

  function OutcomeOf(lim: Limits, b: Breaker, calls: seq<Call>): Outcome
    requires calls != []
  {
    Step(lim, After(lim, b, calls[..|calls| - 1]), calls[|calls| - 1]).1
  }

  /** The failures since the last success among the calls that reached the function. */
  function TrailingFailures(lim: Limits, calls: seq<Call>): nat {
    if calls == [] then 0
    else
      match OutcomeOf(lim, FRESH, calls)
      case Rejected => TrailingFailures(lim, calls[..|calls| - 1])
      case Succeeded => 0
      case Failed => TrailingFailures(lim, calls[..|calls| - 1]) + 1
  }

  /** Between calls: never half-open, and open exactly when the failures have reached the threshold. */
  ghost predicate Settled(lim: Limits, b: Breaker) {
    !b.phase.HalfOpen? && (b.phase.Open? <==> b.failures >= lim.threshold)
  }

  lemma {:induction false} AfterIsSettled(lim: Limits, b: Breaker, calls: seq<Call>)
    requires lim.Valid() && Settled(lim, b)
    ensures Settled(lim, After(lim, b, calls))
  {
    if calls != [] {
      AfterIsSettled(lim, b, calls[..|calls| - 1]);
    }
  }

  /** The breaker is open exactly when the calls executed since the last success were at least the threshold. */
  lemma {:induction false} OpenIffTrailingFailures(lim: Limits, calls: seq<Call>)
    requires lim.Valid()
    ensures var b := After(lim, FRESH, calls);
      && !b.phase.HalfOpen?
      && b.failures == TrailingFailures(lim, calls)
      && (b.phase.Open? <==> TrailingFailures(lim, calls) >= lim.threshold)
  {
    AfterIsSettled(lim, FRESH, calls);
    if calls != [] {
      OpenIffTrailingFailures(lim, calls[..|calls| - 1]);
    }
  }

  /** When the last call that failed ended. */
  function LastFailureEnd(lim: Limits, calls: seq<Call>): real {
    if calls == [] then 0.0
    else if OutcomeOf(lim, FRESH, calls).Failed? then calls[|calls| - 1].end
    else LastFailureEnd(lim, calls[..|calls| - 1])
  }

  lemma {:induction false} LastFailureIs(lim: Limits, calls: seq<Call>)
    requires lim.Valid()
    ensures After(lim, FRESH, calls).lastFailure == LastFailureEnd(lim, calls)
  {
    if calls != [] {
      LastFailureIs(lim, calls[..|calls| - 1]);
    }
  }

  /**
   * A call is rejected exactly when the failures since the last success have reached the threshold and the last of
   * them is less than a recovery period old; otherwise it runs, and its outcome is its own.
   */
  lemma RejectedIff(lim: Limits, calls: seq<Call>)
    requires lim.Valid() && calls != []
    ensures var front, c := calls[..|calls| - 1], calls[|calls| - 1];
      OutcomeOf(lim, FRESH, calls) ==
        if TrailingFailures(lim, front) >= lim.threshold && c.start - LastFailureEnd(lim, front) < lim.recovery
        then Rejected
        else if c.ok then Succeeded else Failed
  {
    OpenIffTrailingFailures(lim, calls[..|calls| - 1]);
    LastFailureIs(lim, calls[..|calls| - 1]);
  }

  // ---- How often a failing function is reached ----

  /** The calls that reach the function. */
  function Executed(lim: Limits, b: Breaker, calls: seq<Call>): nat {
    if calls == [] then 0
    else Executed(lim, b, calls[..|calls| - 1]) + if OutcomeOf(lim, b, calls).Rejected? then 0 else 1
  }

  /** Calls one after another, all starting between `from` and `to`. */
  ghost predicate Sequential(calls: seq<Call>, from: real, to: real) {
    && (forall i :: 0 <= i < |calls| ==> from <= calls[i].start <= to && calls[i].start <= calls[i].end)
    && forall i, j :: 0 <= i < j < |calls| ==> calls[i].end <= calls[j].start
  }

  /** No call reaches the function and succeeds; what a rejected one would have done does not matter. */
  predicate NoSuccess(lim: Limits, b: Breaker, calls: seq<Call>) {
    || calls == []
    || (!OutcomeOf(lim, b, calls).Succeeded? && NoSuccess(lim, b, calls[..|calls| - 1]))
  }

  /** The length of `n` periods of length `r`. */
  function Scaled(n: nat, r: real): real {
    if n == 0 then 0.0 else Scaled(n - 1, r) + r
  }

  lemma {:induction false} ScaledIsProduct(n: nat, r: real)
    ensures Scaled(n, r) == n as real * r
  {
    if n > 0 {
      ScaledIsProduct(n - 1, r);
      var m := (n - 1) as real;
      assert n as real == m + 1.0;
      OneMoreTime(m, r);
    }
  }

  lemma OneMoreTime(m: real, r: real)
    ensures (m + 1.0) * r == m * r + r
  {
  }

  lemma LastOfSequence(calls: seq<Call>, from: real, to: real)
    requires Sequential(calls, from, to) && calls != []
    ensures Sequential(calls[..|calls| - 1], from, to)
    ensures var c := calls[|calls| - 1]; from <= c.start <= to && c.start <= c.end
  {
  }

  /**
   * After `n` executed calls the breaker has counted them all, and the last of them, started at `last`, was
   * at least one recovery period per call beyond the threshold into the span.
   */
  ghost predicate Spaced(lim: Limits, b: Breaker, now: Breaker, n: nat, last: real, from: real, to: real) {
    && now.failures == b.failures + n
    && (n > 0 ==> from <= last <= to && last <= now.lastFailure)
    && (n > lim.threshold ==> last >= from + Scaled(n - lim.threshold, lim.recovery))
  }

  /** One more failed call keeps the distance, because an open breaker lets it through no sooner. */
  lemma FailureKeepsDistance(lim: Limits, b: Breaker, now: Breaker, n: nat, last: real, from: real, to: real, c: Call)
    requires lim.Valid() && Settled(lim, now) && Spaced(lim, b, now, n, last, from, to)
    requires from <= c.start <= to && c.start <= c.end && Step(lim, now, c).1.Failed?
    ensures Spaced(lim, b, Step(lim, now, c).0, n + 1, c.start, from, to)
  {
    FailedStep(lim, now, c);
  }

  lemma {:induction false} ExecutedCallsAreSpaced(lim: Limits, b: Breaker, calls: seq<Call>, from: real, to: real)
    returns (last: real)
    requires lim.Valid() && Settled(lim, b)
    requires Sequential(calls, from, to) && NoSuccess(lim, b, calls)
    ensures Spaced(lim, b, After(lim, b, calls), Executed(lim, b, calls), last, from, to)
  {
    last := from;
    if calls != [] {
      var front, c := calls[..|calls| - 1], calls[|calls| - 1];
      LastOfSequence(calls, from, to);
      last := ExecutedCallsAreSpaced(lim, b, front, from, to);
      AfterIsSettled(lim, b, front);
      var before := After(lim, b, front);
      if OutcomeOf(lim, b, calls).Rejected? {
        RejectedStep(lim, before, c);
      } else {
        FailureKeepsDistance(lim, b, before, Executed(lim, b, front), last, from, to, c);
        last := c.start;
      }
    }
  }

  lemma RejectedStep(lim: Limits, b: Breaker, c: Call)
    requires lim.Valid() && Settled(lim, b) && Step(lim, b, c).1.Rejected?
    ensures Step(lim, b, c).0 == b
  {
  }

  /** A call that fails counts, and reached the function only if the breaker was closed or its recovery period over. */
  lemma FailedStep(lim: Limits, b: Breaker, c: Call)
    requires lim.Valid() && Settled(lim, b) && Step(lim, b, c).1.Failed?
    ensures Step(lim, b, c).0.failures == b.failures + 1 && Step(lim, b, c).0.lastFailure == c.end
    ensures b.failures >= lim.threshold ==> c.start >= b.lastFailure + lim.recovery
  {
  }

  lemma ProductGrows(a: real, b: real, r: real)
    requires r > 0.0
    ensures a > b ==> a * r > b * r
  {
    if a > b {
      assert (a - b) * r > 0.0;
    }
  }

  lemma WholePeriods(n: nat, r: real, length: real)
    requires r > 0.0 && Scaled(n, r) <= length
    ensures n <= (length / r).Floor
  {
    ScaledIsProduct(n, r);
    var q := length / r;
    assert q * r == length;
    ProductGrows(n as real, q, r);
    assert n as real <= q;
  }

  /** In any span without a success, at most threshold + floor(length / recovery) calls reach the function. */
  lemma FailingCallsAreRateLimited(lim: Limits, b: Breaker, calls: seq<Call>, from: real, length: real)
    requires lim.Valid() && Settled(lim, b) && length >= 0.0
    requires Sequential(calls, from, from + length) && NoSuccess(lim, b, calls)
    ensures Executed(lim, b, calls) <= lim.threshold + (length / lim.recovery).Floor
  {
    var last := ExecutedCallsAreSpaced(lim, b, calls, from, from + length);
    var n := Executed(lim, b, calls) - lim.threshold;
    if n > 0 {
      WholePeriods(n, lim.recovery, length);
    } else {
      WholePeriods(0, lim.recovery, length);
    }
  }

  /** A first burst of failures, and then one probe at the end of each of `n` recovery periods, without any delay. */
  function WorstCase(lim: Limits, n: nat): seq<Call>
    requires lim.Valid()
  {
    if n == 0 then Burst(lim.threshold)
    else WorstCase(lim, n - 1) + [FailureAt(Scaled(n, lim.recovery))]
  }

  function FailureAt(now: real): Call {
    Call(now, now, false)
  }

  function Burst(k: nat): (calls: seq<Call>)
    ensures |calls| == k
  {
    if k == 0 then [] else Burst(k - 1) + [FailureAt(0.0)]
  }

  ghost predicate EndBy(calls: seq<Call>, to: real) {
    forall i :: 0 <= i < |calls| ==> calls[i].end <= to
  }

  lemma OneMoreFailure(calls: seq<Call>, to: real, now: real)
    requires Sequential(calls, 0.0, to) && EndBy(calls, to) && 0.0 <= to <= now
    ensures Sequential(calls + [FailureAt(now)], 0.0, now) && EndBy(calls + [FailureAt(now)], now)
  {
  }

  lemma {:induction false} BurstIsSequential(k: nat)
    ensures Sequential(Burst(k), 0.0, 0.0) && EndBy(Burst(k), 0.0)
  {
    if k > 0 {
      BurstIsSequential(k - 1);
      OneMoreFailure(Burst(k - 1), 0.0, 0.0);
    }
  }

  lemma {:induction false} WorstCaseIsSequential(lim: Limits, n: nat)
    requires lim.Valid()
    ensures var calls, span := WorstCase(lim, n), Scaled(n, lim.recovery);
      span >= 0.0 && Sequential(calls, 0.0, span) && EndBy(calls, span)
  {
    if n == 0 {
      BurstIsSequential(lim.threshold);
    } else {
      WorstCaseIsSequential(lim, n - 1);
      OneMoreFailure(WorstCase(lim, n - 1), Scaled(n - 1, lim.recovery), Scaled(n, lim.recovery));
    }
  }

  /** All calls reached the function and failed, the last one at `now`. */
  ghost predicate AllFailed(lim: Limits, calls: seq<Call>, now: real) {
    && NoSuccess(lim, FRESH, calls) && Executed(lim, FRESH, calls) == |calls|
    && After(lim, FRESH, calls) ==
         if calls == [] then FRESH else Breaker(if |calls| >= lim.threshold then Open else Closed, |calls|, now, 0)
  }

  /** One more failing call that the breaker admits. */
  lemma OneMoreFails(lim: Limits, calls: seq<Call>, before: real, now: real)
    requires lim.Valid() && AllFailed(lim, calls, before)
    requires |calls| < lim.threshold || before + lim.recovery <= now
    ensures AllFailed(lim, calls + [FailureAt(now)], now)
  {
    var more := calls + [FailureAt(now)];
    assert more[..|calls|] == calls && more[|more| - 1] == FailureAt(now);
    var b := After(lim, FRESH, calls);
    assert Step(lim, b, FailureAt(now)).1.Failed?;
  }

  lemma {:induction false} BurstFails(lim: Limits, k: nat)
    requires lim.Valid() && k <= lim.threshold
    ensures AllFailed(lim, Burst(k), 0.0)
  {
    if k > 0 {
      BurstFails(lim, k - 1);
      OneMoreFails(lim, Burst(k - 1), 0.0, 0.0);
    }
  }

  lemma {:induction false} WorstCaseFails(lim: Limits, n: nat)
    requires lim.Valid()
    ensures |WorstCase(lim, n)| == lim.threshold + n && AllFailed(lim, WorstCase(lim, n), Scaled(n, lim.recovery))
  {
    if n == 0 {
      BurstFails(lim, lim.threshold);
    } else {
      WorstCaseFails(lim, n - 1);
      OneMoreFails(lim, WorstCase(lim, n - 1), Scaled(n - 1, lim.recovery), Scaled(n, lim.recovery));
    }
  }

  /** The bound is exact: over `n` recovery periods all of threshold + n calls can reach the failing function. */
  lemma RateLimitIsTight(lim: Limits, n: nat)
    requires lim.Valid()
    ensures var calls := WorstCase(lim, n);
      && Sequential(calls, 0.0, Scaled(n, lim.recovery)) && NoSuccess(lim, FRESH, calls)
      && Executed(lim, FRESH, calls) == |calls| == lim.threshold + n
  {
    WorstCaseIsSequential(lim, n);
    WorstCaseFails(lim, n);
  }

  class CircuitBreaker {
    const limits: Limits
    var phase: Phase
    var failureCount: nat
    var lastFailureTime: real
    var halfOpenCalls: nat

    constructor (limits: Limits)
      ensures this.limits == limits && View() == FRESH
    {
      this.limits := limits;
      phase, failureCount, lastFailureTime, halfOpenCalls := Closed, 0, 0.0, 0;
    }

    function View(): Breaker
      reads this
    {
      Breaker(phase, failureCount, lastFailureTime, halfOpenCalls)
    }

    method Reset()
      modifies this
      ensures View() == old(View()).(failures := 0, phase := Closed, probes := 0)
    {
      failureCount, phase, halfOpenCalls := 0, Closed, 0;
    }

    method RecordFailure(now: real)
      modifies this
      ensures View() == OnFailure(limits, old(View()), now)
    {
      failureCount, lastFailureTime := failureCount + 1, now;
      if failureCount >= limits.threshold {
        phase, halfOpenCalls := Open, 0;
      }
    }

    /** One protected call whose function would return at `c.end` with success or failure. */
    method Invoke(c: Call) returns (outcome: Outcome)
      modifies this
      ensures (View(), outcome) == Step(limits, old(View()), c)
    {
      if phase.Open? {
        if c.start - lastFailureTime >= limits.recovery {
          phase, halfOpenCalls := HalfOpen, 0;
        } else {
          return Rejected;
        }
      }
      if phase.HalfOpen? {
        if halfOpenCalls >= limits.maxProbes {
          return Rejected;
        }
        halfOpenCalls := halfOpenCalls + 1;
      }
      if c.ok {
        if phase.HalfOpen? {
          Reset();
        } else {
          failureCount := 0;
        }
        return Succeeded;
      }
      RecordFailure(c.end);
      return Failed;
    }
  }
}
