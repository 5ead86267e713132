/**
  circuitModel of internal/agent/llm.go: after threshold consecutive failures the breaker opens,
  and until its cooldown has passed no call reaches the inner model.
 */
module Breaker {
  import opened LlmReply
  import opened Wrappers

  datatype Config = Config(threshold: int, cooldown: int)

  datatype State = State(failures: int, open: bool, until: int)

  const FRESH: State := State(0, false, 0)

  // ---- the three locked sections ----

  /** The check at the start of a call: the new state, and whether the call is let through. */
  function Enter(s: State, now: int): (State, bool) {
    if !s.open then (s, true)
    else if now > s.until then (s.(open := false, failures := 0), true)
    else (s, false)
  }

  function Fail(c: Config, s: State, now: int): State {
    var t := s.(failures := s.failures + 1);
    if t.failures >= c.threshold then t.(open := true, until := now + c.cooldown) else t
  }

  function Succeed(s: State): State {
    s.(open := false, failures := 0)
  }

  function Charged(c: Config, s: State, now: int, ok: bool): State {
    if ok then Succeed(s) else Fail(c, s, now)
  }

  /** The inner stream unchanged, but an error for one that is closed at once. */
  function Handed(inner: Reply): Reply {
    if inner == Stream([]) then Failed(StreamClosed) else inner
  }

  class CircuitModel {
    const config: Config
    var failures: int
    var open: bool
    var cooldownUntil: int

    constructor (config: Config)
      ensures this.config == config && failures == 0 && !open && Current() == FRESH
    {
      this.config := config;
      failures, open, cooldownUntil := 0, false, 0;
    }

    function Current(): State
      reads this
    {
      State(failures, open, cooldownUntil)
    }

    method TryEnter(now: int) returns (admitted: bool)
      modifies this
      ensures (Current(), admitted) == Enter(old(Current()), now)
    {
      if open {
        if now > cooldownUntil {
          open := false;
          failures := 0;
        } else {
          return false;
        }
      }
      return true;
    }

    method RecordFailure(now: int)
      modifies this
      ensures Current() == Fail(config, old(Current()), now)
    {
      failures := failures + 1;
      if failures >= config.threshold {
        open := true;
        cooldownUntil := now + config.cooldown;
      }
    }

    method RecordSuccess()
      modifies this
      ensures Current() == Succeed(old(Current()))
    {
      if open {
        open := false;
      }
      failures := 0;
    }

    /** What GenerateContent does with the answer of the inner model, which arrives at time end. */
    method Settle(end: int, inner: Reply) returns (reply: Reply)
      modifies this
      ensures reply == Handed(inner)
      ensures Current() == Charged(config, old(Current()), end, Succeeds(inner))
    {
      match inner {
        case Failed(err) =>
          RecordFailure(end);
          reply := Failed(err);
        case Stream(items) =>
          if items == [] {
            RecordFailure(end);
            return Failed(StreamClosed);
          }
          if items[0].error.Some? {
            RecordFailure(end);
          } else {
            RecordSuccess();
          }
          reply := Stream([items[0]] + items[1..]);
      }
    }

    /**
      GenerateContent with nothing running beside it: start and end are the clock readings at its
      two locked sections, and inner is what the inner model would answer.
     */
    method GenerateContent(start: int, end: int, inner: Reply) returns (reply: Reply, called: bool)
      modifies this
      ensures called == Enter(old(Current()), start).1
      ensures !called ==> reply == Failed(CircuitOpen) && Current() == old(Current())
      ensures called ==> reply == if inner == Stream([]) then Failed(StreamClosed) else inner
      ensures called ==> Current() == AfterCall(config, old(Current()), Call(start, end, Succeeds(inner)))
    {
      called := TryEnter(start);
      if !called {
        return Failed(CircuitOpen), false;
      }
      reply := Settle(end, inner);
    }
  }

  // ---- calls one after the other ----

  datatype Call = Call(start: int, end: int, ok: bool)

  function AfterCall(c: Config, s: State, call: Call): State {
    var (t, admitted) := Enter(s, call.start);
    if !admitted then s else Charged(c, t, call.end, call.ok)
  }

  /** The state and the history of a sequential run. */
  datatype Run = Run(state: State, admitted: nat, failed: nat, openings: seq<int>)

  /** A fresh breaker after the first n calls. */
  function RunOf(c: Config, calls: seq<Call>, n: nat): Run
    requires n <= |calls|
  {
    if n == 0 then Run(FRESH, 0, 0, []) else RunStep(c, RunOf(c, calls, n - 1), calls[n - 1])
  }

  function RunStep(c: Config, r: Run, call: Call): Run {
    var s := AfterCall(c, r.state, call);
    if !Enter(r.state, call.start).1 then r
    else if call.ok then r.(state := s, admitted := r.admitted + 1)
    else Run(s, r.admitted + 1, r.failed + 1, if s.open then r.openings + [call.end] else r.openings)
  }

  /** Calls follow each other on a clock that never goes back, and t0 is no later than the first. */
  predicate Sequential(calls: seq<Call>, t0: int) {
    && (forall i :: 0 <= i < |calls| ==> t0 <= calls[i].start <= calls[i].end)
    && (forall i :: 0 < i < |calls| ==> calls[i - 1].end <= calls[i].start)
  }

  predicate Spaced(openings: seq<int>, cooldown: int) {
    forall i :: 0 < i < |openings| ==> openings[i] > openings[i - 1] + cooldown
  }

  /** The failures the breaker has charged but not yet spent on an opening. */
  function Unspent(s: State): int {
    if s.open then 0 else s.failures
  }

  /** k * d, by repeated addition. */
  function Times(k: nat, d: int): int {
    if k == 0 then 0 else Times(k - 1, d) + d
  }

  lemma {:induction false} TimesIsProduct(k: nat, d: int)
    ensures Times(k, d) == k * d
  {
    if k > 0 {
      TimesIsProduct(k - 1, d);
    }
  }

  ghost predicate RunInvariant(c: Config, r: Run, t0: int, now: int) {
    var k := |r.openings|;
    && 0 <= r.state.failures
    && (r.state.open ==> k > 0 && r.state.until == r.openings[k - 1] + c.cooldown)
    && (!r.state.open ==> r.state.failures < c.threshold)
    && (!r.state.open && k > 0 ==> r.openings[k - 1] + c.cooldown < now)
    && (k > 0 ==> t0 + Times(k - 1, c.cooldown) <= r.openings[k - 1] <= now)
    && Spaced(r.openings, c.cooldown)
    && Times(k, c.threshold) + Unspent(r.state) <= r.failed
  }

  function Clock(calls: seq<Call>, t0: int, n: nat): int
    requires n <= |calls|
  {
    if n == 0 then t0 else calls[n - 1].end
  }

  lemma FailureKeepsInvariant(c: Config, r: Run, call: Call, t0: int, now: int)
    requires c.threshold >= 1 && c.cooldown > 0 && RunInvariant(c, r, t0, now) && t0 <= now <= call.start <= call.end
    requires Enter(r.state, call.start).1 && !call.ok
    ensures RunInvariant(c, RunStep(c, r, call), t0, call.end)
  {
    var k, s := |r.openings|, AfterCall(c, r.state, call);
    assert Times(k + 1, c.threshold) == Times(k, c.threshold) + c.threshold;
    if s.open && k > 0 {
      assert Times(k, c.cooldown) == Times(k - 1, c.cooldown) + c.cooldown;
    }
  }

  lemma CallKeepsInvariant(c: Config, r: Run, call: Call, t0: int, now: int)
    requires c.threshold >= 1 && c.cooldown > 0 && RunInvariant(c, r, t0, now) && t0 <= now <= call.start <= call.end
    ensures RunInvariant(c, RunStep(c, r, call), t0, call.end)
  {
    if Enter(r.state, call.start).1 && !call.ok {
      FailureKeepsInvariant(c, r, call, t0, now);
    }
  }

  lemma {:induction false} RunKeepsInvariant(c: Config, calls: seq<Call>, t0: int, n: nat)
    requires c.threshold >= 1 && c.cooldown > 0 && Sequential(calls, t0) && n <= |calls|
    ensures RunInvariant(c, RunOf(c, calls, n), t0, Clock(calls, t0, n))
  {
    if n > 0 {
      RunKeepsInvariant(c, calls, t0, n - 1);
      CallKeepsInvariant(c, RunOf(c, calls, n - 1), calls[n - 1], t0, Clock(calls, t0, n - 1));
    }
  }

  /** Openings are more than a cooldown apart, and each one has used up threshold failures. */
  lemma {:induction false} OpeningsBounded(c: Config, calls: seq<Call>, t0: int)
    requires c.threshold >= 1 && c.cooldown > 0 && Sequential(calls, t0)
    ensures var r := RunOf(c, calls, |calls|);
            && Spaced(r.openings, c.cooldown) && |r.openings| * c.threshold <= r.failed
  {
    RunKeepsInvariant(c, calls, t0, |calls|);
    TimesIsProduct(|RunOf(c, calls, |calls|).openings|, c.threshold);
  }

  /** When every inner call fails, every admitted call is charged: spent on an opening or still pending. */
  lemma {:induction false} AllFailingCharged(c: Config, calls: seq<Call>, n: nat)
    requires c.threshold >= 1 && n <= |calls| && forall i :: 0 <= i < n ==> !calls[i].ok
    ensures var r := RunOf(c, calls, n);
            && r.admitted == r.failed == Times(|r.openings|, c.threshold) + Unspent(r.state)
            && 0 <= r.state.failures && (r.state.open <==> r.state.failures >= c.threshold)
            && r.state.failures <= c.threshold
  {
    if n > 0 {
      AllFailingCharged(c, calls, n - 1);
    }
  }

  lemma MulMonotone(x: int, y: int, d: int)
    requires d >= 0
    ensures x <= y ==> x * d <= y * d
  {
  }

  lemma {:induction false} TimesBound(k: nat, n: nat, d: int)
    requires k <= n && d >= 0
    ensures Times(k, d) <= d * n
  {
    TimesIsProduct(k, d);
    MulMonotone(k, n, d);
  }

  /** As many whole cooldowns as certainly passed fit into the quotient. */
  lemma {:induction false} QuotientBound(k: nat, d: int, t: nat)
    requires d > 0 && Times(k, d) <= t
    ensures k <= t / d
  {
    TimesIsProduct(k, d);
    var q := t / d;
    MulMonotone(q + 1, k, d);
    assert (q + 1) * d == q * d + d;
  }

  /** What a breaker may let through in elapsed time when everything fails. */
  function Budget(threshold: nat, cooldown: nat, elapsed: nat): nat
    requires cooldown > 0
  {
    threshold * (elapsed / cooldown + 1)
  }

  lemma ThresholdsBound(admitted: nat, charged: nat, threshold: nat, cooldown: nat, elapsed: nat)
    requires cooldown > 0 && charged >= 1
    requires admitted <= Times(charged, threshold) && Times(charged - 1, cooldown) <= elapsed
    ensures admitted <= Budget(threshold, cooldown, elapsed)
  {
    QuotientBound(charged - 1, cooldown, elapsed);
    TimesBound(charged, elapsed / cooldown + 1, threshold);
  }

  /** Admitted calls fill at most charged thresholds, and all but one of those had to wait a cooldown. */
  lemma ChargedThresholds(c: Config, calls: seq<Call>, t0: int, elapsed: nat) returns (charged: nat)
    requires c.threshold >= 1 && c.cooldown > 0 && Sequential(calls, t0)
    requires forall i :: 0 <= i < |calls| ==> !calls[i].ok && calls[i].end <= t0 + elapsed
    ensures charged >= 1 && RunOf(c, calls, |calls|).admitted <= Times(charged, c.threshold)
    ensures Times(charged - 1, c.cooldown) <= elapsed
  {
    RunKeepsInvariant(c, calls, t0, |calls|);
    AllFailingCharged(c, calls, |calls|);
    var r := RunOf(c, calls, |calls|);
    // an open breaker has spent everything; a closed one owes less than one more opening
    charged := if r.state.open then |r.openings| else |r.openings| + 1;
    assert Clock(calls, t0, |calls|) <= t0 + elapsed;
  }

  /**
    The rate bound: a fresh breaker over a model that always fails lets at most
    threshold * (T / cooldown + 1) calls through in elapsed time T.
   */
  lemma {:induction false} RateBound(c: Config, calls: seq<Call>, t0: int, elapsed: nat)
    requires c.threshold >= 1 && c.cooldown > 0 && Sequential(calls, t0)
    requires forall i :: 0 <= i < |calls| ==> !calls[i].ok && calls[i].end <= t0 + elapsed
    ensures RunOf(c, calls, |calls|).admitted <= Budget(c.threshold, c.cooldown, elapsed)
  {
    var charged := ChargedThresholds(c, calls, t0, elapsed);
    ThresholdsBound(RunOf(c, calls, |calls|).admitted, charged, c.threshold, c.cooldown, elapsed);
  }

  // ---- overlapping calls: starts and ends as separate locked steps ----

  datatype Step = Start(at: int) | End(at: int, ok: bool)

  function Admitted(s: State, e: Step): bool {
    e.Start? && Enter(s, e.at).1
  }

  function AfterStep(c: Config, s: State, e: Step): State {
    match e
    case Start(at) => Enter(s, at).0
    case End(at, ok) => Charged(c, s, at, ok)
  }

  /** A fresh breaker after the first n steps. */
  function After(c: Config, steps: seq<Step>, n: nat): State
    requires n <= |steps|
  {
    if n == 0 then FRESH else AfterStep(c, After(c, steps, n - 1), steps[n - 1])
  }

  /** However calls overlap and whatever the clock says, open means exactly that the count is at its threshold. */
  lemma {:induction false} OpenIffAtThreshold(c: Config, steps: seq<Step>, n: nat)
    requires c.threshold >= 1 && n <= |steps|
    ensures After(c, steps, n).open <==> After(c, steps, n).failures >= c.threshold
    ensures After(c, steps, n).failures >= 0
  {
    if n > 0 {
      OpenIffAtThreshold(c, steps, n - 1);
    }
  }

  predicate Monotone(steps: seq<Step>) {
    forall i, j :: 0 <= i < j < |steps| ==> steps[i].at <= steps[j].at
  }

  /** Step i ends a call with a failure that leaves the breaker open. */
  predicate Opens(c: Config, steps: seq<Step>, i: nat)
    requires i < |steps|
  {
    steps[i].End? && !steps[i].ok && After(c, steps, i + 1).open
  }

  /** Step j ends a call well, and no failure opens the breaker from there to step k. */
  predicate ClosesUntil(c: Config, steps: seq<Step>, j: nat, k: nat)
    requires j < |steps| && k <= |steps|
  {
    steps[j].End? && steps[j].ok && forall l :: j < l < k ==> !Opens(c, steps, l)
  }

  predicate ClosedAgain(c: Config, steps: seq<Step>, i: nat, k: nat)
    requires k <= |steps|
  {
    exists j :: i < j < k && ClosesUntil(c, steps, j, k)
  }

  /** While the cooldown of an opening lasts, only a call that ends well closes the breaker. */
  lemma {:induction false} OpenUnlessClosedAgain(c: Config, steps: seq<Step>, i: nat, k: nat, now: int)
    requires c.threshold >= 1 && i < k <= |steps| && Monotone(steps) && Opens(c, steps, i)
    requires now <= steps[i].at + c.cooldown && forall l :: 0 <= l < k ==> steps[l].at <= now
    ensures After(c, steps, k).open <==> !ClosedAgain(c, steps, i, k)
    ensures After(c, steps, k).open ==> After(c, steps, k).until >= steps[i].at + c.cooldown
    decreases k
  {
    OpenIffAtThreshold(c, steps, k - 1);
    OpenIffAtThreshold(c, steps, k);
    if k > i + 1 {
      OpenUnlessClosedAgain(c, steps, i, k - 1, now);
      ClosedAgainNext(c, steps, i, k - 1);
    }
  }

  lemma ClosedAgainNext(c: Config, steps: seq<Step>, i: nat, k: nat)
    requires i < k < |steps|
    ensures ClosedAgain(c, steps, i, k + 1) <==>
            (steps[k].End? && steps[k].ok) || (ClosedAgain(c, steps, i, k) && !Opens(c, steps, k))
  {
    if steps[k].End? && steps[k].ok {
      assert ClosesUntil(c, steps, k, k + 1);
    }
    if ClosedAgain(c, steps, i, k) && !Opens(c, steps, k) {
      var j :| i < j < k && ClosesUntil(c, steps, j, k);
      assert ClosesUntil(c, steps, j, k + 1);
    }
    if ClosedAgain(c, steps, i, k + 1) {
      var j :| i < j < k + 1 && ClosesUntil(c, steps, j, k + 1);
      assert j < k ==> ClosesUntil(c, steps, j, k);
    }
  }

  /**
    Exactly when a call gets through during a cooldown: under any interleaving, a call that starts within the
    cooldown of a failure that left the breaker open is let through if and only if some call ended well in
    between and no later failure opened the breaker again.
   */
  lemma {:induction false} EarlyAdmissionIff(c: Config, steps: seq<Step>, i: nat, k: nat)
    requires c.threshold >= 1 && i < k < |steps| && Monotone(steps) && Opens(c, steps, i)
    requires steps[k].Start? && steps[k].at <= steps[i].at + c.cooldown
    ensures Admitted(After(c, steps, k), steps[k]) <==> ClosedAgain(c, steps, i, k)
  {
    OpenUnlessClosedAgain(c, steps, i, k, steps[k].at);
  }

  // ---- exactly which calls get through ----

  /** Step k starts within the cooldown of step i, which opened the breaker and after which nothing has closed it. */
  predicate Blocks(c: Config, steps: seq<Step>, i: nat, k: nat)
    requires i < k < |steps|
  {
    Opens(c, steps, i) && steps[k].at <= steps[i].at + c.cooldown && !ClosedAgain(c, steps, i, k)
  }

  /** An open breaker waits out the cooldown of one of its openings. */
  lemma {:induction false} OpenHasOpening(c: Config, steps: seq<Step>, n: nat) returns (i: nat)
    requires c.threshold >= 1 && n <= |steps| && After(c, steps, n).open
    ensures i < n && Opens(c, steps, i) && After(c, steps, n).until == steps[i].at + c.cooldown
  {
    OpenIffAtThreshold(c, steps, n - 1);
    OpenIffAtThreshold(c, steps, n);
    if steps[n - 1].End? {
      i := n - 1;
    } else {
      i := OpenHasOpening(c, steps, n - 1);
    }
  }

  /** Under any interleaving a call is turned away exactly when some opening blocks it. */
  lemma {:induction false} AdmissionIff(c: Config, steps: seq<Step>, k: nat)
    requires c.threshold >= 1 && k < |steps| && Monotone(steps) && steps[k].Start?
    ensures Admitted(After(c, steps, k), steps[k]) <==> forall i :: 0 <= i < k ==> !Blocks(c, steps, i, k)
  {
    if Admitted(After(c, steps, k), steps[k]) {
      forall i | 0 <= i < k && Opens(c, steps, i) && steps[k].at <= steps[i].at + c.cooldown
        ensures ClosedAgain(c, steps, i, k)
      {
        EarlyAdmissionIff(c, steps, i, k);
      }
    } else {
      var i := OpenHasOpening(c, steps, k);
      EarlyAdmissionIff(c, steps, i, k);
      assert Blocks(c, steps, i, k);
    }
  }

  /**
    The half-open state lets through more than one probe: once the cooldown of an opening is over, every call
    that starts is let through, except exactly those that a later opening blocks.
   */
  lemma {:induction false} ProbesIff(c: Config, steps: seq<Step>, i: nat, k: nat)
    requires c.threshold >= 1 && i < k < |steps| && Monotone(steps) && Opens(c, steps, i)
    requires steps[k].Start? && steps[k].at > steps[i].at + c.cooldown
    ensures Admitted(After(c, steps, k), steps[k]) <==> forall l :: i < l < k ==> !Blocks(c, steps, l, k)
  {
    AdmissionIff(c, steps, k);
    forall l: nat | l <= i ensures !Blocks(c, steps, l, k) {
      assert l < i ==> steps[l].at <= steps[i].at;
    }
  }

  /** Such a run exists: a call that started before the opening and ends well closes the breaker at once. */
  lemma LateSuccessEndsCooldown()
    ensures var c := Config(1, 10);
            var steps := [Start(0), Start(0), End(1, false), End(2, true), Start(3)];
            && Monotone(steps) && Opens(c, steps, 2)
            && Admitted(After(c, steps, 4), steps[4]) && steps[4].at <= steps[2].at + c.cooldown
  {
    var c := Config(1, 10);
    var steps := [Start(0), Start(0), End(1, false), End(2, true), Start(3)];
    assert After(c, steps, 1) == FRESH;
    assert After(c, steps, 2) == FRESH;
    assert After(c, steps, 3).open;
  }

  /**
    A failed probe after the cooldown reopens the breaker at once exactly when one failure is enough:
    the probe restarts the count at zero.
   */
  lemma FailedProbeReopensIff(c: Config, s: State, start: int, end: int)
    requires s.open && start > s.until
    ensures AfterCall(c, s, Call(start, end, false)).open <==> c.threshold <= 1
  {
  }
}
