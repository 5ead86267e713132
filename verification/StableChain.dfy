/** The order NewStableModel of internal/agent/llm.go puts breaker and retry in: the breaker outside. */
module StableChain {
  import opened LlmReply
  import opened Wrappers
  import Breaker
  import Retry

  /** One outer call on a breaker in state s makes n inner calls: none unless it is let through. */
  predicate Spends(s: Breaker.State, start: int, maxRetries: int, n: nat) {
    n > 0 ==> Breaker.Enter(s, start).1 && n <= maxRetries + 1
  }

  /**
    One outer call through breaker and retry, with nothing running beside it. However many inner calls
    the retries make, the breaker is charged at most one failure; while it cools down there are none. For a
    negative maxRetries an admitted call waits on a nil channel for ever, which is None here: nothing is
    called or charged, but the cooldown is over.
   */
  method Generate(circuit: Breaker.CircuitModel, maxRetries: int, baseDelay: int, inner: nat -> Reply,
                  woke: nat -> bool, retryable: Error -> bool, start: int, end: int)
    returns (reply: Option<Reply>, innerCalls: nat)
    modifies circuit
    ensures Spends(old(circuit.Current()), start, maxRetries, innerCalls)
    ensures var (entered, admitted) := Breaker.Enter(old(circuit.Current()), start);
            && (innerCalls > 0 <==> admitted && maxRetries >= 0) && (innerCalls > 0 ==> innerCalls <= maxRetries + 1)
            && (!admitted ==> reply == Some(Failed(CircuitOpen)) && circuit.Current() == old(circuit.Current()))
            && (reply.None? <==> admitted && maxRetries < 0) && (reply.None? ==> circuit.Current() == entered)
    ensures innerCalls > 0 ==> forall k :: 0 <= k < innerCalls - 1 ==> Retry.Retries(inner(k), retryable)
    ensures innerCalls > 0 ==>
              && reply.Some?
              && circuit.Current() ==
                 Breaker.AfterCall(circuit.config, old(circuit.Current()),
                                   Breaker.Call(start, end, Succeeds(reply.value)))
    ensures innerCalls > 0 && Succeeds(reply.value) ==>
              reply.value == inner(innerCalls - 1) && circuit.Current().failures == 0
    ensures innerCalls > 0 && !Succeeds(reply.value) ==>
              circuit.Current().failures == (if old(circuit.Current()).open then 0
                                             else old(circuit.Current()).failures) + 1
  {
    var admitted := circuit.TryEnter(start);
    if !admitted {
      return Some(Failed(CircuitOpen)), 0;
    }
    var retried, calls, sleeps := Retry.GenerateContent(maxRetries, baseDelay, inner, woke, retryable);
    innerCalls := calls;
    if retried.None? {
      return None, 0;
    }
    var settled := circuit.Settle(end, retried.value);
    reply := Some(settled);
  }

  // ---- the rate of inner calls ----

  function Total(counts: seq<nat>, n: nat): nat
    requires n <= |counts|
  {
    if n == 0 then 0 else Total(counts, n - 1) + counts[n - 1]
  }

  /** Outer calls one after the other, and how many inner calls each of them makes. */
  predicate Spending(c: Breaker.Config, calls: seq<Breaker.Call>, maxRetries: int, counts: seq<nat>) {
    && |counts| == |calls|
    && forall i {:trigger counts[i]} :: 0 <= i < |calls| ==>
           Spends(Breaker.RunOf(c, calls, i).state, calls[i].start, maxRetries, counts[i])
  }

  lemma AdmittedNext(c: Breaker.Config, calls: seq<Breaker.Call>, n: nat)
    requires n < |calls|
    ensures var r := Breaker.RunOf(c, calls, n);
            Breaker.RunOf(c, calls, n + 1).admitted ==
            r.admitted + if Breaker.Enter(r.state, calls[n].start).1 then 1 else 0
  {
  }

  lemma {:induction false} AdmittedPay(c: Breaker.Config, calls: seq<Breaker.Call>, maxRetries: nat, counts: seq<nat>,
                                       n: nat)
    requires Spending(c, calls, maxRetries, counts) && n <= |calls|
    ensures Total(counts, n) <= Breaker.Times(Breaker.RunOf(c, calls, n).admitted, maxRetries + 1)
  {
    if n > 0 {
      AdmittedPay(c, calls, maxRetries, counts, n - 1);
      AdmittedNext(c, calls, n - 1);
      assert Spends(Breaker.RunOf(c, calls, n - 1).state, calls[n - 1].start, maxRetries, counts[n - 1]);
    }
  }

  /**
    Retries multiply the rate bound of the breaker and nothing more: over a model that always fails the chain
    makes at most (maxRetries + 1) * threshold * (T / cooldown + 1) inner calls in elapsed time T.
   */
  lemma {:induction false} InnerRateBound(c: Breaker.Config, calls: seq<Breaker.Call>, maxRetries: nat,
                                          counts: seq<nat>, t0: int, elapsed: nat)
    requires c.threshold >= 1 && c.cooldown > 0 && Breaker.Sequential(calls, t0)
            && Spending(c, calls, maxRetries, counts)
    requires forall i :: 0 <= i < |calls| ==> !calls[i].ok && calls[i].end <= t0 + elapsed
    ensures Total(counts, |calls|) <= (maxRetries + 1) * Breaker.Budget(c.threshold, c.cooldown, elapsed)
  {
    AdmittedPay(c, calls, maxRetries, counts, |calls|);
    Breaker.RateBound(c, calls, t0, elapsed);
    Breaker.TimesBound(Breaker.RunOf(c, calls, |calls|).admitted, Breaker.Budget(c.threshold, c.cooldown, elapsed),
                       maxRetries + 1);
  }
}
