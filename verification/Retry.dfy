/** retryModel of internal/agent/llm.go: exponential backoff before the first response. */
module Retry {
  import opened LlmReply
  import opened Wrappers

  function Pow2(k: nat): nat {
    if k == 0 then 1 else 2 * Pow2(k - 1)
  }

  /** Each sleep is twice the one before, from baseDelay on. */
  predicate Doubling(sleeps: seq<int>, baseDelay: int) {
    && (|sleeps| > 0 ==> sleeps[0] == baseDelay)
    && forall k :: 0 < k < |sleeps| ==> sleeps[k] == 2 * sleeps[k - 1]
  }

  function Sum(s: seq<int>): int {
    if s == [] then 0 else Sum(s[..|s| - 1]) + s[|s| - 1]
  }

  /** A failure the loop is willing to retry: an error return, or an error as first response. */
  predicate Retries(r: Reply, retryable: Error -> bool) {
    match r
    case Failed(err) => retryable(err)
    case Stream(items) => items != [] && items[0].error.Some? && retryable(Message(items[0].error.value))
  }

  /** What the caller gets when no further attempt follows r. */
  function Final(r: Reply, maxRetries: int, retryable: Error -> bool): Reply {
    match r
    case Failed(err) => Failed(if retryable(err) then Exhausted(maxRetries, err) else err)
    case Stream(items) =>
      if items == [] then Failed(StreamClosed)
      else if items[0].error.Some? then Stream([items[0]])
      else Stream(items)
  }

  /** The settings of a call, and everything it meets outside. */
  datatype Plan = Plan(
    maxRetries: int, baseDelay: int, inner: nat -> Reply, woke: nat -> bool, retryable: Error -> bool)

  /** What the caller gets, after how many inner calls and which sleeps. */
  datatype Outcome = Outcome(reply: Option<Reply>, calls: nat, sleeps: seq<int>)

  ghost predicate Ends(p: Plan, o: Outcome) {
    && (o.reply.None? <==> p.maxRetries < 0)
    && (p.maxRetries < 0 ==> o.calls == 0 && o.sleeps == [])
    && (p.maxRetries >= 0 ==> 1 <= o.calls <= p.maxRetries + 1 && o.calls - 1 <= |o.sleeps| <= o.calls)
    && Doubling(o.sleeps, p.baseDelay)
    && (forall k :: 0 <= k < |o.sleeps| ==> Retries(p.inner(k), p.retryable))
    && (forall k :: 0 <= k < o.calls - 1 ==> p.woke(k))
    && (p.maxRetries >= 0 && |o.sleeps| == o.calls ==>
          o.calls <= p.maxRetries && !p.woke(o.calls - 1) && o.reply == Some(Failed(Cancelled)))
    && (p.maxRetries >= 0 && |o.sleeps| == o.calls - 1 ==>
          && o.reply == Some(Final(p.inner(o.calls - 1), p.maxRetries, p.retryable))
          && (o.calls == p.maxRetries + 1 || !Retries(p.inner(o.calls - 1), p.retryable)))
  }

  /**
    GenerateContent. inner(k) is the answer to the k-th inner call, and woke(k) says whether the sleep
    after it ran to its end rather than being cancelled. A negative maxRetries skips the loop and
    returns a nil channel with a nil error, which is None here.
   */
  method GenerateContent(maxRetries: int, baseDelay: int, inner: nat -> Reply, woke: nat -> bool,
                         retryable: Error -> bool)
    returns (reply: Option<Reply>, calls: nat, sleeps: seq<int>)
    ensures Ends(Plan(maxRetries, baseDelay, inner, woke, retryable), Outcome(reply, calls, sleeps))
  {
    var delay := baseDelay;
    calls, sleeps := 0, [];
    var attempt := 0;
    while attempt <= maxRetries
      invariant calls == attempt == |sleeps| && (attempt > 0 ==> attempt <= maxRetries)
      invariant Doubling(sleeps, baseDelay)
      invariant delay == if sleeps == [] then baseDelay else 2 * sleeps[|sleeps| - 1]
      invariant forall k :: 0 <= k < attempt ==> Retries(inner(k), retryable)
      invariant forall k :: 0 <= k < attempt ==> woke(k)
      decreases maxRetries - attempt
    {
      var r := inner(attempt);
      calls := calls + 1;
      match r {
        case Failed(err) =>
          if !retryable(err) {
            return Some(Failed(err)), calls, sleeps;
          }
          if attempt >= maxRetries {
            return Some(Failed(Exhausted(maxRetries, err))), calls, sleeps;
          }
        case Stream(items) =>
          if items == [] {
            return Some(Failed(StreamClosed)), calls, sleeps;
          }
          var first := items[0];
          if first.error.None? {
            assert [first] + items[1..] == items;
            return Some(Stream([first] + items[1..])), calls, sleeps;
          }
          if !(retryable(Message(first.error.value)) && attempt < maxRetries) {
            return Some(Stream([first])), calls, sleeps;
          }
      }
      // both kinds of failure back off the same way
      sleeps := sleeps + [delay];
      if !woke(attempt) {
        return Some(Failed(Cancelled)), calls, sleeps;
      }
      delay := delay * 2;
      attempt := attempt + 1;
    }
    reply := None;
  }

  // ---- which answer decides ----

  /** The first k answers are failures worth a retry. */
  ghost predicate TransientBelow(p: Plan, k: nat) {
    forall j: nat :: j < k ==>
      && (p.inner(j).Failed? ==> p.retryable(p.inner(j).err))
      && (p.inner(j).Stream? ==>
            && p.inner(j).items != [] && p.inner(j).items[0].error.Some?
            && p.retryable(Message(p.inner(j).items[0].error.value)))
  }

  /** The first k sleeps are not cancelled. */
  ghost predicate WakesBelow(p: Plan, k: nat) {
    forall j: nat :: j < k ==> p.woke(j)
  }

  /** Such answers are passed over: the next one is asked for. */
  lemma PassesTransient(p: Plan, o: Outcome, k: nat)
    requires Ends(p, o) && k <= p.maxRetries && TransientBelow(p, k) && WakesBelow(p, k)
    ensures o.calls > k && |o.sleeps| >= k
  {
    forall j: nat | j < k ensures Retries(p.inner(j), p.retryable) && p.woke(j) {
    }
  }

  /** Every sleep follows a failure worth a retry. */
  lemma SleepsAreEarned(p: Plan, o: Outcome)
    requires Ends(p, o)
    ensures TransientBelow(p, |o.sleeps|)
  {
    forall j: nat | j < |o.sleeps| ensures Retries(p.inner(j), p.retryable) {
    }
  }

  /** After them a good stream, a permanent failure or a closed stream is final, and handed on as it is. */
  lemma FirstOtherDecides(p: Plan, o: Outcome, k: nat)
    requires Ends(p, o) && k <= p.maxRetries && TransientBelow(p, k) && WakesBelow(p, k)
    requires p.inner(k).Failed? ==> !p.retryable(p.inner(k).err)
    requires p.inner(k).Stream? && p.inner(k).items != [] && p.inner(k).items[0].error.Some? ==>
               !p.retryable(Message(p.inner(k).items[0].error.value))
    ensures o.calls == k + 1 && |o.sleeps| == k
    ensures p.inner(k).Failed? ==> o.reply == Some(p.inner(k))
    ensures p.inner(k) == Stream([]) ==> o.reply == Some(Failed(StreamClosed))
    ensures p.inner(k).Stream? && p.inner(k).items != [] && p.inner(k).items[0].error.None? ==>
              o.reply == Some(p.inner(k))
    ensures p.inner(k).Stream? && p.inner(k).items != [] && p.inner(k).items[0].error.Some? ==>
              o.reply == Some(Stream([p.inner(k).items[0]]))
  {
    PassesTransient(p, o, k);
    assert !Retries(p.inner(k), p.retryable);
  }

  /** When every allowed answer is such a failure and every sleep wakes, all are asked for and the last is reported. */
  lemma AllTransientExhausts(p: Plan, o: Outcome)
    requires Ends(p, o) && p.maxRetries >= 0
    requires TransientBelow(p, p.maxRetries + 1) && WakesBelow(p, p.maxRetries)
    ensures o.calls == p.maxRetries + 1 && |o.sleeps| == p.maxRetries
    ensures var last := p.inner(p.maxRetries);
            o.reply == Some(if last.Failed? then Failed(Exhausted(p.maxRetries, last.err)) else Stream([last.items[0]]))
  {
    PassesTransient(p, o, p.maxRetries);
  }

  /** A sleep that is cancelled ends the call at once. */
  lemma CancelledSleepEnds(p: Plan, o: Outcome, k: nat)
    requires Ends(p, o) && k < p.maxRetries && TransientBelow(p, k + 1) && WakesBelow(p, k) && !p.woke(k)
    ensures o.calls == k + 1 && |o.sleeps| == k + 1 && o.reply == Some(Failed(Cancelled))
  {
    PassesTransient(p, o, k);
    assert Retries(p.inner(k), p.retryable);
  }

  // ---- how long it sleeps ----

  /** The sleep before retry k + 1 is baseDelay * 2^k. */
  lemma {:induction false} DoublingClosed(sleeps: seq<int>, baseDelay: int, k: nat)
    requires Doubling(sleeps, baseDelay) && k < |sleeps|
    ensures sleeps[k] == baseDelay * Pow2(k)
  {
    if k == 0 {
      assert baseDelay * 1 == baseDelay;
    } else {
      DoublingClosed(sleeps, baseDelay, k - 1);
      assert baseDelay * (2 * Pow2(k - 1)) == 2 * (baseDelay * Pow2(k - 1));
    }
  }

  /** k retries sleep baseDelay * (2^k - 1) in total. */
  lemma {:induction false} BackoffTotal(sleeps: seq<int>, baseDelay: int)
    requires Doubling(sleeps, baseDelay)
    ensures Sum(sleeps) == baseDelay * (Pow2(|sleeps|) - 1)
  {
    if sleeps != [] {
      var n := |sleeps| - 1;
      BackoffTotal(sleeps[..n], baseDelay);
      DoublingClosed(sleeps, baseDelay, n);
      assert baseDelay * (Pow2(n) - 1) + baseDelay * Pow2(n) == baseDelay * (2 * Pow2(n) - 1);
    } else {
      assert baseDelay * 0 == 0;
    }
  }
}
