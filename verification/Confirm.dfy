/**
  internal/agent/confirm.go: push, poll for a sign that the config is in force, send a restart
  command where the agent wants one, poll again. The world may answer every read as it likes.
 */
module Confirm {
  import opened ConfigSubset
  import opened Wrappers

  /** confirmPollInterval, in nanoseconds. */
  const POLL_INTERVAL: nat := 200_000_000

  /**
    Everything outside: what the registry answers (None for a registry that is nil), whether the push is
    accepted, and for each poll k what it reads, how long the reading takes, how much longer than asked
    the sleep after it lasts, and whether that sleep ends without the context being cancelled.
   */
  datatype World = World(
    online: Option<bool>, pushOk: bool, accepts: bool,
    hash: nat -> Option<string>, effective: nat -> Option<string>,
    lag: nat -> nat, oversleep: nat -> nat, woke: nat -> bool)

  /** How yaml.Unmarshal, the digest and case folding behave. */
  datatype Codec = Codec(parse: string -> Option<Tree>, digest: string -> string, fold: char -> char)

  /** Poll k sees the digest of the pushed config acknowledged, or a reported config that contains it. */
  predicate Seen(w: World, c: Codec, k: nat, pushed: string) {
    || w.hash(k) == Some(c.digest(pushed))
    || (w.effective(k).Some? && Covers(pushed, w.effective(k).value, c.parse, c.fold))
  }

  ghost predicate Exact(w: World) {
    forall k: nat :: w.lag(k) == 0 && w.oversleep(k) == 0
  }

  /** No sleep is cut short by a cancelled context. */
  ghost predicate Wakes(w: World) {
    forall k: nat :: w.woke(k)
  }

  /** How often the interval fits into t, rounded up; at least 0. */
  function Intervals(t: int): nat {
    if t <= 0 then 0 else (t + POLL_INTERVAL - 1) / POLL_INTERVAL
  }

  lemma IntervalsCover(sleeps: nat, t: int)
    requires sleeps > 0 ==> (sleeps - 1) * POLL_INTERVAL < t
    ensures sleeps <= Intervals(t)
  {
  }

  /** waitConfirm: polls first, first + 1, ... from clock reading start on. */
  method WaitConfirm(w: World, c: Codec, pushed: string, want: string, first: nat, start: int, timeout: int)
    returns (confirmed: bool, polls: nat, now: int)
    requires want == c.digest(pushed)
    ensures 1 <= polls <= Intervals(timeout) + 1
    ensures forall k :: first <= k < first + polls - 1 ==> !Seen(w, c, k, pushed)
    ensures confirmed <==> Seen(w, c, first + polls - 1, pushed)
    ensures !confirmed ==> now >= start + timeout || !w.woke(first + polls - 1)
    ensures now >= start + (polls - 1) * POLL_INTERVAL
    ensures Exact(w) ==>
              now == start + (polls - 1) * POLL_INTERVAL && (now == start || now < start + timeout + POLL_INTERVAL)
  {
    var deadline := start + timeout;
    now := start;
    polls := 1;
    while true
      invariant polls >= 1
      invariant forall k :: first <= k < first + polls - 1 ==> !Seen(w, c, k, pushed)
      invariant now >= start + (polls - 1) * POLL_INTERVAL
      invariant polls > 1 ==> (polls - 2) * POLL_INTERVAL < timeout
      invariant Exact(w) ==> now == start + (polls - 1) * POLL_INTERVAL
      decreases deadline - now
    {
      var k := first + polls - 1;
      IntervalsCover(polls - 1, timeout);
      now := now + w.lag(k);
      var h := w.hash(k);
      if h.Some? && h.value == want {
        return true, polls, now;
      }
      var eff := w.effective(k);
      if eff.Some? {
        var covered := SubsetOf(pushed, eff.value, c.parse, c.fold);
        if covered {
          return true, polls, now;
        }
      }
      if !(now < deadline) {
        return false, polls, now;
      }
      if !w.woke(k) {
        return false, polls, now;
      }
      now := now + POLL_INTERVAL + w.oversleep(k);
      polls := polls + 1;
    }
  }

  datatype Effect = Push | Poll(k: nat) | SendRestart

  function Polls(from: nat, n: nat): seq<Effect> {
    if n == 0 then [] else Polls(from, n - 1) + [Poll(from + n - 1)]
  }

  /** A push, a phase of polls, and after a restart command perhaps a second phase. */
  function Session(firstPolls: nat, secondPolls: nat): seq<Effect> {
    [Push] + Polls(0, firstPolls) + if secondPolls == 0 then [] else [SendRestart] + Polls(firstPolls, secondPolls)
  }

  datatype Outcome = Failed | Accepted | Unconfirmed

  /** time.Duration's division by two, which truncates. */
  function Half(timeout: int): int {
    if timeout >= 0 then timeout / 2 else -((-timeout) / 2)
  }

  /** How a session that pushes can end, after how many polls before and after the restart command. */
  predicate EndsAs(w: World, c: Codec, pushed: string, timeout: int, outcome: Outcome, firstPolls: nat,
                   secondPolls: nat) {
    && (outcome == Failed <==> !w.pushOk)
    && (outcome == Failed || w.online != Some(true) ==> firstPolls == secondPolls == 0)
    && (w.pushOk && w.online != Some(true) ==> outcome == Accepted)
    && (w.pushOk && w.online == Some(true) ==>
          && 1 <= firstPolls <= Intervals(Half(timeout)) + 1 && secondPolls <= Intervals(Half(timeout)) + 1
          && (secondPolls > 0 <==> w.accepts && !Seen(w, c, firstPolls - 1, pushed))
          && (forall k :: 0 <= k < firstPolls + secondPolls - 1 ==> !Seen(w, c, k, pushed))
          && (outcome == Accepted <==> Seen(w, c, firstPolls + secondPolls - 1, pushed)))
  }

  lemma OnlineEnds(w: World, c: Codec, pushed: string, timeout: int, outcome: Outcome, firstPolls: nat,
                   secondPolls: nat, last: nat)
    requires EndsAs(w, c, pushed, timeout, outcome, firstPolls, secondPolls) && w.pushOk && w.online == Some(true)
    ensures outcome != Failed && firstPolls > 0
    ensures last == firstPolls + secondPolls - 1 ==> (outcome == Accepted <==> Seen(w, c, last, pushed))
    ensures Seen(w, c, 0, pushed) ==> outcome == Accepted && firstPolls == 1 && secondPolls == 0
  {
  }

  /**
    pushAndConfirm. With a pusher it pushes exactly once. When the collector is online, Accepted means
    the last poll saw the config in force, and Unconfirmed that no poll did; the second phase and its
    restart command happen only after a first phase without success for an agent that accepts restarts.
   */
  method PushAndConfirm(w: World, c: Codec, hasPusher: bool, pushed: string, start: int, timeout: int)
    returns (outcome: Outcome, effects: seq<Effect>, firstPolls: nat, secondPolls: nat, now: int)
    ensures !hasPusher ==> outcome == Failed && effects == []
    ensures hasPusher ==> effects == Session(firstPolls, secondPolls)
    ensures hasPusher ==> EndsAs(w, c, pushed, timeout, outcome, firstPolls, secondPolls)
    ensures firstPolls == 0 ==> now == start
    ensures firstPolls > 1 ==> 2 * (firstPolls - 2) * 200_000_000 < timeout - 1
    ensures secondPolls > 1 ==> 2 * (secondPolls - 2) * 200_000_000 < timeout - 1
    ensures Exact(w) && timeout > 0 ==> now - start < timeout + 2 * POLL_INTERVAL
    ensures Wakes(w) && outcome == Unconfirmed ==> 2 * (now - start) >= timeout - 1
    ensures Wakes(w) && outcome == Unconfirmed && w.accepts ==> now - start >= timeout - 1
    ensures hasPusher && w.pushOk && w.online == Some(true) && Exact(w) && Wakes(w) ==>
              forall k: nat :: 2 * k * 200_000_000 <= timeout - 1 && Seen(w, c, k, pushed) ==>
                outcome == Accepted && firstPolls <= k + 1 && secondPolls == 0
  {
    firstPolls, secondPolls, now := 0, 0, start;
    if !hasPusher {
      return Failed, [], 0, 0, start;
    }
    var online := w.online == Some(true);
    effects := [Push];
    if !w.pushOk {
      return Failed, effects, 0, 0, start;
    }
    if !online {
      return Accepted, effects, 0, 0, start;
    }
    var want := c.digest(pushed);
    var half := Half(timeout);
    var confirmed;
    confirmed, firstPolls, now := WaitConfirm(w, c, pushed, want, 0, start, half);
    effects := effects + Polls(0, firstPolls);
    if confirmed {
      return Accepted, effects, firstPolls, 0, now;
    }
    if w.accepts {
      effects := effects + [SendRestart];
      confirmed, secondPolls, now := WaitConfirm(w, c, pushed, want, firstPolls, now, half);
      effects := effects + Polls(firstPolls, secondPolls);
      if confirmed {
        return Accepted, effects, firstPolls, secondPolls, now;
      }
    }
    outcome := Unconfirmed;
  }

  /** With the default timeout of 12 seconds a phase polls at most 31 times. */
  lemma DefaultTimeoutPolls(w: World, c: Codec, pushed: string, outcome: Outcome, firstPolls: nat, secondPolls: nat)
    requires EndsAs(w, c, pushed, 12_000_000_000, outcome, firstPolls, secondPolls)
    ensures firstPolls <= 31 && secondPolls <= 31
  {
    assert Intervals(Half(12_000_000_000)) == 30;
  }

  // ---- what every session looks like ----

  lemma {:induction false} PollsShape(from: nat, n: nat)
    ensures |Polls(from, n)| == n && forall i :: 0 <= i < n ==> Polls(from, n)[i] == Poll(from + i)
  {
    if n > 0 {
      PollsShape(from, n - 1);
    }
  }

  /**
    In every session the push comes first and only there, at most one restart command follows, and it
    follows the whole first phase of polls; polls are numbered in order without gaps.
   */
  lemma SessionShape(firstPolls: nat, secondPolls: nat)
    ensures var s := Session(firstPolls, secondPolls);
            && (forall i :: 0 <= i < |s| ==> (s[i] == Push <==> i == 0))
            && (forall i :: 0 <= i < |s| ==> (s[i] == SendRestart <==> secondPolls > 0 && i == firstPolls + 1))
            && (forall i :: 0 < i < |s| && s[i] != SendRestart ==>
                s[i] == Poll(if i <= firstPolls then i - 1 else i - 2))
  {
    PollsShape(0, firstPolls);
    PollsShape(firstPolls, secondPolls);
  }
}
