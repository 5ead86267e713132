/**
  The queue behind PushConfig of internal/opampserver/server.go over whole runs: where every pushed
  config went, and that each is delivered at most once.
 */
module PushQueue {
  import opened CollectorRegistry
  import opened OpAmpServer
  import opened OpAmpHistory
  import opened Wrappers

  /** Step k pushes to u. */
  predicate Pushes(r: Run, u: string, k: nat) {
    k < |r.steps| && r.steps[k].Push? && r.steps[k].uid == u
  }

  /** A push at step k that is handed to the connection at once. */
  predicate Sends(r: Run, u: string, k: nat) {
    Pushes(r, u, k) && PushOutcome(At(r, k), u, r.steps[k].sendOk) == Sent
  }

  /** A push at step k that waits for the next message of u. */
  predicate Queues(r: Run, u: string, k: nat) {
    Pushes(r, u, k) && PushOutcome(At(r, k), u, r.steps[k].sendOk) == Queued
  }

  /** A message of u at step k that takes the queued config. */
  predicate HandsOver(r: Run, u: string, k: nat) {
    Hears(r, u, k) && u in At(r, k).pending
  }

  predicate Overwrites(r: Run, u: string, k: nat) {
    Queues(r, u, k) && u in At(r, k).pending
  }

  /** A restart at step k that loses the queued config. */
  predicate Loses(r: Run, u: string, k: nat) {
    k < |r.steps| && r.steps[k].Restart? && u in At(r, k).pending
  }

  /** How often p holds below n. */
  function Count(p: nat -> bool, n: nat): nat {
    if n == 0 then 0 else Count(p, n - 1) + if p(n - 1) then 1 else 0
  }

  /** The queue changes only when a push waits, a message takes it, or a restart loses it. */
  lemma QueueStep(r: Run, u: string, k: nat)
    requires Keyed(r.stored) && k < |r.steps|
    ensures Lookup(At(r, k + 1).pending, u) ==
            if Queues(r, u, k) then Some(r.steps[k].yaml)
            else if Hears(r, u, k) || r.steps[k].Restart? then None
            else Lookup(At(r, k).pending, u)
  {
    ServerIsProduct(r, k);
    StepCell(At(r, k), r.steps[k], r.offlineAfter, u);
    assert Lookup(At(r, k + 1).pending, u) == CellOf(At(r, k + 1), u).queued;
    assert Lookup(At(r, k).pending, u) == CellOf(At(r, k), u).queued;
  }

  /** A push is sent or queued, never refused. */
  lemma PushKinds(r: Run, u: string, k: nat)
    requires Keyed(r.stored) && k < |r.steps|
    ensures Pushes(r, u, k) <==> Sends(r, u, k) || Queues(r, u, k)
    ensures !(Sends(r, u, k) && Queues(r, u, k))
  {
    if Pushes(r, u, k) {
      PushNeverRefused(r, k, u, r.steps[k].sendOk);
    }
  }

  /** The bookkeeping of one step: what was waiting or pushed went somewhere or still waits. */
  lemma StepConserved(r: Run, u: string, k: nat)
    requires Keyed(r.stored) && k < |r.steps|
    ensures (if Pushes(r, u, k) then 1 else 0) + (if u in At(r, k).pending then 1 else 0) ==
            (if Sends(r, u, k) then 1 else 0) + (if HandsOver(r, u, k) then 1 else 0)
            + (if Overwrites(r, u, k) then 1 else 0) + (if Loses(r, u, k) then 1 else 0)
            + (if u in At(r, k + 1).pending then 1 else 0)
  {
    QueueStep(r, u, k);
    PushKinds(r, u, k);
  }

  function Bit(b: bool): nat {
    if b then 1 else 0
  }

  /** Counts of events that balance step by step balance over the whole run. */
  lemma {:induction false} CountsBalance(p: nat -> bool, a: nat -> bool, b: nat -> bool, c: nat -> bool, d: nat -> bool,
                                         w: nat -> nat, n: nat)
    requires w(0) == 0
    requires forall k: nat :: k < n ==> Bit(p(k)) + w(k) == Bit(a(k)) + Bit(b(k)) + Bit(c(k)) + Bit(d(k)) + w(k + 1)
    ensures Count(p, n) == Count(a, n) + Count(b, n) + Count(c, n) + Count(d, n) + w(n)
  {
    if n > 0 {
      CountsBalance(p, a, b, c, d, w, n - 1);
    }
  }

  function Waiting(r: Run, u: string): nat -> nat {
    (k: nat) => if k <= |r.steps| && u in At(r, k).pending then 1 else 0
  }

  function Pushed(r: Run, u: string): nat -> bool { (k: nat) => Pushes(r, u, k) }
  function SentDirectly(r: Run, u: string): nat -> bool { (k: nat) => Sends(r, u, k) }
  function HandedOver(r: Run, u: string): nat -> bool { (k: nat) => HandsOver(r, u, k) }
  function Overwritten(r: Run, u: string): nat -> bool { (k: nat) => Overwrites(r, u, k) }
  function Lost(r: Run, u: string): nat -> bool { (k: nat) => Loses(r, u, k) }

  lemma StepBalance(r: Run, u: string, k: nat)
    requires Keyed(r.stored) && k < |r.steps|
    ensures Bit(Pushed(r, u)(k)) + Waiting(r, u)(k) ==
            Bit(SentDirectly(r, u)(k)) + Bit(HandedOver(r, u)(k)) + Bit(Overwritten(r, u)(k)) + Bit(Lost(r, u)(k))
            + Waiting(r, u)(k + 1)
  {
    StepConserved(r, u, k);
  }

  /**
    Conservation: every push ended as a direct send, a handover on a poll, an overwritten or lost queue
    entry, or is the one still waiting. No push is refused.
   */
  lemma {:induction false} PushesConserved(r: Run, u: string, n: nat)
    requires Keyed(r.stored) && n <= |r.steps|
    ensures Count(Pushed(r, u), n) ==
            Count(SentDirectly(r, u), n) + Count(HandedOver(r, u), n) + Count(Overwritten(r, u), n)
                + Count(Lost(r, u), n)
            + Bit(u in At(r, n).pending)
  {
    var p, a, b, c, d, w := Pushed(r, u), SentDirectly(r, u), HandedOver(r, u), Overwritten(r, u), Lost(r, u),
        Waiting(r, u);
    forall k: nat | k < n
      ensures Bit(p(k)) + w(k) == Bit(a(k)) + Bit(b(k)) + Bit(c(k)) + Bit(d(k)) + w(k + 1)
    {
      StepBalance(r, u, k);
    }
    CountsBalance(p, a, b, c, d, w, n);
  }

  // ---- which push a delivery carries ----

  /** The step whose push is waiting for u. */
  function Source(r: Run, u: string, n: nat): Option<nat>
    requires n <= |r.steps|
  {
    if n == 0 then None
    else if Queues(r, u, n - 1) then Some(n - 1)
    else if Hears(r, u, n - 1) || r.steps[n - 1].Restart? then None
    else Source(r, u, n - 1)
  }

  /** Nothing reached or left the queue of u at step k. */
  predicate QueueIdle(r: Run, u: string, k: nat) {
    !Queues(r, u, k) && !Hears(r, u, k) && !(k < |r.steps| && r.steps[k].Restart?)
  }

  /** What Source says agrees with the config waiting for u. */
  ghost predicate SourceOk(r: Run, u: string, n: nat, waiting: Option<string>)
    requires n <= |r.steps|
  {
    var j := Source(r, u, n);
    && (j.Some? <==> waiting.Some?)
    && (j.Some? ==> j.value < n && Queues(r, u, j.value) && r.steps[j.value].yaml == waiting.value)
    && (j.Some? ==> forall i: nat :: j.value < i < n ==> QueueIdle(r, u, i))
  }

  lemma SourceStep(r: Run, u: string, n: nat, before: Option<string>, waiting: Option<string>)
    requires n < |r.steps| && SourceOk(r, u, n, before)
    requires waiting == if Queues(r, u, n) then Some(r.steps[n].yaml)
                        else if Hears(r, u, n) || r.steps[n].Restart? then None else before
    ensures SourceOk(r, u, n + 1, waiting)
  {
    var j := Source(r, u, n + 1);
    if j.Some? && j.value < n {
      forall i: nat | j.value < i < n + 1 ensures QueueIdle(r, u, i) {
        assert i < n || i == n;
      }
    }
  }

  lemma SourceNext(r: Run, u: string, n: nat)
    requires Keyed(r.stored) && n < |r.steps| && SourceOk(r, u, n, Lookup(At(r, n).pending, u))
    ensures SourceOk(r, u, n + 1, Lookup(At(r, n + 1).pending, u))
  {
    QueueStep(r, u, n);
    SourceStep(r, u, n, Lookup(At(r, n).pending, u), Lookup(At(r, n + 1).pending, u));
  }

  lemma {:induction false} SourceIsPush(r: Run, u: string, n: nat)
    requires Keyed(r.stored) && n <= |r.steps|
    ensures SourceOk(r, u, n, Lookup(At(r, n).pending, u))
  {
    if n > 0 {
      SourceIsPush(r, u, n - 1);
      SourceNext(r, u, n - 1);
    }
  }

  /** The step whose push is delivered to u at step k: a direct send delivers itself. */
  function Delivered(r: Run, u: string, k: nat): Option<nat>
    requires k < |r.steps|
  {
    if Sends(r, u, k) then Some(k) else if HandsOver(r, u, k) then Source(r, u, k) else None
  }

  /** Every config a message answers with was pushed earlier to the same uid and is the one delivered. */
  lemma {:induction false} AnswerWasPushed(r: Run, k: nat, yaml: string)
    requires Keyed(r.stored) && k < |r.steps| && r.steps[k].Hear?
    requires var step := r.steps[k];
             var answer := AfterMessage(At(r, k), step.conn, step.msg, step.now, step.writes).1;
             answer.Some? && answer.value.config == Some(yaml)
    ensures var u := Hex(r.steps[k].msg.uidBytes);
            && yaml != "" && Delivered(r, u, k).Some?
            && var j := Delivered(r, u, k).value;
               j < k && Pushes(r, u, j) && r.steps[j].yaml == yaml
  {
    SourceIsPush(r, Hex(r.steps[k].msg.uidBytes), k);
  }

  /** A handover takes a push that was queued, with nothing in between. */
  lemma {:induction false} HandoverSource(r: Run, u: string, k: nat)
    requires Keyed(r.stored) && k < |r.steps| && HandsOver(r, u, k)
    ensures !Sends(r, u, k) && Source(r, u, k).Some? && Delivered(r, u, k) == Source(r, u, k)
    ensures var j := Source(r, u, k).value;
            j < k && Queues(r, u, j) && !Sends(r, u, j) && forall i: nat :: j < i < k ==> QueueIdle(r, u, i)
  {
    SourceIsPush(r, u, k);
    PushKinds(r, u, Source(r, u, k).value);
  }

  /** Each push is delivered at most once. */
  lemma DeliveredOnce(r: Run, u: string, k: nat, m: nat)
    requires Keyed(r.stored) && k < m < |r.steps|
    requires Delivered(r, u, k).Some? && Delivered(r, u, m).Some?
    ensures Delivered(r, u, k) != Delivered(r, u, m)
  {
    if HandsOver(r, u, k) {
      HandoverSource(r, u, k);
    }
    if HandsOver(r, u, m) {
      HandoverSource(r, u, m);
      assert Source(r, u, m).value < k ==> QueueIdle(r, u, k);
    }
  }

  /**
    A handed-over config is the latest push to u unless a later push was sent directly meanwhile:
    every push between the queued one and the handover was such a send.
   */
  lemma HandoverIsLatestUnlessSent(r: Run, u: string, k: nat)
    requires Keyed(r.stored) && k < |r.steps| && HandsOver(r, u, k)
    ensures Delivered(r, u, k).Some? && Delivered(r, u, k).value < k
    ensures forall i: nat :: Delivered(r, u, k).value < i < k ==> (Pushes(r, u, i) <==> Sends(r, u, i))
  {
    HandoverSource(r, u, k);
    forall i: nat | Delivered(r, u, k).value < i < k && Pushes(r, u, i) ensures Sends(r, u, i) {
      assert QueueIdle(r, u, i);
      PushKinds(r, u, i);
    }
  }

  lemma PushKeepsView(r: Run, k: nat)
    requires k < |r.steps| && r.steps[k].Push?
    ensures At(r, k + 1).view == At(r, k).view
  {
  }

  /** A failed send followed by a successful one is such a case: the next message gets the older config. */
  lemma StaleHandover(r: Run, u: string, n: nat)
    requires Keyed(r.stored) && n + 2 < |r.steps| && u in At(r, n).view.conns
    requires Pushes(r, u, n) && !r.steps[n].sendOk && Pushes(r, u, n + 1) && r.steps[n + 1].sendOk
    requires Hears(r, u, n + 2)
    ensures Delivered(r, u, n + 1) == Some(n + 1) && Delivered(r, u, n + 2) == Some(n)
  {
    PushKinds(r, u, n);
    PushKinds(r, u, n + 1);
    PushKeepsView(r, n);
    SourceIsPush(r, u, n + 2);
    assert Source(r, u, n + 1) == Some(n);
  }
}
