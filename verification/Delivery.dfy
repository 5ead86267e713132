/**
  A push from end to end: pushAndConfirm of internal/agent/confirm.go reading the registry of a running OpAMP
  server, while messages, closes, restarts and other pushes go on. What it reports is told by the messages of
  the collector.
 */
module Delivery {
  import opened CollectorRegistry
  import opened ConfigSubset
  import opened Confirm
  import opened OpAmpHistory
  import opened OpAmpServer
  import opened Wrappers

  /**
    One call of pushAndConfirm for uid during a run of the server: after how many steps it asks whether the
    collector is online, at which step it pushes, after how many steps it asks for the restart capability, and
    after how many steps poll k reads the acknowledged hash and the reported config.
   */
  datatype Session = Session(
    run: Run, uid: string, yaml: string, sendOk: bool,
    asked: nat, pushed: nat, capable: nat, hashAt: nat -> nat, effAt: nat -> nat)

  /** The reads happen in the order of the code, within the run. */
  ghost predicate Legal(s: Session) {
    && Keyed(s.run.stored)
    && s.asked <= s.pushed < |s.run.steps| && s.run.steps[s.pushed] == OpAmpHistory.Push(s.uid, s.yaml, s.sendOk)
    && s.pushed < s.capable <= |s.run.steps|
    && (forall k: nat :: s.pushed < s.hashAt(k) <= s.effAt(k) <= |s.run.steps|)
    && (forall j: nat, k: nat :: j < k ==> s.effAt(j) <= s.hashAt(k))
  }

  /** The session reads the registry of the server and pushes through it; how long anything takes is left open. */
  ghost predicate Reads(s: Session, w: World)
    requires Legal(s)
  {
    && w.online == Some(s.uid in At(s.run, s.asked).view.conns)
    && w.pushOk == (PushOutcome(At(s.run, s.pushed), s.uid, s.sendOk) != Refused)
    && w.accepts == AcceptsRestart(At(s.run, s.capable).view, s.uid)
    && (forall k: nat :: w.hash(k) == Lookup(At(s.run, s.hashAt(k)).view.repHash, s.uid))
    && (forall k: nat :: w.effective(k) == Lookup(At(s.run, s.effAt(k)).view.repEff, s.uid))
  }

  // ---- what a poll sees, told by messages ----

  /** Message j acknowledges the config with this digest, and u has neither acknowledged nor failed since, nor left. */
  ghost predicate StillAcked(r: Run, u: string, j: nat, n: nat, digest: string) {
    && j < n && Hears(r, u, j)
    && AckEvent(r, u)(j) == Some(Some(digest))
    && forall i: nat :: j < i < n ==> AckEvent(r, u)(i).None?
  }

  /** Message j reports a config, and u has neither reported another one since, nor left. */
  ghost predicate StillReported(r: Run, u: string, j: nat, n: nat) {
    && j < n && Hears(r, u, j) && r.steps[j].msg.effective.Some?
    && forall i: nat :: j < i < n ==> EffectiveEvent(r, u)(i).None?
  }

  /** Message j is why a poll that reads the hash after m steps and the config after n steps succeeds. */
  ghost predicate Shows(s: Session, c: Codec, j: nat, m: nat, n: nat) {
    || StillAcked(s.run, s.uid, j, m, c.digest(s.yaml))
    || (StillReported(s.run, s.uid, j, n) && Covers(s.yaml, s.run.steps[j].msg.effective.value, c.parse, c.fold))
  }

  ghost predicate Shown(s: Session, c: Codec, m: nat, n: nat) {
    exists j: nat :: Shows(s, c, j, m, n)
  }

  lemma {:induction false} AckMeans(r: Run, u: string, n: nat, digest: string)
    requires Keyed(r.stored) && n <= |r.steps|
    ensures Lookup(At(r, n).view.repHash, u) == Some(digest) <==> exists j: nat :: StillAcked(r, u, j, n, digest)
  {
    ReportsAreLatest(r, u, n, digest);
    if Lookup(At(r, n).view.repHash, u) == Some(digest) {
      var j: nat :| j < n && AckEvent(r, u)(j) == Some(Some(digest))
                    && forall i: nat :: j < i < n ==> AckEvent(r, u)(i) == None;
      assert StillAcked(r, u, j, n, digest);
    }
    if j: nat :| StillAcked(r, u, j, n, digest) {
      assert AckEvent(r, u)(j) == Some(Some(digest));
    }
  }

  lemma {:induction false} ReportMeans(r: Run, u: string, n: nat, x: string)
    requires Keyed(r.stored) && n <= |r.steps|
    ensures Lookup(At(r, n).view.repEff, u) == Some(x) <==>
            exists j: nat :: StillReported(r, u, j, n) && r.steps[j].msg.effective == Some(x)
  {
    ReportsAreLatest(r, u, n, x);
    if Lookup(At(r, n).view.repEff, u) == Some(x) {
      var j: nat :| j < n && EffectiveEvent(r, u)(j) == Some(Some(x))
                    && forall i: nat :: j < i < n ==> EffectiveEvent(r, u)(i) == None;
      assert StillReported(r, u, j, n);
    }
    if j: nat :| StillReported(r, u, j, n) && r.steps[j].msg.effective == Some(x) {
      assert EffectiveEvent(r, u)(j) == Some(Some(x));
    }
  }

  /** A poll succeeds exactly when some message shows the config, by its ack or by its report. */
  lemma SeenIff(s: Session, w: World, c: Codec, k: nat)
    requires Legal(s) && Reads(s, w)
    ensures Seen(w, c, k, s.yaml) <==> Shown(s, c, s.hashAt(k), s.effAt(k))
  {
    var r, u, m, n := s.run, s.uid, s.hashAt(k), s.effAt(k);
    AckMeans(r, u, m, c.digest(s.yaml));
    var eff := w.effective(k);
    if eff.Some? {
      ReportMeans(r, u, n, eff.value);
    }
    if Seen(w, c, k, s.yaml) {
      if w.hash(k) == Some(c.digest(s.yaml)) {
        var j: nat :| StillAcked(r, u, j, m, c.digest(s.yaml));
        assert Shows(s, c, j, m, n);
      } else {
        var j: nat :| StillReported(r, u, j, n) && r.steps[j].msg.effective == Some(eff.value);
        assert Shows(s, c, j, m, n);
      }
    }
    if j: nat :| Shows(s, c, j, m, n) && !StillAcked(r, u, j, m, c.digest(s.yaml)) {
      ReportMeans(r, u, n, r.steps[j].msg.effective.value);
    }
  }

  // ---- how a session ends ----

  lemma PushAccepted(s: Session, w: World)
    requires Legal(s) && Reads(s, w)
    ensures w.pushOk
  {
    PushNeverRefused(s.run, s.pushed, s.uid, s.sendOk);
  }

  /**
    pushAndConfirm never fails. For a collector that was not online it reports success at once. For an online
    one it reports success exactly when at its last poll some message of the collector shows the config: an ack
    of its digest that nothing has replaced, or a report that contains it and that nothing has replaced.
   */
  lemma AcceptedIff(s: Session, w: World, c: Codec, timeout: int, outcome: Outcome, firstPolls: nat, secondPolls: nat,
                    last: nat)
    requires Legal(s) && Reads(s, w) && EndsAs(w, c, s.yaml, timeout, outcome, firstPolls, secondPolls)
    ensures outcome != Failed
    ensures w.online == Some(false) ==> outcome == Accepted && firstPolls == secondPolls == 0
    ensures w.online == Some(true) ==> firstPolls > 0
    ensures w.online == Some(true) && last == firstPolls + secondPolls - 1 ==>
              (outcome == Accepted <==> Shown(s, c, s.hashAt(last), s.effAt(last)))
  {
    PushAccepted(s, w);
    if w.online == Some(true) {
      OnlineEnds(w, c, s.yaml, timeout, outcome, firstPolls, secondPolls, last);
      SeenIff(s, w, c, last);
    }
  }

  /** Between two points of the run u says nothing and stays connected. */
  ghost predicate Silent(r: Run, u: string, m: nat, n: nat) {
    forall i: nat :: m <= i < n ==> !Hears(r, u, i) && !Disconnects(r, u, i)
  }

  lemma SilenceKeeps(s: Session, c: Codec, j: nat, at: nat, m: nat, n: nat)
    requires Shows(s, c, j, at, at) && at <= m <= n && Silent(s.run, s.uid, at, n)
    ensures Shows(s, c, j, m, n)
  {
    var r, u := s.run, s.uid;
    forall i: nat | at <= i < n ensures AckEvent(r, u)(i).None? && EffectiveEvent(r, u)(i).None? {
      assert !Hears(r, u, i) && !Disconnects(r, u, i);
    }
    assert StillAcked(r, u, j, at, c.digest(s.yaml)) ==> StillAcked(r, u, j, m, c.digest(s.yaml));
    assert StillReported(r, u, j, at) ==> StillReported(r, u, j, n);
  }

  /**
    What an earlier message shows is taken for the effect of this push: without any new message of the collector
    the first poll confirms, and no restart command is sent.
   */
  lemma OldMessageConfirms(s: Session, w: World, c: Codec, timeout: int, outcome: Outcome, firstPolls: nat,
                           secondPolls: nat)
    requires Legal(s) && Reads(s, w) && EndsAs(w, c, s.yaml, timeout, outcome, firstPolls, secondPolls)
    requires w.online == Some(true)
    requires Shown(s, c, s.pushed, s.pushed) && Silent(s.run, s.uid, s.pushed, s.effAt(0))
    ensures outcome == Accepted && firstPolls == 1 && secondPolls == 0
  {
    var j: nat :| Shows(s, c, j, s.pushed, s.pushed);
    SilenceKeeps(s, c, j, s.pushed, s.hashAt(0), s.effAt(0));
    SeenIff(s, w, c, 0);
    PushAccepted(s, w);
    OnlineEnds(w, c, s.yaml, timeout, outcome, firstPolls, secondPolls, 0);
  }

  /**
    A push that only deletes a key from what the collector has reported is such a case: it counts as confirmed
    at once, whatever the collector does with it.
   */
  lemma DeletionConfirmedAtOnce(s: Session, w: World, c: Codec, timeout: int, outcome: Outcome, firstPolls: nat,
                                secondPolls: nat, entries: map<string, Tree>, key: string, j: nat)
    requires Legal(s) && Reads(s, w) && EndsAs(w, c, s.yaml, timeout, outcome, firstPolls, secondPolls)
    requires w.online == Some(true)
    requires StillReported(s.run, s.uid, j, s.pushed) && Silent(s.run, s.uid, s.pushed, s.effAt(0))
    requires c.parse(s.run.steps[j].msg.effective.value) == Some(Mapping(entries))
    requires c.parse(s.yaml) == Some(Mapping(entries - {key}))
    ensures outcome == Accepted && firstPolls == 1 && secondPolls == 0
  {
    Reflexive(Mapping(entries), c.fold);
    DeletionsUnseen(entries, Mapping(entries), key, c.fold);
    assert Shows(s, c, j, s.pushed, s.pushed);
    OldMessageConfirms(s, w, c, timeout, outcome, firstPolls, secondPolls);
  }

  /** The steps of such a session: the collector reports one config and another is pushed to it. */
  function ReportAndPush(uidBytes: seq<Byte>, full: string, short: string): Run {
    Run(map[], 0, [Hear(0, Message(uidBytes, None, None, Some(full), None, 0), 0, Writes(true, true)),
                   OpAmpHistory.Push(Hex(uidBytes), short, true)])
  }

  lemma {:induction false} ReportConnects(uidBytes: seq<Byte>, full: string, short: string)
    requires uidBytes != []
    ensures var r, u := ReportAndPush(uidBytes, full, short), Hex(uidBytes);
            Hears(r, u, 0) && StillReported(r, u, 0, 1) && u in At(r, 1).view.conns
  {
    var r, u := ReportAndPush(uidBytes, full, short), Hex(uidBytes);
    HexNonempty(uidBytes);
    ServerIsProduct(r, 1);
    ConnFold(r, u, 1);
    assert CellOf(At(r, 1), u) == CellAt(r, u, 1);
  }

  /** It exists for any two configs, so also when the second lacks a key of the first. */
  lemma ReportAndPushSession(uidBytes: seq<Byte>, full: string, short: string) returns (s: Session, w: World)
    requires uidBytes != []
    ensures Legal(s) && Reads(s, w) && w.online == Some(true)
    ensures s.run == ReportAndPush(uidBytes, full, short) && s.yaml == short && s.uid == Hex(uidBytes)
    ensures StillReported(s.run, s.uid, 0, s.pushed) && Silent(s.run, s.uid, s.pushed, s.effAt(0))
  {
    var r, u := ReportAndPush(uidBytes, full, short), Hex(uidBytes);
    ReportConnects(uidBytes, full, short);
    PushNeverRefused(r, 1, u, true);
    s := Session(r, u, short, true, 1, 1, 2, (k: nat) => 2, (k: nat) => 2);
    var hash, eff := Lookup(At(r, 2).view.repHash, u), Lookup(At(r, 2).view.repEff, u);
    w := World(Some(true), true, AcceptsRestart(At(r, 2).view, u), (k: nat) => hash, (k: nat) => eff,
               (k: nat) => 0, (k: nat) => 0, (k: nat) => true);
  }

  lemma OlderShows(s: Session, c: Codec, j: nat, m: nat, n: nat)
    requires Shows(s, c, j, m, n) && j < s.pushed < m <= n
    ensures Shows(s, c, j, s.pushed, s.pushed)
  {
    assert StillAcked(s.run, s.uid, j, m, c.digest(s.yaml)) ==> StillAcked(s.run, s.uid, j, s.pushed, c.digest(s.yaml));
    assert StillReported(s.run, s.uid, j, n) ==> StillReported(s.run, s.uid, j, s.pushed);
  }

  lemma NewShows(s: Session, c: Codec, m: nat, n: nat) returns (j: nat)
    requires Legal(s) && s.pushed < m <= n && Shown(s, c, m, n) && !Shown(s, c, s.pushed, s.pushed)
    ensures s.pushed < j < n && Hears(s.run, s.uid, j) && Shows(s, c, j, m, n)
  {
    j :| Shows(s, c, j, m, n);
    if j < s.pushed {
      OlderShows(s, c, j, m, n);
    }
  }

  /**
    And those are the only ones: when no message shows the config at the time of the push, success for an online
    collector means that it has sent a message since that does.
   */
  lemma NewMessageConfirms(s: Session, w: World, c: Codec, timeout: int, outcome: Outcome, firstPolls: nat,
                           secondPolls: nat, last: nat)
    returns (j: nat)
    requires Legal(s) && Reads(s, w) && EndsAs(w, c, s.yaml, timeout, outcome, firstPolls, secondPolls)
    requires w.online == Some(true) && !Shown(s, c, s.pushed, s.pushed) && outcome == Accepted
    requires last == firstPolls + secondPolls - 1
    ensures s.pushed < j < s.effAt(last) && Hears(s.run, s.uid, j) && Shows(s, c, j, s.hashAt(last), s.effAt(last))
  {
    AcceptedIff(s, w, c, timeout, outcome, firstPolls, secondPolls, last);
    j := NewShows(s, c, s.hashAt(last), s.effAt(last));
  }

  // ---- any push through a running server ----

  /** The outcome of some session for u over some run of a server. */
  ghost predicate FromServer(u: string, outcome: Outcome) {
    exists s: Session, w: World, c: Codec, timeout: int, firstPolls: nat, secondPolls: nat ::
      Legal(s) && Reads(s, w) && s.uid == u && EndsAs(w, c, s.yaml, timeout, outcome, firstPolls, secondPolls)
  }

  lemma ServerNeverFails(u: string, outcome: Outcome)
    requires FromServer(u, outcome)
    ensures outcome != Failed
  {
    var s: Session, w: World, c: Codec, timeout: int, firstPolls: nat, secondPolls: nat :|
      Legal(s) && Reads(s, w) && s.uid == u && EndsAs(w, c, s.yaml, timeout, outcome, firstPolls, secondPolls);
    AcceptedIff(s, w, c, timeout, outcome, firstPolls, secondPolls, 0);
  }

  /** For every uid there is one: nobody has heard of the collector, and its config waits in the queue. */
  lemma OfflineAccepted(u: string, c: Codec)
    ensures FromServer(u, Accepted)
  {
    var r := Run(map[], 0, [OpAmpHistory.Push(u, "", true)]);
    var s := Session(r, u, "", true, 0, 0, 1, (k: nat) => 1, (k: nat) => 1);
    var hash, eff := Lookup(At(r, 1).view.repHash, u), Lookup(At(r, 1).view.repEff, u);
    var w := World(Some(false), true, AcceptsRestart(At(r, 1).view, u), (k: nat) => hash, (k: nat) => eff,
                   (k: nat) => 0, (k: nat) => 0, (k: nat) => true);
    assert At(r, 0) == Started(map[]);
    assert EndsAs(w, c, s.yaml, 0, Accepted, 0, 0);
  }
}
