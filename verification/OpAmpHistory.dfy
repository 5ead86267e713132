/**
  Whole runs of the OpAMP server: any sequence of messages, closes, pushes, offline sweeps, version
  records and restarts, over a store that may hold collectors from before.
 */
module OpAmpHistory {
  import opened CollectorRegistry
  import opened OpAmpServer
  import opened Wrappers

  datatype Step =
    | Hear(conn: Conn, msg: Message, now: int, writes: Writes)
    | Close(conn: Conn, picked: string)
    | Push(uid: string, yaml: string, sendOk: bool)
    | Sweep(now: int, lost: set<string>)
    | Record(uid: string, yaml: string, writes: Writes)
    | Restart

  function AfterStep(s: Server, step: Step, offlineAfter: int): Server {
    match step
    case Hear(conn, msg, now, writes) => AfterMessage(s, conn, msg, now, writes).0
    case Close(conn, picked) => AfterClose(s, conn, picked)
    case Push(uid, yaml, sendOk) => AfterPush(s, uid, yaml, sendOk)
    case Sweep(now, lost) => s.(view := Swept(s.view, now, offlineAfter, lost))
    case Record(uid, yaml, writes) => AfterRecord(s, uid, yaml, writes)
    case Restart => AfterRestart(s)
  }

  /** A server that has just started over a store. */
  function Started(stored: map<string, Collector>): Server {
    Server(View(map[], map[], map[], map[], map[], stored), map[])
  }

  /** A run: the store it started over, the offline threshold, and its steps. */
  datatype Run = Run(stored: map<string, Collector>, offlineAfter: int, steps: seq<Step>)

  /** The server after the first n steps. */
  function At(r: Run, n: nat): Server
    requires n <= |r.steps|
  {
    if n == 0 then Started(r.stored) else AfterStep(At(r, n - 1), r.steps[n - 1], r.offlineAfter)
  }

  /** Every stored record carries the uid it is stored under. */
  predicate Keyed(stored: map<string, Collector>) {
    forall u :: u in stored ==> stored[u].uid == u
  }

  // ---- one collector's share of the server ----

  /** What the server holds for one uid. */
  datatype Cell = Cell(
    collector: Option<Collector>, conn: Option<Conn>, bits: Option<nat>,
    hash: Option<string>, eff: Option<string>, stored: Option<Collector>, queued: Option<string>)

  /** u's share of the registry and the store alone. */
  function ViewCell(v: View, u: string): Cell {
    Cell(Lookup(v.collectors, u), Lookup(v.conns, u), Lookup(v.caps, u),
         Lookup(v.repHash, u), Lookup(v.repEff, u), Lookup(v.stored, u), None)
  }

  function CellOf(s: Server, u: string): Cell {
    ViewCell(s.view, u).(queued := Lookup(s.pending, u))
  }

  function HashAfter(hash: Option<string>, remote: Option<RemoteStatus>): Option<string> {
    if remote.None? || remote.value.hash == [] || remote.value.state == OtherState then hash
    else if remote.value.state == Applied && Hex(remote.value.hash) != "" then Some(Hex(remote.value.hash))
    else None
  }

  function Normal(c: Option<Collector>): Option<Collector> {
    if c.Some? then Some(WithStatus(c.value)) else None
  }

  function CellBackfilled(c: Cell, saved: bool): Cell {
    if c.collector.Some? then c
    else c.(collector := Normal(c.stored), stored := if saved then Normal(c.stored) else c.stored)
  }

  function CellHears(c: Cell, u: string, conn: Conn, msg: Message, now: int, writes: Writes): Cell {
    var b := CellBackfilled(c, writes.first);
    var d := WithStatus(FromMessage(b.collector, u, msg).(lastSeen := now));
    Cell(Some(d), Some(conn), Some(msg.capabilities), HashAfter(b.hash, msg.remote),
         if msg.effective.Some? then msg.effective else b.eff,
         if writes.second then Some(d) else b.stored, None)
  }

  function CellSwept(c: Cell, u: string, now: int, offlineAfter: int, lost: set<string>): Cell {
    if c.collector.Some? && Stale(c.collector.value, now, offlineAfter) then
      var d := Some(c.collector.value.(status := Offline));
      c.(collector := d, stored := if u in lost then c.stored else d)
    else c
  }

  function CellRegistryRecords(c: Cell, yaml: string, saved: bool): Cell {
    if c.collector.None? then c
    else
      var d := Some(WithStatus(c.collector.value.(effective := yaml)));
      c.(collector := d, stored := if saved then d else c.stored)
  }

  function CellStoreRecords(c: Cell, yaml: string, saved: bool): Cell {
    if saved && c.stored.Some? then c.(stored := Some(c.stored.value.(effective := yaml))) else c
  }

  function CellRecords(c: Cell, yaml: string, writes: Writes): Cell {
    CellStoreRecords(CellRegistryRecords(c, yaml, writes.first), yaml, writes.second)
  }

  /** How a step changes the cell of u. */
  function CellStep(c: Cell, u: string, step: Step, offlineAfter: int): Cell {
    match step
    case Hear(conn, msg, now, writes) =>
      if u == "" || Hex(msg.uidBytes) != u then c else CellHears(c, u, conn, msg, now, writes)
    case Close(conn, picked) =>
      if picked == u && c.collector.Some? && c.conn == Some(conn)
      then c.(conn := None, bits := None, hash := None, eff := None) else c
    case Push(uid, yaml, sendOk) =>
      if uid == u && (c.conn.None? || (Decodable(u) && !sendOk)) then c.(queued := Some(yaml)) else c
    case Sweep(now, lost) => CellSwept(c, u, now, offlineAfter, lost)
    case Record(uid, yaml, writes) => if uid == u then CellRecords(c, yaml, writes) else c
    case Restart => Cell(None, None, None, None, None, c.stored, None)
  }

  predicate KeyedAt(c: Cell, u: string) {
    && (c.collector.Some? ==> c.collector.value.uid == u)
    && (c.stored.Some? ==> c.stored.value.uid == u)
  }

  // ---- collectorFromMessage changes names, status and effective config only ----

  predicate SameButNames(c: Collector, d: Collector) {
    d == c.(hostname := d.hostname, version := d.version)
  }

  lemma {:induction false} IdentifiedKeeps(c: Collector, kvs: seq<Attribute>, n: nat)
    requires n <= |kvs|
    ensures SameButNames(c, Identified(c, kvs, n))
  {
    if n > 0 {
      IdentifiedKeeps(c, kvs, n - 1);
    }
  }

  lemma {:induction false} FilledInKeeps(c: Collector, kvs: seq<Attribute>, n: nat)
    requires n <= |kvs|
    ensures SameButNames(c, FilledIn(c, kvs, n))
  {
    if n > 0 {
      FilledInKeeps(c, kvs, n - 1);
    }
  }

  lemma FromMessageKeeps(prev: Option<Collector>, u: string, msg: Message)
    requires prev.Some? ==> prev.value.uid == u
    ensures var p, c := if prev.Some? then prev.value else NO_COLLECTOR.(uid := u), FromMessage(prev, u, msg);
            && c.uid == u && c.groupId == p.groupId && c.lastSeen == p.lastSeen
            && c.status == StatusAfter(p.status, msg.health) != Blank
  {
    var p := if prev.Some? then prev.value else NO_COLLECTOR.(uid := u);
    if msg.description.Some? {
      var Description(kvs, more) := msg.description.value;
      IdentifiedKeeps(p, kvs, |kvs|);
      FilledInKeeps(Identified(p, kvs, |kvs|), more, |more|);
    }
  }

  /** The record a message leaves behind. */
  lemma CellHearsFacts(c: Cell, u: string, conn: Conn, msg: Message, now: int, writes: Writes)
    requires KeyedAt(c, u)
    ensures var d := CellHears(c, u, conn, msg, now, writes).collector;
            var prev := if c.collector.Some? then c.collector else Normal(c.stored);
            && d.Some? && d.value.uid == u && d.value.lastSeen == now
            && d.value.status == StatusAfter(if prev.Some? then prev.value.status else Unknown, msg.health) != Blank
            && d.value.groupId == (if prev.Some? then prev.value.groupId else "")
  {
    FromMessageKeeps(if c.collector.Some? then c.collector else Normal(c.stored), u, msg);
  }

  // ---- the server is the product of its cells ----

  lemma UpsertedCell(v: View, c: Collector, conn: Option<Conn>, saved: bool, u: string)
    ensures ViewCell(Upserted(v, c, conn, saved), u) ==
            if u != c.uid then ViewCell(v, u)
            else ViewCell(v, u).(collector := Some(WithStatus(c)),
                                 conn := if conn.Some? then conn else Lookup(v.conns, u),
                                 stored := if saved then Some(WithStatus(c)) else Lookup(v.stored, u))
  {
  }

  lemma HashReportedCell(v: View, uid: string, hash: string, u: string)
    ensures ViewCell(HashReported(v, uid, hash), u) ==
            if u != uid then ViewCell(v, u) else ViewCell(v, u).(hash := if hash == "" then None else Some(hash))
  {
  }

  lemma RemoteCell(v: View, uid: string, remote: Option<RemoteStatus>, u: string)
    ensures ViewCell(RemoteReported(v, uid, remote), u) ==
            if u != uid then ViewCell(v, u) else ViewCell(v, u).(hash := HashAfter(Lookup(v.repHash, u), remote))
  {
    if remote.Some? && remote.value.hash != [] {
      var hash := Hex(remote.value.hash);
      match remote.value.state {
        case Applied => HashReportedCell(v, uid, hash, u);
        case Rejected => HashReportedCell(v, uid, "", u);
        case OtherState =>
      }
    }
  }

  lemma ReportedCell(v: View, uid: string, msg: Message, u: string)
    ensures ViewCell(Reported(v, uid, msg), u) ==
            if u != uid then ViewCell(v, u)
            else ViewCell(v, u).(bits := Some(msg.capabilities), hash := HashAfter(ViewCell(v, u).hash, msg.remote),
                                 eff := if msg.effective.Some? then msg.effective else ViewCell(v, u).eff)
  {
    RemoteCell(v.(caps := v.caps[uid := msg.capabilities]), uid, msg.remote, u);
  }

  lemma BackfilledCell(v: View, uid: string, saved: bool, u: string)
    requires Keyed(v.stored)
    ensures ViewCell(Backfilled(v, uid, saved), u) ==
            if u != uid then ViewCell(v, u) else CellBackfilled(ViewCell(v, u), saved)
  {
    if uid !in v.collectors && uid in v.stored {
      UpsertedCell(v, v.stored[uid], None, saved, u);
    }
  }

  /** What the setters after collectorFromMessage do with its record c. */
  lemma SettersCell(v: View, c: Collector, conn: Conn, msg: Message, saved: bool, u: string)
    ensures var x := ViewCell(v, u);
            ViewCell(Reported(Upserted(v, c, Some(conn), saved), c.uid, msg), u) ==
            if u != c.uid then x
            else Cell(Some(WithStatus(c)), Some(conn), Some(msg.capabilities), HashAfter(x.hash, msg.remote),
                      if msg.effective.Some? then msg.effective else x.eff,
                      if saved then Some(WithStatus(c)) else x.stored, x.queued)
  {
    UpsertedCell(v, c, Some(conn), saved, u);
    ReportedCell(Upserted(v, c, Some(conn), saved), c.uid, msg, u);
  }

  lemma HeardOther(v: View, uid: string, conn: Conn, msg: Message, now: int, writes: Writes, u: string)
    requires Keyed(v.collectors) && Keyed(v.stored) && u != uid
    ensures ViewCell(Heard(v, uid, conn, msg, now, writes), u) == ViewCell(v, u)
  {
    BackfilledCell(v, uid, writes.first, u);
    BackfilledCell(v, uid, writes.first, uid);
    var v0 := Backfilled(v, uid, writes.first);
    var prev := ViewCell(v0, uid).collector;
    FromMessageKeeps(prev, uid, msg);
    SettersCell(v0, FromMessage(prev, uid, msg).(lastSeen := now), conn, msg, writes.second, u);
  }

  lemma HeardSelf(v: View, u: string, conn: Conn, msg: Message, now: int, writes: Writes)
    requires Keyed(v.collectors) && Keyed(v.stored)
    ensures ViewCell(Heard(v, u, conn, msg, now, writes), u) == CellHears(ViewCell(v, u), u, conn, msg, now, writes)
  {
    BackfilledCell(v, u, writes.first, u);
    var v0 := Backfilled(v, u, writes.first);
    var prev := CellBackfilled(ViewCell(v, u), writes.first).collector;
    FromMessageKeeps(prev, u, msg);
    var c := FromMessage(prev, u, msg).(lastSeen := now);
    assert Heard(v, u, conn, msg, now, writes) == Reported(Upserted(v0, c, Some(conn), writes.second), c.uid, msg);
    SettersCell(v0, c, conn, msg, writes.second, u);
  }

  lemma HearsEmptiesQueue(c: Cell, u: string, conn: Conn, msg: Message, now: int, writes: Writes,
                          queued: Option<string>)
    ensures CellHears(c.(queued := queued), u, conn, msg, now, writes) == CellHears(c, u, conn, msg, now, writes)
  {
  }

  lemma HeardCell(s: Server, conn: Conn, msg: Message, now: int, writes: Writes, u: string)
    requires Keyed(s.view.collectors) && Keyed(s.view.stored)
    ensures CellOf(AfterMessage(s, conn, msg, now, writes).0, u) ==
            if u == "" || Hex(msg.uidBytes) != u then CellOf(s, u)
            else CellHears(CellOf(s, u), u, conn, msg, now, writes)
  {
    var uid := Hex(msg.uidBytes);
    if uid != "" {
      WithView(s, Heard(s.view, uid, conn, msg, now, writes), u);
      if uid == u {
        HeardSelf(s.view, u, conn, msg, now, writes);
        HearsEmptiesQueue(ViewCell(s.view, u), u, conn, msg, now, writes, Lookup(s.pending, u));
      } else {
        HeardOther(s.view, uid, conn, msg, now, writes, u);
      }
    }
  }

  lemma SweptCell(v: View, now: int, offlineAfter: int, lost: set<string>, u: string)
    ensures ViewCell(Swept(v, now, offlineAfter, lost), u) == CellSwept(ViewCell(v, u), u, now, offlineAfter, lost)
  {
  }

  lemma RegistryRecordsCell(v: View, uid: string, yaml: string, saved: bool, u: string)
    requires Keyed(v.collectors)
    ensures ViewCell(RegistryRecords(v, uid, yaml, saved), u) ==
            if u != uid then ViewCell(v, u) else CellRegistryRecords(ViewCell(v, u), yaml, saved)
  {
    if uid in v.collectors {
      UpsertedCell(v, v.collectors[uid].(effective := yaml), None, saved, u);
    }
  }

  lemma StoreRecordsCell(v: View, uid: string, yaml: string, saved: bool, u: string)
    ensures ViewCell(StoreRecords(v, uid, yaml, saved), u) ==
            if u != uid then ViewCell(v, u) else CellStoreRecords(ViewCell(v, u), yaml, saved)
  {
  }

  lemma RecordedCell(v: View, uid: string, yaml: string, writes: Writes, u: string)
    requires Keyed(v.collectors)
    ensures ViewCell(StoreRecords(RegistryRecords(v, uid, yaml, writes.first), uid, yaml, writes.second), u) ==
            if u != uid then ViewCell(v, u) else CellRecords(ViewCell(v, u), yaml, writes)
  {
    RegistryRecordsCell(v, uid, yaml, writes.first, u);
    StoreRecordsCell(RegistryRecords(v, uid, yaml, writes.first), uid, yaml, writes.second, u);
  }

  ghost predicate StepIsLocal(s: Server, step: Step, offlineAfter: int, u: string) {
    CellOf(AfterStep(s, step, offlineAfter), u) == CellStep(CellOf(s, u), u, step, offlineAfter)
  }

  lemma HearIsLocal(s: Server, conn: Conn, msg: Message, now: int, writes: Writes, offlineAfter: int, u: string)
    requires Keyed(s.view.collectors) && Keyed(s.view.stored)
    ensures StepIsLocal(s, Hear(conn, msg, now, writes), offlineAfter, u)
  {
    HeardCell(s, conn, msg, now, writes, u);
  }

  lemma CloseIsLocal(s: Server, conn: Conn, picked: string, offlineAfter: int, u: string)
    ensures StepIsLocal(s, Close(conn, picked), offlineAfter, u)
  {
  }

  lemma PushIsLocal(s: Server, uid: string, yaml: string, sendOk: bool, offlineAfter: int, u: string)
    ensures StepIsLocal(s, Push(uid, yaml, sendOk), offlineAfter, u)
  {
  }

  lemma SweepIsLocal(s: Server, now: int, offlineAfter: int, lost: set<string>, u: string)
    ensures StepIsLocal(s, Sweep(now, lost), offlineAfter, u)
  {
    SweptCell(s.view, now, offlineAfter, lost, u);
  }

  lemma WithView(s: Server, v: View, u: string)
    ensures CellOf(s.(view := v), u) == ViewCell(v, u).(queued := Lookup(s.pending, u))
  {
  }

  lemma RecordsLeavesQueue(c: Cell, yaml: string, writes: Writes, queued: Option<string>)
    ensures CellRecords(c.(queued := queued), yaml, writes) == CellRecords(c, yaml, writes).(queued := queued)
  {
  }

  lemma RecordIsLocal(s: Server, uid: string, yaml: string, writes: Writes, offlineAfter: int, u: string)
    requires Keyed(s.view.collectors)
    ensures StepIsLocal(s, Record(uid, yaml, writes), offlineAfter, u)
  {
    RecordedCell(s.view, uid, yaml, writes, u);
    WithView(s, AfterRecord(s, uid, yaml, writes).view, u);
    RecordsLeavesQueue(ViewCell(s.view, u), yaml, writes, Lookup(s.pending, u));
  }

  lemma RestartIsLocal(s: Server, offlineAfter: int, u: string)
    ensures StepIsLocal(s, Restart, offlineAfter, u)
  {
  }

  /** Every step acts on each uid's cell by itself. */
  lemma StepCell(s: Server, step: Step, offlineAfter: int, u: string)
    requires Keyed(s.view.collectors) && Keyed(s.view.stored)
    ensures StepIsLocal(s, step, offlineAfter, u)
  {
    match step
    case Hear(conn, msg, now, writes) => HearIsLocal(s, conn, msg, now, writes, offlineAfter, u);
    case Close(conn, picked) => CloseIsLocal(s, conn, picked, offlineAfter, u);
    case Push(uid, yaml, sendOk) => PushIsLocal(s, uid, yaml, sendOk, offlineAfter, u);
    case Sweep(now, lost) => SweepIsLocal(s, now, offlineAfter, lost, u);
    case Record(uid, yaml, writes) => RecordIsLocal(s, uid, yaml, writes, offlineAfter, u);
    case Restart => RestartIsLocal(s, offlineAfter, u);
  }

  /** The cell of u after the first n steps of a run. */
  function CellAt(r: Run, u: string, n: nat): Cell
    requires n <= |r.steps|
  {
    if n == 0 then CellOf(Started(r.stored), u) else CellStep(CellAt(r, u, n - 1), u, r.steps[n - 1], r.offlineAfter)
  }

  /** What every run keeps for each uid. */
  predicate CellOk(c: Cell, u: string) {
    && KeyedAt(c, u)
    && (c.bits.Some? || c.hash.Some? || c.eff.Some? ==> c.conn.Some?)
    && (c.conn.Some? ==> c.collector.Some? && Decodable(u))
    && (c.collector.Some? ==> c.collector.value.status != Blank)
  }

  lemma CellStepOk(c: Cell, u: string, step: Step, offlineAfter: int)
    requires CellOk(c, u)
    ensures CellOk(CellStep(c, u, step, offlineAfter), u)
  {
    if step.Hear? && u != "" && Hex(step.msg.uidBytes) == u {
      HexDecodable(step.msg.uidBytes);
      CellHearsFacts(c, u, step.conn, step.msg, step.now, step.writes);
    }
  }

  lemma {:induction false} CellAtOk(r: Run, u: string, n: nat)
    requires Keyed(r.stored) && n <= |r.steps|
    ensures CellOk(CellAt(r, u, n), u)
  {
    if n > 0 {
      CellAtOk(r, u, n - 1);
      CellStepOk(CellAt(r, u, n - 1), u, r.steps[n - 1], r.offlineAfter);
    }
  }

  /** The server never mixes collectors up: over every run it is the product of independent cells. */
  lemma {:induction false} ServerIsProduct(r: Run, n: nat)
    requires Keyed(r.stored) && n <= |r.steps|
    ensures forall u :: CellOf(At(r, n), u) == CellAt(r, u, n)
    ensures Keyed(At(r, n).view.collectors) && Keyed(At(r, n).view.stored)
  {
    if n > 0 {
      ServerIsProduct(r, n - 1);
      forall u ensures CellOf(At(r, n), u) == CellAt(r, u, n) {
        StepCell(At(r, n - 1), r.steps[n - 1], r.offlineAfter, u);
      }
    }
    var v := At(r, n).view;
    forall u | u in v.collectors ensures v.collectors[u].uid == u {
      CellAtOk(r, u, n);
      assert CellOf(At(r, n), u).collector == Some(v.collectors[u]);
    }
    forall u | u in v.stored ensures v.stored[u].uid == u {
      CellAtOk(r, u, n);
      assert CellOf(At(r, n), u).stored == Some(v.stored[u]);
    }
  }

  // ---- the registry invariant ----

  predicate Consistent(v: View) {
    && v.caps.Keys <= v.conns.Keys && v.repHash.Keys <= v.conns.Keys && v.repEff.Keys <= v.conns.Keys
    && v.conns.Keys <= v.collectors.Keys
    && (forall u :: u in v.collectors ==> v.collectors[u].uid == u && v.collectors[u].status != Blank)
    && (forall u :: u in v.conns ==> Decodable(u))
  }

  /** The five maps stay consistent over every run, whichever writes to the store fail. */
  lemma {:induction false} AlwaysConsistent(r: Run, n: nat)
    requires Keyed(r.stored) && n <= |r.steps|
    ensures Consistent(At(r, n).view)
  {
    ServerIsProduct(r, n);
    var v := At(r, n).view;
    forall u ensures CellOk(CellOf(At(r, n), u), u) {
      CellAtOk(r, u, n);
    }
    forall u | u in v.caps || u in v.repHash || u in v.repEff ensures u in v.conns {
      assert CellOk(CellOf(At(r, n), u), u);
    }
    forall u | u in v.conns ensures u in v.collectors && Decodable(u) {
      assert CellOk(CellOf(At(r, n), u), u);
    }
    forall u | u in v.collectors ensures v.collectors[u].uid == u && v.collectors[u].status != Blank {
      assert CellOk(CellOf(At(r, n), u), u);
    }
  }

  /** PushConfig never refuses: every uid that has a connection is a hex string. */
  lemma {:induction false} PushNeverRefused(r: Run, n: nat, uid: string, sendOk: bool)
    requires Keyed(r.stored) && n <= |r.steps|
    ensures PushOutcome(At(r, n), uid, sendOk) != Refused
  {
    AlwaysConsistent(r, n);
  }

  // ---- state as a fold over history ----

  /** The value set by the latest event that sets or clears one; ev(k) is None when step k does neither. */
  function Latest<T>(ev: nat -> Option<Option<T>>, n: nat): Option<T> {
    if n == 0 then None else if ev(n - 1).Some? then ev(n - 1).value else Latest(ev, n - 1)
  }

  lemma {:induction false} LatestMeans<T>(ev: nat -> Option<Option<T>>, n: nat, x: T)
    ensures Latest(ev, n) == Some(x) <==>
            exists k: nat :: k < n && ev(k) == Some(Some(x)) && forall j: nat :: k < j < n ==> ev(j) == None
  {
    if n > 0 {
      LatestMeans(ev, n - 1, x);
      if ev(n - 1).None? && Latest(ev, n - 1) == Some(x) {
        var k: nat :| k < n - 1 && ev(k) == Some(Some(x)) && forall j: nat :: k < j < n - 1 ==> ev(j) == None;
        assert forall j: nat :: k < j < n ==> ev(j) == None;
      }
    }
  }

  /** Step k is a message of u. */
  predicate Hears(r: Run, u: string, k: nat) {
    k < |r.steps| && r.steps[k].Hear? && Hex(r.steps[k].msg.uidBytes) == u && u != ""
  }

  /** When u was last heard of, restarts notwithstanding. */
  function LastHeard(r: Run, u: string, n: nat): Option<int> {
    if n == 0 then None else if Hears(r, u, n - 1) then Some(r.steps[n - 1].now) else LastHeard(r, u, n - 1)
  }

  /** u has been heard of since the process started. */
  predicate Known(r: Run, u: string, n: nat) {
    n > 0 && (Hears(r, u, n - 1) || (!(n <= |r.steps| && r.steps[n - 1].Restart?) && Known(r, u, n - 1)))
  }

  /** Step k is a sweep that finds u silent for too long. */
  predicate MarksOffline(r: Run, u: string, k: nat) {
    && k < |r.steps| && r.steps[k].Sweep? && Known(r, u, k)
    && LastHeard(r, u, k).Some? && r.steps[k].now - LastHeard(r, u, k).value > r.offlineAfter
  }

  /** A health report sets the verdict, an offline marking clears it. */
  function HealthEvent(r: Run, u: string): nat -> Option<Option<bool>> {
    (k: nat) =>
      if Hears(r, u, k) && r.steps[k].msg.health.Some? then Some(r.steps[k].msg.health)
      else if MarksOffline(r, u, k) then Some(None)
      else None
  }

  /** The store starts empty and every write to it succeeds. */
  predicate Durable(r: Run) {
    && r.stored == map[]
    && forall k :: 0 <= k < |r.steps| ==>
         match r.steps[k]
         case Hear(_, _, _, writes) => writes == Writes(true, true)
         case Sweep(_, lost) => lost == {}
         case Record(_, _, writes) => writes == Writes(true, true)
         case _ => true
  }

  function Verdict(s: Status): Option<bool> {
    if s == Healthy then Some(true) else if s == Unhealthy then Some(false) else None
  }

  /** In a durable run, what the cell holds is what the history says. */
  ghost predicate Tracks(r: Run, u: string, n: nat, c: Cell) {
    && (c.collector.Some? <==> Known(r, u, n)) && (c.collector.Some? ==> c.stored == c.collector)
    && (c.stored.Some? <==> LastHeard(r, u, n).Some?)
    && (c.stored.Some? ==> c.stored.value.lastSeen == LastHeard(r, u, n).value && c.stored.value.status != Blank)
    && Latest(HealthEvent(r, u), n) == if c.stored.Some? then Verdict(c.stored.value.status) else None
  }

  lemma TracksHear(r: Run, u: string, n: nat, c: Cell)
    requires Durable(r) && n < |r.steps| && CellOk(c, u) && Tracks(r, u, n, c) && Hears(r, u, n)
    ensures Tracks(r, u, n + 1, CellStep(c, u, r.steps[n], r.offlineAfter))
  {
    var step := r.steps[n];
    CellHearsFacts(c, u, step.conn, step.msg, step.now, step.writes);
  }

  lemma TracksOther(r: Run, u: string, n: nat, c: Cell)
    requires Durable(r) && n < |r.steps| && CellOk(c, u) && Tracks(r, u, n, c) && !Hears(r, u, n)
    ensures Tracks(r, u, n + 1, CellStep(c, u, r.steps[n], r.offlineAfter))
  {
    assert !r.steps[n].Hear? || u == "" || Hex(r.steps[n].msg.uidBytes) != u;
  }

  lemma {:induction false} CellFold(r: Run, u: string, n: nat)
    requires Durable(r) && n <= |r.steps|
    ensures Tracks(r, u, n, CellAt(r, u, n))
  {
    if n > 0 {
      CellFold(r, u, n - 1);
      CellAtOk(r, u, n - 1);
      if Hears(r, u, n - 1) {
        TracksHear(r, u, n - 1, CellAt(r, u, n - 1));
      } else {
        TracksOther(r, u, n - 1, CellAt(r, u, n - 1));
      }
    }
  }

  /**
    A collector's status is healthy or unhealthy exactly when such a report came after its last offline
    marking, and then it is the latest report; a restart in between makes no difference.
   */
  lemma {:induction false} StatusIsLatestReport(r: Run, u: string, n: nat, healthy: bool)
    requires Durable(r) && n <= |r.steps| && u in At(r, n).view.stored
    ensures At(r, n).view.stored[u].status == (if healthy then Healthy else Unhealthy) <==>
            exists k: nat :: k < n && HealthEvent(r, u)(k) == Some(Some(healthy))
                             && forall j: nat :: k < j < n ==> HealthEvent(r, u)(j) == None
    ensures u in At(r, n).view.collectors ==> At(r, n).view.collectors[u] == At(r, n).view.stored[u]
  {
    ServerIsProduct(r, n);
    CellFold(r, u, n);
    assert CellOf(At(r, n), u) == CellAt(r, u, n);
    LatestMeans(HealthEvent(r, u), n, healthy);
  }

  /** The connection of u's last message, unless it was closed or the process restarted since. */
  function BoundConn(r: Run, u: string, n: nat): Option<Conn> {
    if n == 0 then None
    else
      var before := BoundConn(r, u, n - 1);
      if Hears(r, u, n - 1) then Some(r.steps[n - 1].conn)
      else if Ends(r, u, n - 1, before) then None
      else before
  }

  predicate Ends(r: Run, u: string, k: nat, bound: Option<Conn>) {
    && k < |r.steps|
    && (r.steps[k].Restart? || (r.steps[k].Close? && r.steps[k].picked == u && bound == Some(r.steps[k].conn)))
  }

  /** Step k ends u's connection: a close of the connection u is bound to, or a restart. */
  predicate Disconnects(r: Run, u: string, k: nat) {
    Ends(r, u, k, BoundConn(r, u, k))
  }

  function EffectiveEvent(r: Run, u: string): nat -> Option<Option<string>> {
    (k: nat) =>
      if Hears(r, u, k) && r.steps[k].msg.effective.Some? then Some(r.steps[k].msg.effective)
      else if Disconnects(r, u, k) then Some(None)
      else None
  }

  /** An APPLIED ack sets the hash, a FAILED one clears it. */
  function AckEvent(r: Run, u: string): nat -> Option<Option<string>> {
    (k: nat) =>
      if Hears(r, u, k) && r.steps[k].msg.remote.Some? && r.steps[k].msg.remote.value.hash != []
         && r.steps[k].msg.remote.value.state != OtherState
      then Some(if r.steps[k].msg.remote.value.state == Applied then Some(Hex(r.steps[k].msg.remote.value.hash))
                else None)
      else if Disconnects(r, u, k) then Some(None)
      else None
  }

  /** What a step does to the connection and the reports of u. */
  lemma StepReports(c: Cell, u: string, step: Step, offlineAfter: int)
    requires CellOk(c, u)
    ensures var d := CellStep(c, u, step, offlineAfter);
            var hears := step.Hear? && Hex(step.msg.uidBytes) == u && u != "";
            var ends := step.Restart? || (step.Close? && step.picked == u && c.conn == Some(step.conn));
            && d.conn == (if hears then Some(step.conn) else if ends then None else c.conn)
            && d.eff == (if hears && step.msg.effective.Some? then step.msg.effective else if ends then None else c.eff)
            && d.hash == (if hears then HashAfter(c.hash, step.msg.remote) else if ends then None else c.hash)
  {
  }

  lemma {:induction false} ConnFold(r: Run, u: string, n: nat)
    requires Keyed(r.stored) && n <= |r.steps|
    ensures CellAt(r, u, n).conn == BoundConn(r, u, n)
  {
    if n > 0 {
      ConnFold(r, u, n - 1);
      CellAtOk(r, u, n - 1);
      StepReports(CellAt(r, u, n - 1), u, r.steps[n - 1], r.offlineAfter);
    }
  }

  lemma {:induction false} EffectiveFold(r: Run, u: string, n: nat)
    requires Keyed(r.stored) && n <= |r.steps|
    ensures CellAt(r, u, n).eff == Latest(EffectiveEvent(r, u), n)
  {
    if n > 0 {
      EffectiveFold(r, u, n - 1);
      ConnFold(r, u, n - 1);
      CellAtOk(r, u, n - 1);
      StepReports(CellAt(r, u, n - 1), u, r.steps[n - 1], r.offlineAfter);
    }
  }

  lemma {:induction false} HexNonempty(bytes: seq<Byte>)
    ensures Hex(bytes) == "" <==> bytes == []
  {
  }

  lemma {:induction false} AckFold(r: Run, u: string, n: nat)
    requires Keyed(r.stored) && n <= |r.steps|
    ensures CellAt(r, u, n).hash == Latest(AckEvent(r, u), n)
  {
    if n > 0 {
      AckFold(r, u, n - 1);
      ConnFold(r, u, n - 1);
      CellAtOk(r, u, n - 1);
      StepReports(CellAt(r, u, n - 1), u, r.steps[n - 1], r.offlineAfter);
      if Hears(r, u, n - 1) && r.steps[n - 1].msg.remote.Some? {
        HexNonempty(r.steps[n - 1].msg.remote.value.hash);
      }
    }
  }

  /**
    The reported effective config and the acknowledged hash are the latest ones since u connected,
    whatever recordConfigVersion writes and whichever writes to the store fail.
   */
  lemma {:induction false} ReportsAreLatest(r: Run, u: string, n: nat, x: string)
    requires Keyed(r.stored) && n <= |r.steps|
    ensures Lookup(At(r, n).view.repEff, u) == Some(x) <==>
            exists k: nat :: k < n && EffectiveEvent(r, u)(k) == Some(Some(x))
                             && forall j: nat :: k < j < n ==> EffectiveEvent(r, u)(j) == None
    ensures Lookup(At(r, n).view.repHash, u) == Some(x) <==>
            exists k: nat :: k < n && AckEvent(r, u)(k) == Some(Some(x))
                             && forall j: nat :: k < j < n ==> AckEvent(r, u)(j) == None
  {
    ServerIsProduct(r, n);
    assert CellOf(At(r, n), u) == CellAt(r, u, n);
    EffectiveFold(r, u, n);
    AckFold(r, u, n);
    LatestMeans(EffectiveEvent(r, u), n, x);
    LatestMeans(AckEvent(r, u), n, x);
  }

  // ---- when the server asks for a full report ----

  /** Message j reports a config, and u has been connected ever since, up to step n. */
  ghost predicate ReportedSince(r: Run, u: string, j: nat, n: nat) {
    && j < n && Hears(r, u, j) && r.steps[j].msg.effective.Some?
    && forall i: nat :: j < i < n ==> !Disconnects(r, u, i)
  }

  /** Some message of u has reported a config since u connected. */
  ghost predicate HasReported(r: Run, u: string, n: nat) {
    exists j: nat :: ReportedSince(r, u, j, n)
  }

  lemma {:induction false} ReportedIff(r: Run, u: string, n: nat)
    requires n <= |r.steps|
    ensures Latest(EffectiveEvent(r, u), n).Some? <==> HasReported(r, u, n)
  {
    if n > 0 {
      ReportedIff(r, u, n - 1);
      if Hears(r, u, n - 1) && r.steps[n - 1].msg.effective.Some? {
        assert ReportedSince(r, u, n - 1, n);
      } else {
        if HasReported(r, u, n) {
          var j: nat :| ReportedSince(r, u, j, n);
          assert !Disconnects(r, u, n - 1) && ReportedSince(r, u, j, n - 1);
        }
        if HasReported(r, u, n - 1) && !Disconnects(r, u, n - 1) {
          var m: nat := n - 1;
          var j: nat :| ReportedSince(r, u, j, m);
          assert ReportedSince(r, u, j, n);
        }
      }
    }
  }

  /** What the answer to a message looks at: the registry after it. */
  lemma AnswerLooksAt(s: Server, conn: Conn, msg: Message, now: int, writes: Writes)
    requires Keyed(s.view.collectors) && Keyed(s.view.stored) && Hex(msg.uidBytes) != ""
    ensures var u := Hex(msg.uidBytes);
            var (after, answer) := AfterMessage(s, conn, msg, now, writes);
            && u in after.view.collectors && answer.Some?
            && (answer.value.reportFull <==>
                u !in after.view.repEff || after.view.collectors[u].hostname == ""
                || after.view.collectors[u].version == "")
  {
    var u := Hex(msg.uidBytes);
    HeardSelf(s.view, u, conn, msg, now, writes);
    BackfilledCell(s.view, u, writes.first, u);
    assert ViewCell(AfterMessage(s, conn, msg, now, writes).0.view, u) ==
           CellHears(ViewCell(s.view, u), u, conn, msg, now, writes);
  }

  /** What the server answers to the message of step k. */
  ghost function AnswerTo(r: Run, k: nat): Option<Answer>
    requires k < |r.steps| && r.steps[k].Hear?
  {
    var step := r.steps[k];
    AfterMessage(At(r, k), step.conn, step.msg, step.now, step.writes).1
  }

  /**
    The answer to a message asks for a full report exactly when no message of the sender, this one included, has
    reported a config since it connected, or when its host name or version is still unknown.
   */
  lemma {:induction false} FullReportIff(r: Run, u: string, k: nat)
    requires Keyed(r.stored) && Hears(r, u, k)
    ensures var answer, c := AnswerTo(r, k), At(r, k + 1).view.collectors;
            && u in c && answer.Some?
            && (answer.value.reportFull <==>
                !HasReported(r, u, k + 1) || c[u].hostname == "" || c[u].version == "")
  {
    ServerIsProduct(r, k);
    ServerIsProduct(r, k + 1);
    var step := r.steps[k];
    AnswerLooksAt(At(r, k), step.conn, step.msg, step.now, step.writes);
    assert CellOf(At(r, k + 1), u).eff == CellAt(r, u, k + 1).eff;
    EffectiveFold(r, u, k + 1);
    ReportedIff(r, u, k + 1);
  }

  lemma NothingReported(r: Run, u: string, m: nat, n: nat)
    requires m < n && Disconnects(r, u, m)
    requires forall i: nat :: m < i < n && Hears(r, u, i) ==> r.steps[i].msg.effective.None?
    ensures !HasReported(r, u, n)
  {
    forall j: nat ensures !ReportedSince(r, u, j, n) {
      assert j < m ==> Disconnects(r, u, m);
    }
  }

  /** So the first message after a restart or a reconnection asks, unless it reports a config itself. */
  lemma {:induction false} FirstMessageAsks(r: Run, u: string, m: nat, k: nat)
    requires Keyed(r.stored) && m < k && Disconnects(r, u, m) && Hears(r, u, k) && r.steps[k].msg.effective.None?
    requires forall i: nat :: m < i < k ==> !Hears(r, u, i)
    ensures AnswerTo(r, k).Some? && AnswerTo(r, k).value.reportFull
  {
    assert !HasReported(r, u, k + 1) by {
      NothingReported(r, u, m, k + 1);
    }
    FullReportIff(r, u, k);
  }

  /** And after a report nothing is asked for, as long as the sender stays connected and its names are known. */
  lemma {:induction false} ReportedIsNotAsked(r: Run, u: string, j: nat, k: nat)
    requires Keyed(r.stored) && ReportedSince(r, u, j, k + 1) && Hears(r, u, k)
    requires u in At(r, k + 1).view.collectors
    requires At(r, k + 1).view.collectors[u].hostname != "" && At(r, k + 1).view.collectors[u].version != ""
    ensures AnswerTo(r, k).Some? && !AnswerTo(r, k).value.reportFull
  {
    FullReportIff(r, u, k);
  }

  // ---- restart commands ----

  lemma {:induction false} BitsFold(r: Run, u: string, n: nat)
    requires Keyed(r.stored) && n <= |r.steps|
    ensures CellAt(r, u, n).bits.Some? <==> BoundConn(r, u, n).Some?
    ensures BoundConn(r, u, n).Some? ==>
              exists k: nat :: LastHeardAt(r, u, k, n) && CellAt(r, u, n).bits == Some(r.steps[k].msg.capabilities)
  {
    if n > 0 {
      BitsFold(r, u, n - 1);
      BitsNext(r, u, n - 1);
      if Hears(r, u, n - 1) {
        assert LastHeardAt(r, u, n - 1, n);
      } else if BoundConn(r, u, n).Some? {
        var m: nat := n - 1;
        var k: nat :| LastHeardAt(r, u, k, m) && CellAt(r, u, m).bits == Some(r.steps[k].msg.capabilities);
        LastHeardStays(r, u, k, m);
      }
    }
  }

  /** Step k is the last message of u before step n. */
  predicate LastHeardAt(r: Run, u: string, k: nat, n: nat) {
    k < n && Hears(r, u, k) && forall i: nat :: k < i < n ==> !Hears(r, u, i)
  }

  lemma LastHeardStays(r: Run, u: string, k: nat, n: nat)
    requires LastHeardAt(r, u, k, n) && !Hears(r, u, n)
    ensures LastHeardAt(r, u, k, n + 1)
  {
  }

  lemma BitsNext(r: Run, u: string, n: nat)
    requires Keyed(r.stored) && n < |r.steps|
    ensures CellAt(r, u, n + 1).bits ==
            if Hears(r, u, n) then Some(r.steps[n].msg.capabilities)
            else if Disconnects(r, u, n) then None
            else CellAt(r, u, n).bits
  {
    ConnFold(r, u, n);
    CellAtOk(r, u, n);
    BitsStep(CellAt(r, u, n), u, r.steps[n], r.offlineAfter);
  }

  lemma BitsStep(c: Cell, u: string, step: Step, offlineAfter: int)
    requires CellOk(c, u)
    ensures var d := CellStep(c, u, step, offlineAfter);
            var hears := step.Hear? && Hex(step.msg.uidBytes) == u && u != "";
            var ends := step.Restart? || (step.Close? && step.picked == u && c.conn == Some(step.conn));
            d.bits == if hears then Some(step.msg.capabilities) else if ends then None else c.bits
  {
  }

  /** n has the bit of value 1024, with high above it and low below. */
  predicate Bit1024At(n: nat, high: nat, low: nat) {
    low < 1024 && n == high * 2048 + 1024 + low
  }

  ghost predicate HasBit1024(n: nat) {
    exists high: nat, low: nat :: Bit1024At(n, high, low)
  }

  lemma BitMeans(n: nat)
    ensures n / 1024 % 2 == 1 <==> HasBit1024(n)
  {
    var q, low := n / 1024, n % 1024;
    if q % 2 == 1 {
      var high := q / 2;
      assert q == high * 2 + 1;
      assert Bit1024At(n, high, low);
    }
    if HasBit1024(n) {
      var high: nat, rest: nat :| Bit1024At(n, high, rest);
      QuotientOf(n, high * 2 + 1, rest);
    }
  }

  lemma QuotientOf(n: nat, q: nat, r: nat)
    requires n == q * 1024 + r && r < 1024
    ensures n / 1024 == q
  {
  }

  /**
    A restart command is sent exactly when the collector is connected, its last message claimed that it accepts
    them, and the connection takes it.
   */
  lemma {:induction false} RestartIff(r: Run, u: string, n: nat, sendOk: bool)
    requires Keyed(r.stored) && n <= |r.steps|
    ensures RestartSent(At(r, n), u, sendOk) <==>
            && sendOk && BoundConn(r, u, n).Some?
            && exists k: nat :: LastHeardAt(r, u, k, n) && HasBit1024(r.steps[k].msg.capabilities)
  {
    ServerIsProduct(r, n);
    ConnFold(r, u, n);
    BitsFold(r, u, n);
    CellAtOk(r, u, n);
    var c := CellAt(r, u, n);
    assert CellOf(At(r, n), u) == c;
    if BoundConn(r, u, n).Some? {
      var k: nat :| LastHeardAt(r, u, k, n) && c.bits == Some(r.steps[k].msg.capabilities);
      BitMeans(r.steps[k].msg.capabilities);
      forall j: nat | LastHeardAt(r, u, j, n) ensures j == k {
        assert !(j < k) && !(k < j);
      }
    }
  }

  // ---- names and intended configs ----

  /** The name a message leaves, from the one before it. */
  predicate NameAfter(before: string, description: Option<Description>, key: string, name: string) {
    match description
    case None => name == before
    case Some(Description(kvs, more)) =>
      if !NoValue(kvs, |kvs|, key) && !LastValue(kvs, |kvs|, key, "") then LastValue(kvs, |kvs|, key, name)
      else if NoValue(kvs, |kvs|, key) && before != "" then name == before
      else FirstValue(more, |more|, key, name)
  }

  lemma DescribedMeans(c: Collector, description: Option<Description>)
    ensures NameAfter(c.hostname, description, "host.name", Described(c, description).hostname)
    ensures NameAfter(c.version, description, "service.version", Described(c, description).version)
  {
    if description.Some? {
      var Description(kvs, more) := description.value;
      IdentifiedMeans(c, kvs, |kvs|);
      FilledInMeans(Identified(c, kvs, |kvs|), more, |more|);
      LastValueUnique(kvs, |kvs|, "host.name");
      LastValueUnique(kvs, |kvs|, "service.version");
    }
  }

  lemma LastValueUnique(kvs: seq<Attribute>, n: nat, key: string)
    requires n <= |kvs|
    ensures forall v, w :: LastValue(kvs, n, key, v) && LastValue(kvs, n, key, w) ==> v == w
  {
  }

  /** What was known of a collector before its message: the registry's record, or else the stored one. */
  function KnownBefore(s: Server, u: string): Option<Collector> {
    if u in s.view.collectors then Some(s.view.collectors[u]) else Lookup(s.view.stored, u)
  }

  /**
    A message's record: names come from the last identifying attribute, or stay, or are filled in by the first
    other attribute; the config is the reported one, or stays; all else stays but the status and the time.
   */
  lemma RecordAfterMessage(r: Run, u: string, k: nat)
    requires Keyed(r.stored) && Hears(r, u, k)
    ensures u in At(r, k + 1).view.collectors
    ensures var before, msg := KnownBefore(At(r, k), u), r.steps[k].msg;
            var prev := if before.Some? then before.value else Collector(u, "", "", 0, Unknown, "", "");
            var c := At(r, k + 1).view.collectors[u];
            && NameAfter(prev.hostname, msg.description, "host.name", c.hostname)
            && NameAfter(prev.version, msg.description, "service.version", c.version)
            && c.effective == (if msg.effective.Some? then msg.effective.value else prev.effective)
            && c.lastSeen == r.steps[k].now && c.uid == u && c.groupId == prev.groupId
            && (msg.health.Some? ==> c.status == if msg.health.value then Healthy else Unhealthy)
            && (msg.health.None? ==>
                  c.status == match prev.status
                              case Offline => Unknown
                              case Blank => Healthy
                              case _ => prev.status)
  {
    ServerIsProduct(r, k);
    ServerIsProduct(r, k + 1);
    assert CellOf(At(r, k + 1), u).collector == CellAt(r, u, k + 1).collector;
    assert CellOf(At(r, k), u) == CellAt(r, u, k);
    CellAtOk(r, u, k);
    CellRecord(CellAt(r, u, k), u, r.steps[k]);
  }

  lemma CellRecord(c: Cell, u: string, step: Step)
    requires CellOk(c, u) && step.Hear?
    ensures var before, msg := if c.collector.Some? then c.collector else c.stored, step.msg;
            var prev := if before.Some? then before.value else Collector(u, "", "", 0, Unknown, "", "");
            var d := CellHears(c, u, step.conn, msg, step.now, step.writes).collector;
            && d.Some? && NameAfter(prev.hostname, msg.description, "host.name", d.value.hostname)
            && NameAfter(prev.version, msg.description, "service.version", d.value.version)
            && d.value.effective == (if msg.effective.Some? then msg.effective.value else prev.effective)
            && d.value.lastSeen == step.now && d.value.uid == u && d.value.groupId == prev.groupId
            && (msg.health.Some? ==> d.value.status == if msg.health.value then Healthy else Unhealthy)
            && (msg.health.None? ==>
                  d.value.status == match prev.status
                                    case Offline => Unknown
                                    case Blank => Healthy
                                    case _ => prev.status)
  {
    var base := if c.collector.Some? then c.collector else Normal(c.stored);
    var p := if base.Some? then base.value else NO_COLLECTOR.(uid := u);
    FromMessageKeeps(base, u, step.msg);
    DescribedMeans(p, step.msg.description);
    if step.msg.description.Some? {
      var Description(kvs, more) := step.msg.description.value;
      IdentifiedKeeps(p, kvs, |kvs|);
      FilledInKeeps(Identified(p, kvs, |kvs|), more, |more|);
    }
  }

  // ---- groups, restarts, replaced connections ----

  function GroupOf(stored: map<string, Collector>, u: string): string {
    if u in stored then stored[u].groupId else ""
  }

  predicate InGroup(c: Cell, group: string) {
    && (c.collector.Some? ==> c.collector.value.groupId == group)
    && (c.stored.Some? ==> c.stored.value.groupId == group)
    && (c.stored.None? ==> group == "")
  }

  lemma StepKeepsGroup(c: Cell, u: string, step: Step, offlineAfter: int, group: string)
    requires CellOk(c, u) && InGroup(c, group)
    ensures InGroup(CellStep(c, u, step, offlineAfter), group)
  {
    if step.Hear? {
      CellHearsFacts(c, u, step.conn, step.msg, step.now, step.writes);
    }
  }

  lemma {:induction false} GroupFixed(r: Run, u: string, n: nat)
    requires Keyed(r.stored) && n <= |r.steps|
    ensures InGroup(CellAt(r, u, n), GroupOf(r.stored, u))
  {
    if n > 0 {
      GroupFixed(r, u, n - 1);
      CellAtOk(r, u, n - 1);
      StepKeepsGroup(CellAt(r, u, n - 1), u, r.steps[n - 1], r.offlineAfter, GroupOf(r.stored, u));
    }
  }

  /** No step of the server changes the group a collector was stored with. */
  lemma {:induction false} GroupNeverChanges(r: Run, u: string, n: nat)
    requires Keyed(r.stored) && n <= |r.steps|
    ensures u in At(r, n).view.stored ==> At(r, n).view.stored[u].groupId == GroupOf(r.stored, u)
    ensures u in At(r, n).view.collectors ==> At(r, n).view.collectors[u].groupId == GroupOf(r.stored, u)
  {
    ServerIsProduct(r, n);
    assert CellOf(At(r, n), u) == CellAt(r, u, n);
    GroupFixed(r, u, n);
  }

  /** With successful writes, a restart right before a message leaves the sender's record as without it. */
  lemma {:induction false} RestartTransparent(r: Run, n: nat, conn: Conn, msg: Message, now: int, writes: Writes)
    requires Durable(r) && n <= |r.steps| && Hex(msg.uidBytes) != "" && writes.second
    ensures var s, u := At(r, n), Hex(msg.uidBytes);
            var plain := AfterMessage(s, conn, msg, now, writes).0.view;
            var restarted := AfterMessage(AfterRestart(s), conn, msg, now, writes).0.view;
            && Lookup(restarted.collectors, u) == Lookup(plain.collectors, u)
            && Lookup(restarted.stored, u) == Lookup(plain.stored, u)
  {
    var s, u := At(r, n), Hex(msg.uidBytes);
    ServerIsProduct(r, n);
    assert CellOf(s, u) == CellAt(r, u, n);
    CellFold(r, u, n);
    HeardCell(s, conn, msg, now, writes, u);
    HeardCell(AfterRestart(s), conn, msg, now, writes, u);
  }

  /** No connection carries messages of two uids. */
  predicate OneUidPerConn(r: Run) {
    forall i, j | 0 <= i < |r.steps| && 0 <= j < |r.steps| && r.steps[i].Hear? && r.steps[j].Hear? ::
      r.steps[i].conn == r.steps[j].conn ==> Hex(r.steps[i].msg.uidBytes) == Hex(r.steps[j].msg.uidBytes)
  }

  lemma {:induction false} BoundWasHeard(r: Run, u: string, n: nat) returns (k: nat)
    requires n <= |r.steps| && BoundConn(r, u, n).Some?
    ensures k < n && Hears(r, u, k) && r.steps[k].conn == BoundConn(r, u, n).value
  {
    if Hears(r, u, n - 1) {
      k := n - 1;
    } else {
      k := BoundWasHeard(r, u, n - 1);
    }
  }

  /** Closing a connection that its uid has already replaced changes nothing. */
  lemma {:induction false} ReplacedCloseIsNoop(r: Run, n: nat, u: string, k: nat, picked: string)
    requires Keyed(r.stored) && OneUidPerConn(r) && k < n <= |r.steps| && Hears(r, u, k)
    requires BoundConn(r, u, n) != Some(r.steps[k].conn)
    ensures AfterClose(At(r, n), r.steps[k].conn, picked) == At(r, n)
  {
    ServerIsProduct(r, n);
    assert CellOf(At(r, n), picked) == CellAt(r, picked, n);
    ConnFold(r, picked, n);
    if BoundConn(r, picked, n) == Some(r.steps[k].conn) {
      var j := BoundWasHeard(r, picked, n);
    }
  }
}
