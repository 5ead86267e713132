/** internal/opampserver/registry.go: the five maps of the in-memory registry and the store behind them. */
module CollectorRegistry {
  import opened Wrappers

  datatype Status = Blank | Unknown | Healthy | Unhealthy | Offline

  datatype Collector = Collector(
    uid: string, hostname: string, version: string, lastSeen: int,
    status: Status, effective: string, groupId: string)

  /** Stands for the identity of a connection object. */
  type Conn = nat

  /** The registry's maps, and stored: the collectors table it writes through to. */
  datatype View = View(
    collectors: map<string, Collector>, conns: map<string, Conn>, caps: map<string, nat>,
    repHash: map<string, string>, repEff: map<string, string>, stored: map<string, Collector>)

  // ---- what each setter does to the maps ----

  function WithStatus(c: Collector): Collector {
    if c.status == Blank then c.(status := Healthy) else c
  }

  /** saved says whether the write to the store succeeds; a failed write is ignored. */
  function Upserted(v: View, c: Collector, conn: Option<Conn>, saved: bool): View {
    v.(collectors := v.collectors[c.uid := WithStatus(c)],
       conns := if conn.Some? then v.conns[c.uid := conn.value] else v.conns,
       stored := if saved then v.stored[c.uid := WithStatus(c)] else v.stored)
  }

  function Removed(v: View, uid: string): View {
    v.(conns := v.conns - {uid}, caps := v.caps - {uid}, repHash := v.repHash - {uid}, repEff := v.repEff - {uid})
  }

  function HashReported(v: View, uid: string, hash: string): View {
    v.(repHash := if hash == "" then v.repHash - {uid} else v.repHash[uid := hash])
  }

  predicate Stale(c: Collector, now: int, offlineAfter: int) {
    now - c.lastSeen > offlineAfter && c.status != Offline
  }

  function Marked(c: Collector, now: int, offlineAfter: int): Collector {
    if Stale(c, now, offlineAfter) then c.(status := Offline) else c
  }

  /** The collectors a sweep marks and manages to write back; lost holds those whose write fails. */
  function Written(cs: map<string, Collector>, now: int, offlineAfter: int, lost: set<string>): set<string> {
    set uid | uid in cs && uid !in lost && Stale(cs[uid], now, offlineAfter)
  }

  function Swept(v: View, now: int, offlineAfter: int, lost: set<string>): View {
    var written := Written(v.collectors, now, offlineAfter, lost);
    v.(collectors := map uid | uid in v.collectors :: Marked(v.collectors[uid], now, offlineAfter),
       stored := map uid | uid in v.stored.Keys + written ::
                   if uid in written then Marked(v.collectors[uid], now, offlineAfter) else v.stored[uid])
  }

  /** A sweep of the collectors outside todo has turned before and was into cs and st. */
  ghost predicate SweptSoFar(before: map<string, Collector>, was: map<string, Collector>, cs: map<string, Collector>,
                             st: map<string, Collector>, todo: set<string>, now: int, offlineAfter: int,
                             lost: set<string>) {
    var done := Written(before, now, offlineAfter, lost) - todo;
    && cs.Keys == before.Keys
    && (forall u :: u in before ==> cs[u] == if u in todo then before[u] else Marked(before[u], now, offlineAfter))
    && st.Keys == was.Keys + done
    && (forall u :: u in st ==> st[u] == if u in done then Marked(before[u], now, offlineAfter) else was[u])
  }

  lemma SweepOne(before: map<string, Collector>, was: map<string, Collector>, cs: map<string, Collector>,
                 st: map<string, Collector>, todo: set<string>, uid: string, now: int, offlineAfter: int,
                 lost: set<string>)
    requires SweptSoFar(before, was, cs, st, todo, now, offlineAfter, lost)
    requires uid in todo && todo <= before.Keys
    ensures var stale := Stale(cs[uid], now, offlineAfter);
            SweptSoFar(before, was, cs[uid := Marked(cs[uid], now, offlineAfter)],
                       if stale && uid !in lost then st[uid := Marked(cs[uid], now, offlineAfter)] else st,
                       todo - {uid}, now, offlineAfter, lost)
  {
    var written := Written(before, now, offlineAfter, lost);
    if uid in written {
      assert written - (todo - {uid}) == written - todo + {uid};
    } else {
      assert written - (todo - {uid}) == written - todo;
    }
  }

  lemma SweepStart(before: map<string, Collector>, was: map<string, Collector>, now: int, offlineAfter: int,
                   lost: set<string>)
    ensures SweptSoFar(before, was, before, was, before.Keys, now, offlineAfter, lost)
  {
    assert Written(before, now, offlineAfter, lost) - before.Keys == {};
  }

  lemma SweepDone(v: View, cs: map<string, Collector>, st: map<string, Collector>, now: int, offlineAfter: int,
                  lost: set<string>)
    requires SweptSoFar(v.collectors, v.stored, cs, st, {}, now, offlineAfter, lost)
    ensures v.(collectors := cs, stored := st) == Swept(v, now, offlineAfter, lost)
  {
    var w := Swept(v, now, offlineAfter, lost);
    assert Written(v.collectors, now, offlineAfter, lost) - {} == Written(v.collectors, now, offlineAfter, lost);
    assert cs == w.collectors && st == w.stored;
  }

  /** AgentCapabilities_AcceptsRestartCommand. */
  const ACCEPTS_RESTART: nat := 1024

  predicate AcceptsRestart(v: View, uid: string) {
    uid in v.caps && v.caps[uid] / ACCEPTS_RESTART % 2 == 1
  }

  class Registry {
    const offlineAfter: int
    var collectors: map<string, Collector>
    var conns: map<string, Conn>
    var caps: map<string, nat>
    var repHash: map<string, string>
    var repEff: map<string, string>
    var stored: map<string, Collector>

    constructor (offlineAfter: int, stored: map<string, Collector>)
      ensures this.offlineAfter == offlineAfter
      ensures Current() == View(map[], map[], map[], map[], map[], stored)
    {
      this.offlineAfter := offlineAfter;
      collectors, conns, caps, repHash, repEff := map[], map[], map[], map[], map[];
      this.stored := stored;
    }

    function Current(): View
      reads this
    {
      View(collectors, conns, caps, repHash, repEff, stored)
    }

    method Upsert(c: Collector, conn: Option<Conn>, saved: bool)
      modifies this
      ensures Current() == Upserted(old(Current()), c, conn, saved)
    {
      var d := c;
      if d.status == Blank {
        d := d.(status := Healthy);
      }
      collectors := collectors[d.uid := d];
      if conn.Some? {
        conns := conns[d.uid := conn.value];
      }
      if saved {
        stored := stored[d.uid := d];
      }
    }

    method Remove(uid: string)
      modifies this
      ensures Current() == Removed(old(Current()), uid)
    {
      conns := conns - {uid};
      caps := caps - {uid};
      repHash := repHash - {uid};
      repEff := repEff - {uid};
    }

    method SetCapabilities(uid: string, bits: nat)
      modifies this
      ensures Current() == old(Current()).(caps := old(caps)[uid := bits])
    {
      caps := caps[uid := bits];
    }

    method SetReportedHash(uid: string, hash: string)
      modifies this
      ensures Current() == HashReported(old(Current()), uid, hash)
    {
      if hash == "" {
        repHash := repHash - {uid};
        return;
      }
      repHash := repHash[uid := hash];
    }

    method SetReportedEffective(uid: string, content: string)
      modifies this
      ensures Current() == old(Current()).(repEff := old(repEff)[uid := content])
    {
      repEff := repEff[uid := content];
    }

    /** The body of MarkOffline's loop. */
    method MarkOne(uid: string, now: int, lost: set<string>)
      requires uid in collectors
      modifies this
      ensures Current() == old(Current()).(
                collectors := old(collectors)[uid := Marked(old(collectors)[uid], now, offlineAfter)],
                stored := if Stale(old(collectors)[uid], now, offlineAfter) && uid !in lost
                          then old(stored)[uid := Marked(old(collectors)[uid], now, offlineAfter)] else old(stored))
    {
      var c := collectors[uid];
      if now - c.lastSeen > offlineAfter && c.status != Offline {
        c := c.(status := Offline);
        collectors := collectors[uid := c];
        if uid !in lost {
          stored := stored[uid := c];
        }
      } else {
        assert collectors[uid := c] == collectors;
      }
    }

    /** Visits the collectors one by one, in no particular order. */
    method MarkOffline(now: int, lost: set<string>)
      modifies this
      ensures Current() == Swept(old(Current()), now, offlineAfter, lost)
    {
      ghost var v := Current();
      var todo := collectors.Keys;
      SweepStart(v.collectors, v.stored, now, offlineAfter, lost);
      while todo != {}
        invariant todo <= v.collectors.Keys
        invariant Current() == v.(collectors := collectors, stored := stored)
        invariant SweptSoFar(v.collectors, v.stored, collectors, stored, todo, now, offlineAfter, lost)
        decreases todo
      {
        var uid :| uid in todo;
        SweepOne(v.collectors, v.stored, collectors, stored, todo, uid, now, offlineAfter, lost);
        MarkOne(uid, now, lost);
        todo := todo - {uid};
      }
      SweepDone(v, collectors, stored, now, offlineAfter, lost);
    }
  }
}
