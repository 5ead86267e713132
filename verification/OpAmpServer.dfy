/** internal/opampserver/server.go: what a message, a close, a push and a restart command do. */
module OpAmpServer {
  import opened CollectorRegistry
  import opened Wrappers

  // ---- instance uids ----

  type Byte = b: int | 0 <= b < 256

  function HexDigit(n: nat): char
    requires n < 16
  {
    if n < 10 then '0' + n as char else 'a' + (n - 10) as char
  }

  /** hex.EncodeToString. */
  function Hex(bytes: seq<Byte>): string {
    if bytes == [] then "" else [HexDigit(bytes[0] / 16), HexDigit(bytes[0] % 16)] + Hex(bytes[1..])
  }

  predicate IsHexDigit(c: char) {
    '0' <= c <= '9' || 'a' <= c <= 'f' || 'A' <= c <= 'F'
  }

  /** Whether hex.DecodeString accepts the string. */
  predicate Decodable(s: string) {
    |s| % 2 == 0 && forall i :: 0 <= i < |s| ==> IsHexDigit(s[i])
  }

  lemma {:induction false} HexDecodable(bytes: seq<Byte>)
    ensures Decodable(Hex(bytes))
  {
    if bytes != [] {
      HexDecodable(bytes[1..]);
      var front, rest := [HexDigit(bytes[0] / 16), HexDigit(bytes[0] % 16)], Hex(bytes[1..]);
      assert |front + rest| == 2 + |rest|;
      assert forall i :: 2 <= i < |front + rest| ==> (front + rest)[i] == rest[i - 2];
    }
  }

  /** The value of a hex digit. */
  function HexValue(c: char): int {
    if '0' <= c <= '9' then c as int - '0' as int
    else if 'a' <= c <= 'f' then c as int - 'a' as int + 10
    else if 'A' <= c <= 'F' then c as int - 'A' as int + 10
    else -1
  }

  lemma DigitValue(n: nat)
    requires n < 16
    ensures HexValue(HexDigit(n)) == n
  {
  }

  /** Two digits spell each byte, so that different uids have different names. */
  lemma {:induction false} HexSpells(bytes: seq<Byte>)
    ensures |Hex(bytes)| == 2 * |bytes|
    ensures forall i :: 0 <= i < |bytes| ==>
              bytes[i] == 16 * HexValue(Hex(bytes)[2 * i]) + HexValue(Hex(bytes)[2 * i + 1])
  {
    if bytes != [] {
      HexSpells(bytes[1..]);
      var s, rest := Hex(bytes), Hex(bytes[1..]);
      assert s[0] == HexDigit(bytes[0] / 16) && s[1] == HexDigit(bytes[0] % 16);
      DigitValue(bytes[0] / 16);
      DigitValue(bytes[0] % 16);
      forall i | 0 < i < |bytes|
        ensures bytes[i] == 16 * HexValue(s[2 * i]) + HexValue(s[2 * i + 1])
      {
        assert s[2 * i] == rest[2 * (i - 1)] && s[2 * i + 1] == rest[2 * (i - 1) + 1];
        assert bytes[1..][i - 1] == bytes[i];
      }
    }
  }

  /** What can be decoded: an even number of hex digits, of either case. */
  lemma DecodableIff(s: string)
    ensures Decodable(s) <==> |s| % 2 == 0 && forall i :: 0 <= i < |s| ==> s[i] in "0123456789abcdefABCDEF"
  {
    forall c: char ensures IsHexDigit(c) <==> c in "0123456789abcdefABCDEF" {
      HexDigits(c);
    }
  }

  lemma HexDigits(c: char)
    ensures IsHexDigit(c) <==> c in "0123456789abcdefABCDEF"
  {
    var digits := "0123456789abcdefABCDEF";
    if '0' <= c <= '9' {
      assert digits[c as int - '0' as int] == c;
    } else if 'a' <= c <= 'f' {
      assert digits[c as int - 'a' as int + 10] == c;
    } else if 'A' <= c <= 'F' {
      assert digits[c as int - 'A' as int + 16] == c;
    }
  }

  // ---- messages ----

  function Lookup<T>(m: map<string, T>, uid: string): Option<T> {
    if uid in m then Some(m[uid]) else None
  }

  datatype Attribute = Attribute(key: string, value: string)

  datatype Description = Description(identifying: seq<Attribute>, nonIdentifying: seq<Attribute>)

  datatype RemoteState = Applied | Rejected | OtherState

  datatype RemoteStatus = RemoteStatus(hash: seq<Byte>, state: RemoteState)

  /** AgentToServer; a missing part means that it has not changed. */
  datatype Message = Message(
    uidBytes: seq<Byte>, description: Option<Description>, health: Option<bool>,
    effective: Option<string>, remote: Option<RemoteStatus>, capabilities: nat)

  /** ServerToAgent: the ReportFullState flag, and the config it offers. */
  datatype Answer = Answer(reportFull: bool, config: Option<string>)

  /** Everything a running server holds: the registry, its store, and the queued configs. */
  datatype Server = Server(view: View, pending: map<string, string>)

  // ---- collectorFromMessage ----

  /** The first n identifying attributes: the last version and host name win. */
  function Identified(c: Collector, kvs: seq<Attribute>, n: nat): Collector
    requires n <= |kvs|
  {
    if n == 0 then c
    else
      var d, kv := Identified(c, kvs, n - 1), kvs[n - 1];
      if kv.key == "service.version" then d.(version := kv.value)
      else if kv.key == "host.name" then d.(hostname := kv.value)
      else d
  }

  /** The first n non-identifying attributes: they only fill in what is still empty. */
  function FilledIn(c: Collector, kvs: seq<Attribute>, n: nat): Collector
    requires n <= |kvs|
  {
    if n == 0 then c
    else
      var d, kv := FilledIn(c, kvs, n - 1), kvs[n - 1];
      if kv.key == "service.version" && d.version == "" then d.(version := kv.value)
      else if kv.key == "host.name" && d.hostname == "" then d.(hostname := kv.value)
      else d
  }

  /** Value v comes with key in the first n attributes, and no other value of that key after it. */
  predicate LastValue(kvs: seq<Attribute>, n: nat, key: string, v: string)
    requires n <= |kvs|
  {
    exists i :: 0 <= i < n && kvs[i] == Attribute(key, v) && forall j :: i < j < n ==> kvs[j].key != key
  }

  predicate NoValue(kvs: seq<Attribute>, n: nat, key: string)
    requires n <= |kvs|
  {
    forall i :: 0 <= i < n ==> kvs[i].key != key
  }

  /** The last value that comes with key counts, and without one the name stays. */
  predicate LastOrKept(kvs: seq<Attribute>, n: nat, key: string, before: string, name: string)
    requires n <= |kvs|
  {
    if NoValue(kvs, n, key) then name == before else LastValue(kvs, n, key, name)
  }

  lemma LastValueNext(kvs: seq<Attribute>, n: nat, key: string, v: string)
    requires n < |kvs|
    ensures kvs[n].key == key ==> LastValue(kvs, n + 1, key, kvs[n].value) && !NoValue(kvs, n + 1, key)
    ensures kvs[n].key != key ==>
              && (LastValue(kvs, n, key, v) ==> LastValue(kvs, n + 1, key, v))
              && (NoValue(kvs, n, key) <==> NoValue(kvs, n + 1, key))
  {
    if kvs[n].key == key {
      assert kvs[n] == Attribute(key, kvs[n].value);
    } else if LastValue(kvs, n, key, v) {
      var i :| 0 <= i < n && kvs[i] == Attribute(key, v) && forall j :: i < j < n ==> kvs[j].key != key;
      assert forall j :: i < j < n + 1 ==> kvs[j].key != key;
    }
  }

  lemma LastOrKeptNext(kvs: seq<Attribute>, n: nat, key: string, before: string, name: string)
    requires n < |kvs| && LastOrKept(kvs, n, key, before, name)
    ensures LastOrKept(kvs, n + 1, key, before, if kvs[n].key == key then kvs[n].value else name)
  {
    LastValueNext(kvs, n, key, name);
  }

  lemma IdentifiedNext(c: Collector, kvs: seq<Attribute>, n: nat)
    requires n < |kvs|
    ensures var d, next, kv := Identified(c, kvs, n), Identified(c, kvs, n + 1), kvs[n];
            && next.hostname == (if kv.key == "host.name" then kv.value else d.hostname)
            && next.version == if kv.key == "service.version" then kv.value else d.version
  {
    var host, version := "host.name", "service.version";
    assert |host| != |version|;
  }

  lemma {:induction false} HostMeans(c: Collector, kvs: seq<Attribute>, n: nat, key: string)
    requires n <= |kvs| && key == "host.name"
    ensures LastOrKept(kvs, n, key, c.hostname, Identified(c, kvs, n).hostname)
  {
    if n > 0 {
      HostMeans(c, kvs, n - 1, key);
      IdentifiedNext(c, kvs, n - 1);
      LastOrKeptNext(kvs, n - 1, key, c.hostname, Identified(c, kvs, n - 1).hostname);
    }
  }

  lemma {:induction false} VersionMeans(c: Collector, kvs: seq<Attribute>, n: nat, key: string)
    requires n <= |kvs| && key == "service.version"
    ensures LastOrKept(kvs, n, key, c.version, Identified(c, kvs, n).version)
  {
    if n > 0 {
      VersionMeans(c, kvs, n - 1, key);
      IdentifiedNext(c, kvs, n - 1);
      LastOrKeptNext(kvs, n - 1, key, c.version, Identified(c, kvs, n - 1).version);
    }
  }

  /** Identifying attributes. */
  lemma {:induction false} IdentifiedMeans(c: Collector, kvs: seq<Attribute>, n: nat)
    requires n <= |kvs|
    ensures LastOrKept(kvs, n, "host.name", c.hostname, Identified(c, kvs, n).hostname)
    ensures LastOrKept(kvs, n, "service.version", c.version, Identified(c, kvs, n).version)
  {
    HostMeans(c, kvs, n, "host.name");
    VersionMeans(c, kvs, n, "service.version");
  }

  /** Value v is the first one that is not empty among those that come with key, or empty if all of them are. */
  predicate FirstValue(kvs: seq<Attribute>, n: nat, key: string, v: string)
    requires n <= |kvs|
  {
    if v == "" then forall i :: 0 <= i < n ==> kvs[i].key == key ==> kvs[i].value == ""
    else exists i :: 0 <= i < n && kvs[i] == Attribute(key, v)
                     && forall j :: 0 <= j < i ==> kvs[j].key == key ==> kvs[j].value == ""
  }

  /** Other attributes: they count for a name that is still empty, and then the first value does. */
  lemma {:induction false} FilledInMeans(c: Collector, kvs: seq<Attribute>, n: nat)
    requires n <= |kvs|
    ensures var d := FilledIn(c, kvs, n);
            && (if c.hostname != "" then d.hostname == c.hostname else FirstValue(kvs, n, "host.name", d.hostname))
            && (if c.version != "" then d.version == c.version else FirstValue(kvs, n, "service.version", d.version))
  {
    if n > 0 {
      FilledInMeans(c, kvs, n - 1);
      assert kvs[n - 1] == Attribute(kvs[n - 1].key, kvs[n - 1].value);
    }
  }

  function Described(c: Collector, description: Option<Description>): Collector {
    match description
    case None => c
    case Some(Description(kvs, more)) => FilledIn(Identified(c, kvs, |kvs|), more, |more|)
  }

  function StatusAfter(s: Status, health: Option<bool>): Status {
    if health.Some? then (if health.value then Healthy else Unhealthy)
    else if s == Blank || s == Offline then Unknown
    else s
  }

  const NO_COLLECTOR: Collector := Collector("", "", "", 0, Unknown, "", "")

  /** collectorFromMessage, from the registry's record or from a new one. */
  function FromMessage(prev: Option<Collector>, uid: string, msg: Message): Collector {
    var c := Described(if prev.Some? then prev.value else NO_COLLECTOR.(uid := uid), msg.description);
    c.(status := StatusAfter(c.status, msg.health),
       effective := if msg.effective.Some? then msg.effective.value else c.effective)
  }

  // ---- the steps on values ----

  /** Which of a step's two writes to the store succeed, in the order in which they are made. */
  datatype Writes = Writes(first: bool, second: bool)

  /** The record a restarted server takes over from the store before it looks at the message. */
  function Backfilled(v: View, uid: string, saved: bool): View {
    if uid !in v.collectors && uid in v.stored then Upserted(v, v.stored[uid], None, saved) else v
  }

  function RemoteReported(v: View, uid: string, remote: Option<RemoteStatus>): View {
    if remote.None? || remote.value.hash == [] then v
    else
      match remote.value.state
      case Applied => HashReported(v, uid, Hex(remote.value.hash))
      case Rejected => HashReported(v, uid, "")
      case OtherState => v
  }

  /** The registry once the capabilities, the ack and the reported config of a message are in as well. */
  function Reported(v: View, uid: string, msg: Message): View {
    var w := RemoteReported(v.(caps := v.caps[uid := msg.capabilities]), uid, msg.remote);
    if msg.effective.Some? then w.(repEff := w.repEff[uid := msg.effective.value]) else w
  }

  /** The registry after a message of uid on conn. */
  function Heard(v: View, uid: string, conn: Conn, msg: Message, now: int, writes: Writes): View {
    var v0 := Backfilled(v, uid, writes.first);
    var c := FromMessage(Lookup(v0.collectors, uid), uid, msg).(lastSeen := now);
    Reported(Upserted(v0, c, Some(conn), writes.second), uid, msg)
  }

  /** onMessage; a message without instance_uid is dropped. */
  function AfterMessage(s: Server, conn: Conn, msg: Message, now: int, writes: Writes): (Server, Option<Answer>) {
    var uid := Hex(msg.uidBytes);
    if uid == "" then (s, None)
    else
      var v := Heard(s.view, uid, conn, msg, now, writes);
      var c := FromMessage(Lookup(Backfilled(s.view, uid, writes.first).collectors, uid), uid, msg);
      var queued := if uid in s.pending && s.pending[uid] != "" then Some(s.pending[uid]) else None;
      (Server(v, s.pending - {uid}), Some(Answer(uid !in v.repEff || c.hostname == "" || c.version == "", queued)))
  }

  predicate Bound(v: View, conn: Conn, uid: string) {
    uid in v.collectors && uid in v.conns && v.conns[uid] == conn
  }

  /** onConnectionClose, when the search over the collectors stops at uid. */
  function AfterClose(s: Server, conn: Conn, uid: string): Server {
    if Bound(s.view, conn, uid) then s.(view := Removed(s.view, uid)) else s
  }

  datatype PushResult = Sent | Queued | Refused

  /** PushConfig; sendOk says whether the connection's Send succeeds. */
  function PushOutcome(s: Server, uid: string, sendOk: bool): PushResult {
    if uid !in s.view.conns then Queued
    else if !Decodable(uid) then Refused
    else if sendOk then Sent
    else Queued
  }

  function AfterPush(s: Server, uid: string, yaml: string, sendOk: bool): Server {
    if PushOutcome(s, uid, sendOk) == Queued then s.(pending := s.pending[uid := yaml]) else s
  }

  predicate RestartSent(s: Server, uid: string, sendOk: bool) {
    uid in s.view.conns && AcceptsRestart(s.view, uid) && Decodable(uid) && sendOk
  }

  function RegistryRecords(v: View, uid: string, yaml: string, saved: bool): View {
    if uid in v.collectors then Upserted(v, v.collectors[uid].(effective := yaml), None, saved) else v
  }

  function StoreRecords(v: View, uid: string, yaml: string, saved: bool): View {
    if uid in v.stored && saved then v.(stored := v.stored[uid := v.stored[uid].(effective := yaml)]) else v
  }

  /** recordConfigVersion of internal/agent/tools.go, once the version row is written. */
  function AfterRecord(s: Server, uid: string, yaml: string, writes: Writes): Server {
    s.(view := StoreRecords(RegistryRecords(s.view, uid, yaml, writes.first), uid, yaml, writes.second))
  }

  /** The process ends and starts again over the same store. */
  function AfterRestart(s: Server): Server {
    Server(View(map[], map[], map[], map[], map[], s.view.stored), map[])
  }

  // ---- the server as an object ----

  class OpAmpServer {
    const reg: Registry
    var pending: map<string, string>

    constructor (reg: Registry)
      ensures this.reg == reg && pending == map[]
    {
      this.reg := reg;
      pending := map[];
    }

    function Current(): Server
      reads this, reg
    {
      Server(reg.Current(), pending)
    }

    method CollectorFromMessage(uid: string, msg: Message) returns (c: Collector)
      ensures c == FromMessage(Lookup(reg.collectors, uid), uid, msg)
    {
      c := NO_COLLECTOR.(uid := uid);
      if uid in reg.collectors {
        c := reg.collectors[uid];
      }
      if msg.description.Some? {
        var prev, kvs := c, msg.description.value.identifying;
        for i := 0 to |kvs|
          invariant c == Identified(prev, kvs, i)
        {
          if kvs[i].key == "service.version" {
            c := c.(version := kvs[i].value);
          } else if kvs[i].key == "host.name" {
            c := c.(hostname := kvs[i].value);
          }
        }
        var named, more := c, msg.description.value.nonIdentifying;
        for i := 0 to |more|
          invariant c == FilledIn(named, more, i)
        {
          if more[i].key == "service.version" {
            if c.version == "" {
              c := c.(version := more[i].value);
            }
          } else if more[i].key == "host.name" {
            if c.hostname == "" {
              c := c.(hostname := more[i].value);
            }
          }
        }
      }
      if msg.health.Some? {
        c := c.(status := if msg.health.value then Healthy else Unhealthy);
      } else if c.status == Blank || c.status == Offline {
        c := c.(status := Unknown);
      }
      if msg.effective.Some? {
        c := c.(effective := msg.effective.value);
      }
    }

    method TakePending(uid: string) returns (config: string)
      modifies this
      ensures config == if uid in old(pending) then old(pending)[uid] else ""
      ensures pending == old(pending) - {uid}
    {
      if uid !in pending {
        return "";
      }
      config := pending[uid];
      pending := pending - {uid};
    }

    /** The part of onMessage that records the ack of a remote config. */
    method NoteRemote(uid: string, remote: Option<RemoteStatus>)
      modifies reg
      ensures reg.Current() == RemoteReported(old(reg.Current()), uid, remote)
    {
      if remote.Some? && |remote.value.hash| > 0 {
        match remote.value.state {
          case Applied => reg.SetReportedHash(uid, Hex(remote.value.hash));
          case Rejected => reg.SetReportedHash(uid, "");
          case OtherState =>
        }
      }
    }

    /** The part of onMessage that takes over the stored record after a restart. */
    method Backfill(uid: string, saved: bool)
      modifies reg
      ensures reg.Current() == Backfilled(old(reg.Current()), uid, saved)
    {
      if uid !in reg.collectors {
        if uid in reg.stored {
          reg.Upsert(reg.stored[uid], None, saved);
        }
      }
    }

    method OnMessage(conn: Conn, msg: Message, now: int, writes: Writes) returns (answer: Option<Answer>)
      modifies this, reg
      ensures (Current(), answer) == AfterMessage(old(Current()), conn, msg, now, writes)
    {
      var uid := Hex(msg.uidBytes);
      if uid == "" {
        return None;
      }
      Backfill(uid, writes.first);
      var c := CollectorFromMessage(uid, msg);
      reg.Upsert(c.(lastSeen := now), Some(conn), writes.second);
      reg.SetCapabilities(uid, msg.capabilities);
      NoteRemote(uid, msg.remote);
      if msg.effective.Some? {
        reg.SetReportedEffective(uid, msg.effective.value);
      }
      assert reg.Current() == Heard(old(reg.Current()), uid, conn, msg, now, writes);
      var full := uid !in reg.repEff || c.hostname == "" || c.version == "";
      var config := TakePending(uid);
      answer := Some(Answer(full, if config != "" then Some(config) else None));
    }

    /** uidForConn: the search may stop at any collector bound to the connection. */
    method UidForConn(conn: Conn) returns (uid: Option<string>)
      ensures uid.Some? ==> Bound(reg.Current(), conn, uid.value)
      ensures uid.None? ==> forall u :: !Bound(reg.Current(), conn, u)
    {
      var todo := reg.collectors.Keys;
      while todo != {}
        invariant todo <= reg.collectors.Keys
        invariant forall u :: u in reg.collectors.Keys - todo ==> !Bound(reg.Current(), conn, u)
        decreases todo
      {
        var u :| u in todo;
        if u in reg.conns && reg.conns[u] == conn {
          return Some(u);
        }
        todo := todo - {u};
      }
      return None;
    }

    method OnConnectionClose(conn: Conn) returns (ghost picked: string)
      modifies reg
      ensures Current() == AfterClose(old(Current()), conn, picked)
      ensures (exists u :: Bound(old(reg.Current()), conn, u)) ==> Bound(old(reg.Current()), conn, picked)
    {
      var uid := UidForConn(conn);
      picked := "";
      if uid.Some? {
        picked := uid.value;
        reg.Remove(uid.value);
      }
    }

    method PushConfig(uid: string, yaml: string, sendOk: bool) returns (result: PushResult)
      modifies this
      ensures result == PushOutcome(old(Current()), uid, sendOk)
      ensures Current() == AfterPush(old(Current()), uid, yaml, sendOk)
    {
      if uid !in reg.conns {
        pending := pending[uid := yaml];
        return Queued;
      }
      if !Decodable(uid) {
        return Refused;
      }
      if !sendOk {
        pending := pending[uid := yaml];
        return Queued;
      }
      return Sent;
    }

    method SendRestart(uid: string, sendOk: bool) returns (sent: bool)
      ensures sent == RestartSent(Current(), uid, sendOk)
    {
      if !(uid in reg.conns) || !AcceptsRestart(reg.Current(), uid) {
        return false;
      }
      if !Decodable(uid) {
        return false;
      }
      if !sendOk {
        return false;
      }
      return true;
    }

    /** recordConfigVersion; a failed version row ends it before it touches anything else. */
    method RecordConfigVersion(uid: string, yaml: string, rowWritten: bool, writes: Writes)
      modifies reg
      ensures Current() == if rowWritten then AfterRecord(old(Current()), uid, yaml, writes) else old(Current())
    {
      if !rowWritten {
        return;
      }
      if uid in reg.collectors {
        reg.Upsert(reg.collectors[uid].(effective := yaml), None, writes.first);
      }
      if uid in reg.stored {
        if writes.second {
          reg.stored := reg.stored[uid := reg.stored[uid].(effective := yaml)];
        }
      }
    }
  }
}
