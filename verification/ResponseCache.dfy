/**
  cacheModel of internal/agent/llm.go: complete one-response answers are kept for ttl under the
  digest of the request's messages.
 */
module ResponseCache {
  import opened LlmReply
  import opened Wrappers

  datatype Entry = Entry(resp: Response, expireAt: int)

  /**
    One call: the digest of its messages (None when they cannot be marshalled), the clock at the
    lookup and at the store, and what the inner model answers if it is asked.
   */
  datatype Call = Call(key: Option<string>, getAt: int, putAt: int, answer: Reply)

  type Cache = map<string, Entry>

  /** What the decorator hands on: an answer, except that an empty stream becomes an error. */
  function Deliver(answer: Reply): Reply {
    if answer == Stream([]) then Failed(StreamClosed) else answer
  }

  /** Only a successful answer of exactly one response is stored. */
  predicate Cacheable(answer: Reply) {
    answer.Stream? && |answer.items| == 1 && answer.items[0].error.None?
  }

  predicate Hit(m: Cache, call: Call) {
    call.key.Some? && call.key.value in m && call.getAt <= m[call.key.value].expireAt
  }

  /** What the caller receives. */
  function ReplyOf(m: Cache, call: Call): Reply {
    if call.key.None? then call.answer
    else if Hit(m, call) then Stream([m[call.key.value].resp])
    else Deliver(call.answer)
  }

  /** The cache afterwards: an expired entry is dropped, a cacheable answer stored. */
  function AfterCall(ttl: int, m: Cache, call: Call): Cache {
    if call.key.None? || Hit(m, call) then m
    else if Cacheable(call.answer) then m[call.key.value := Entry(call.answer.items[0], call.putAt + ttl)]
    else m - {call.key.value}
  }

  class CacheModel {
    const ttl: int
    var cache: map<string, Entry>

    constructor (ttl: int)
      ensures this.ttl == ttl && cache == map[]
    {
      this.ttl := ttl;
      cache := map[];
    }

    method Get(key: string, now: int) returns (entry: Option<Entry>)
      modifies this
      ensures entry == if key in old(cache) && now <= old(cache)[key].expireAt then Some(old(cache)[key]) else None
      ensures cache == if entry.Some? then old(cache) else old(cache) - {key}
    {
      if key !in cache {
        return None;
      }
      var e := cache[key];
      if now > e.expireAt {
        cache := cache - {key};
        return None;
      }
      return Some(e);
    }

    method Put(key: string, resp: Response, now: int)
      modifies this
      ensures cache == old(cache)[key := Entry(resp, now + ttl)]
    {
      cache := cache[key := Entry(resp, now + ttl)];
    }

    /** GenerateContent; called tells whether the inner model was asked. */
    method GenerateContent(call: Call) returns (reply: Reply, called: bool)
      modifies this
      ensures reply == ReplyOf(old(cache), call) && called == !Hit(old(cache), call)
      ensures cache == AfterCall(ttl, old(cache), call)
    {
      if call.key.None? {
        return call.answer, true;
      }
      var key := call.key.value;
      var entry := Get(key, call.getAt);
      if entry.Some? {
        return Stream([entry.value.resp]), false;
      }
      called := true;
      match call.answer {
        case Failed(err) =>
          reply := Failed(err);
        case Stream(items) =>
          if items == [] {
            return Failed(StreamClosed), true;
          }
          var first, rest := items[0], items[1..];
          assert [first] + rest == items;
          if first.error.None? && |rest| == 0 {
            Put(key, first, call.putAt);
            return Stream([first]), true;
          }
          reply := Stream([first] + rest);
      }
    }
  }

  // ---- whole runs ----

  /** The cache after the first n calls of a run that started empty. */
  function After(ttl: int, calls: seq<Call>, n: nat): Cache
    requires n <= |calls|
  {
    if n == 0 then map[] else AfterCall(ttl, After(ttl, calls, n - 1), calls[n - 1])
  }

  /** The inner model is asked at call k. */
  predicate Asked(ttl: int, calls: seq<Call>, k: nat)
    requires k < |calls|
  {
    !Hit(After(ttl, calls, k), calls[k])
  }

  /** Entry e under key was stored by call j. */
  predicate StoredBy(ttl: int, calls: seq<Call>, j: nat, key: string, e: Entry)
    requires j < |calls|
  {
    && Asked(ttl, calls, j) && calls[j].key == Some(key) && Cacheable(calls[j].answer)
    && e == Entry(calls[j].answer.items[0], calls[j].putAt + ttl)
  }

  lemma {:induction false} EntryOrigin(ttl: int, calls: seq<Call>, n: nat, key: string) returns (j: nat)
    requires n <= |calls| && key in After(ttl, calls, n)
    ensures j < n && StoredBy(ttl, calls, j, key, After(ttl, calls, n)[key])
  {
    var m, call := After(ttl, calls, n - 1), calls[n - 1];
    if call.key == Some(key) && !Hit(m, call) {
      j := n - 1;
    } else {
      j := EntryOrigin(ttl, calls, n - 1, key);
    }
  }

  /**
    Provenance, for any clock and any answers: a call that does not reach the inner model gets the
    one response of an earlier call with the same key that did, stored at most ttl before.
   */
  lemma HitOrigin(ttl: int, calls: seq<Call>, k: nat) returns (j: nat)
    requires k < |calls| && !Asked(ttl, calls, k)
    ensures j < k && Asked(ttl, calls, j) && calls[j].key == calls[k].key && Cacheable(calls[j].answer)
    ensures ReplyOf(After(ttl, calls, k), calls[k]) == calls[j].answer
    ensures calls[k].getAt <= calls[j].putAt + ttl
  {
    j := EntryOrigin(ttl, calls, k, calls[k].key.value);
    assert calls[j].answer.items == [calls[j].answer.items[0]];
  }

  /** A call that reaches the inner model hands its answer on whole; a stream closed at once becomes an error. */
  lemma {:induction false} AskedGetsAnswer(ttl: int, calls: seq<Call>, k: nat)
    requires k < |calls| && Asked(ttl, calls, k)
    ensures var call, reply := calls[k], ReplyOf(After(ttl, calls, k), calls[k]);
            && (call.answer != Stream([]) ==> reply == call.answer)
            && (call.answer == Stream([]) && call.key.Some? ==> reply == Failed(StreamClosed))
  {
  }

  /** The digest tells apart any two message lists it accepts. */
  ghost predicate Injective<M(!new)>(digest: M -> Option<string>) {
    forall x, y :: digest(x).Some? && digest(x) == digest(y) ==> x == y
  }

  predicate Monotone(calls: seq<Call>) {
    && (forall i :: 0 <= i < |calls| ==> calls[i].getAt <= calls[i].putAt)
    && (forall i :: 0 < i < |calls| ==> calls[i - 1].putAt <= calls[i].getAt)
  }

  /** A request: its messages, and everything else in it, such as the tool declarations. */
  datatype Request<M, T> = Request(messages: M, tools: T)

  /** The calls carry these requests, at any clock values, and the inner model is a function of the request. */
  ghost predicate Answers<M(!new), T(!new)>(calls: seq<Call>, requests: seq<Request<M, T>>, digest: M -> Option<string>,
                                            model: Request<M, T> -> Reply) {
    && |requests| == |calls|
    && forall k :: 0 <= k < |calls| ==>
         calls[k].key == digest(requests[k].messages) && calls[k].answer == model(requests[k])
  }

  /** What the caller of call would receive without any cached entry. */
  function Uncached(call: Call): Reply {
    if call.key.None? then call.answer else Deliver(call.answer)
  }

  /** Every call of the run gets what the inner model answers to its own request. */
  ghost predicate Transparent(ttl: int, calls: seq<Call>) {
    forall k :: 0 <= k < |calls| ==> ReplyOf(After(ttl, calls, k), calls[k]) == Uncached(calls[k])
  }

  /** Where an answer is stored, the rest of the request does not matter. */
  ghost predicate ToolsDontMatter<M(!new), T(!new)>(digest: M -> Option<string>, model: Request<M, T> -> Reply) {
    forall m, t, u :: digest(m).Some? && Cacheable(model(Request(m, t))) ==>
                        Deliver(model(Request(m, u))) == model(Request(m, t))
  }

  /** Refinement: then caching changes no reply, whatever the clock says. */
  lemma CacheRefines<M(!new), T(!new)>(ttl: int, calls: seq<Call>, requests: seq<Request<M, T>>,
                                       digest: M -> Option<string>, model: Request<M, T> -> Reply)
    requires Injective(digest) && Answers(calls, requests, digest, model) && ToolsDontMatter(digest, model)
    ensures Transparent(ttl, calls)
  {
    forall k | 0 <= k < |calls| ensures ReplyOf(After(ttl, calls, k), calls[k]) == Uncached(calls[k]) {
      if !Asked(ttl, calls, k) {
        var j := HitOrigin(ttl, calls, k);
        var r, q := requests[j], requests[k];
        assert r.messages == q.messages;
        assert r == Request(q.messages, r.tools) && q == Request(q.messages, q.tools);
      }
    }
  }

  /** The run that asks twice at once, with the same messages and different tools. */
  function Twice<M, T>(m: M, t: T, u: T, digest: M -> Option<string>, model: Request<M, T> -> Reply): seq<Call> {
    [Call(digest(m), 0, 0, model(Request(m, t))), Call(digest(m), 0, 0, model(Request(m, u)))]
  }

  /** Its second call gets the stored answer to the first, not the answer to its own request. */
  lemma {:induction false} ToolChangeUnseen<M(!new), T(!new)>(ttl: int, m: M, t: T, u: T, digest: M -> Option<string>,
                                                              model: Request<M, T> -> Reply)
    requires ttl >= 0 && digest(m).Some? && Cacheable(model(Request(m, t)))
    ensures var calls := Twice(m, t, u, digest, model);
            && Monotone(calls) && Answers(calls, [Request(m, t), Request(m, u)], digest, model)
            && ReplyOf(After(ttl, calls, 1), calls[1]) == model(Request(m, t))
  {
    var calls := Twice(m, t, u, digest, model);
    assert After(ttl, calls, 0) == map[];
    assert After(ttl, calls, 1) == AfterCall(ttl, map[], calls[0]);
  }

  /**
    Exactly when the cache is sound: every run, even on a forward clock, gets the inner model's answers if
    and only if answers that are stored do not depend on anything but the messages.
   */
  lemma CacheSoundIff<M(!new), T(!new)>(ttl: int, digest: M -> Option<string>, model: Request<M, T> -> Reply)
    requires ttl >= 0 && Injective(digest)
    ensures ToolsDontMatter(digest, model) <==>
            forall calls, requests :: Answers(calls, requests, digest, model) && Monotone(calls) ==>
                Transparent(ttl, calls)
  {
    if ToolsDontMatter(digest, model) {
      forall calls, requests | Answers(calls, requests, digest, model) && Monotone(calls)
        ensures Transparent(ttl, calls)
      {
        CacheRefines(ttl, calls, requests, digest, model);
      }
    } else {
      var m, t, u :| digest(m).Some? && Cacheable(model(Request(m, t)))
                     && Deliver(model(Request(m, u))) != model(Request(m, t));
      var calls, requests := Twice(m, t, u, digest, model), [Request(m, t), Request(m, u)];
      ToolChangeUnseen(ttl, m, t, u, digest, model);
      assert Answers(calls, requests, digest, model) && Monotone(calls);
      assert ReplyOf(After(ttl, calls, 1), calls[1]) != Uncached(calls[1]);
      assert !Transparent(ttl, calls);
    }
  }

  /** After a stored answer its key stays present for at least ttl. */
  lemma {:induction false} KeyPresent(ttl: int, calls: seq<Call>, j: nat, key: string, n: nat)
    requires ttl >= 0 && j < n <= |calls| && Monotone(calls)
    requires Asked(ttl, calls, j) && calls[j].key == Some(key) && Cacheable(calls[j].answer)
    ensures calls[n - 1].putAt >= calls[j].putAt
    ensures || calls[n - 1].putAt > calls[j].putAt + ttl
            || (key in After(ttl, calls, n) && After(ttl, calls, n)[key].expireAt >= calls[j].putAt + ttl)
    decreases n
  {
    if n > j + 1 {
      KeyPresent(ttl, calls, j, key, n - 1);
    }
  }

  /** On a monotone clock two inner calls for a key whose first answer was stored are more than ttl apart. */
  lemma InnerCallsApart(ttl: int, calls: seq<Call>, j: nat, k: nat)
    requires ttl >= 0 && j < k < |calls| && Monotone(calls)
    requires calls[j].key.Some? && calls[j].key == calls[k].key && Cacheable(calls[j].answer)
    requires Asked(ttl, calls, j) && Asked(ttl, calls, k)
    ensures calls[k].getAt > calls[j].putAt + ttl
  {
    KeyPresent(ttl, calls, j, calls[j].key.value, k);
  }

  /** What was answered well by a single response is answered from the cache for as long as ttl. */
  lemma RepeatIsHit(ttl: int, calls: seq<Call>, j: nat, k: nat, resp: Response)
    requires ttl >= 0 && j < k < |calls| && Monotone(calls) && Asked(ttl, calls, j)
    requires calls[j].key.Some? && calls[j].key == calls[k].key
    requires calls[j].answer == Stream([resp]) && resp.error.None? && calls[k].getAt <= calls[j].putAt + ttl
    ensures !Asked(ttl, calls, k)
  {
    KeyPresent(ttl, calls, j, calls[j].key.value, k);
  }
}
