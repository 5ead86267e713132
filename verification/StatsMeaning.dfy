/** What the statistics of internal/api/stats.go say about the tasks and their event log, field by field. */
module StatsMeaning {
  import opened OpsStats
  import opened TaskLifecycle
  import opened Wrappers

  // ---- times in the log ----

  /** t is the time of the first event with a time in which task id enters a status. */
  predicate FirstEntering(events: seq<Timed>, id: string, to: Status, t: nat) {
    exists k :: 0 <= k < |events| && events[k].taskId == id && events[k].to == to && events[k].at == t != 0
                && forall j :: 0 <= j < k && events[j].taskId == id && events[j].to == to ==> events[j].at == 0
  }

  /** t is the time of the first event with a time in which task id leaves awaiting_approval. */
  predicate FirstLeaving(events: seq<Timed>, id: string, t: nat) {
    exists k :: 0 <= k < |events| && events[k].taskId == id && events[k].from == Some(AwaitingApproval)
                && events[k].at == t != 0
                && forall j :: 0 <= j < k && events[j].taskId == id && events[j].from == Some(AwaitingApproval) ==>
                     events[j].at == 0
  }

  /** t is the time of the last event in which task id becomes done or failed. */
  predicate LastEnding(events: seq<Timed>, id: string, t: nat) {
    exists k :: 0 <= k < |events| && events[k].taskId == id && events[k].to in {Done, Failed} && events[k].at == t
                && forall j :: k < j < |events| && events[j].taskId == id ==> events[j].to !in {Done, Failed}
  }

  /** t is the time of the first event of task id. */
  predicate FirstEvent(events: seq<Timed>, id: string, t: nat) {
    exists k :: 0 <= k < |events| && events[k].taskId == id && events[k].at == t
                && forall j :: 0 <= j < k ==> events[j].taskId != id
  }

  // ---- durations of a task ----

  /** From awaiting approval to leaving that status. */
  ghost predicate Waited(events: seq<Timed>, id: string, d: nat) {
    exists a: nat, b: nat ::
      FirstEntering(events, id, AwaitingApproval, a) && FirstLeaving(events, id, b) && b > a && d == b - a
  }

  /** From entering applying, or from the first event of a task that never did, to the end. */
  ghost predicate Dispatching(events: seq<Timed>, id: string, d: nat) {
    exists a: nat, b: nat ::
      && (if exists t: nat :: FirstEntering(events, id, Applying, t) then FirstEntering(events, id, Applying, a)
          else FirstEvent(events, id, a))
      && LastEnding(events, id, b) && 0 < a < b && d == b - a
  }

  /** From the first event of a rollback task to its end. */
  ghost predicate RollingBack(tasks: seq<TaskRow>, events: seq<Timed>, id: string, d: nat) {
    && (exists i :: 0 <= i < |tasks| && tasks[i].id == id && tasks[i].kind == Rollback)
    && exists a: nat, b: nat :: FirstEvent(events, id, a) && LastEnding(events, id, b) && 0 < a < b && d == b - a
  }

  lemma {:induction false} EnteringMeans(events: seq<Timed>, id: string, to: Status, p: Timed -> bool, t: nat)
    requires forall e :: p(e) <==> e.taskId == id && e.to == to
    ensures FirstEntering(events, id, to, t) <==> t != 0 && FirstTime(events, |events|, p) == t
  {
    FirstTimeMeans(events, |events|, p);
  }

  lemma {:induction false} LeavingMeans(events: seq<Timed>, id: string, t: nat)
    ensures FirstLeaving(events, id, t) <==> t != 0 && FirstTime(events, |events|, LeavesWait(id)) == t
  {
    FirstTimeMeans(events, |events|, LeavesWait(id));
  }

  lemma {:induction false} LastTimeMeans(events: seq<Timed>, n: nat, p: Timed -> bool)
    requires n <= |events|
    ensures var t := LastTime(events, n, p);
            || (t == 0 && forall k :: 0 <= k < n ==> !p(events[k]))
            || (exists k :: 0 <= k < n && p(events[k]) && events[k].at == t && forall j :: k < j < n ==> !p(events[j]))
  {
    if n > 0 {
      LastTimeMeans(events, n - 1, p);
    }
  }

  lemma {:induction false} EndingMeans(events: seq<Timed>, id: string, t: nat)
    requires t != 0
    ensures LastEnding(events, id, t) <==> LastTime(events, |events|, Ends(id)) == t
  {
    var p := Ends(id);
    LastTimeMeans(events, |events|, p);
    forall e ensures p(e) <==> e.taskId == id && e.to in {Done, Failed} {
    }
  }

  lemma {:induction false} BirthMeans(events: seq<Timed>, n: nat, id: string)
    requires n <= |events|
    ensures if Occurs(events, n, id)
            then exists k :: 0 <= k < n && events[k].taskId == id && events[k].at == Birth(events, n, id)
                             && forall j :: 0 <= j < k ==> events[j].taskId != id
            else Birth(events, n, id) == 0
  {
    if n > 0 {
      BirthMeans(events, n - 1, id);
      OccursNext(events, n - 1, id);
    }
  }

  lemma {:induction false} EventMeans(events: seq<Timed>, id: string, t: nat)
    requires t != 0
    ensures FirstEvent(events, id, t) <==> Birth(events, |events|, id) == t
  {
    BirthMeans(events, |events|, id);
  }

  lemma WaitMeans(events: seq<Timed>, id: string, d: nat)
    ensures WaitIn(events)(id) == Some(d) <==> Waited(events, id, d)
  {
    var a, b := FirstTime(events, |events|, EntersWait(id)), FirstTime(events, |events|, LeavesWait(id));
    EnteringMeans(events, id, AwaitingApproval, EntersWait(id), a);
    LeavingMeans(events, id, b);
    forall t: nat, u: nat | FirstEntering(events, id, AwaitingApproval, t) && FirstLeaving(events, id, u)
      ensures t == a && u == b
    {
      EnteringMeans(events, id, AwaitingApproval, EntersWait(id), t);
      LeavingMeans(events, id, u);
    }
  }

  lemma DispatchMeans(events: seq<Timed>, id: string, d: nat)
    ensures DispatchIn(events)(id) == Some(d) <==> Dispatching(events, id, d)
  {
    var first, last := Birth(events, |events|, id), LastTime(events, |events|, Ends(id));
    var applied := FirstTime(events, |events|, EntersApply(id));
    forall t: nat ensures FirstEntering(events, id, Applying, t) <==> t != 0 && applied == t {
      EnteringMeans(events, id, Applying, EntersApply(id), t);
    }
    forall t: nat | t != 0 ensures FirstEvent(events, id, t) <==> first == t {
      EventMeans(events, id, t);
    }
    forall t: nat | t != 0 ensures LastEnding(events, id, t) <==> last == t {
      EndingMeans(events, id, t);
    }
    var start := if applied == 0 then first else applied;
    if applied != 0 {
      assert FirstEntering(events, id, Applying, applied);
    }
    if 0 < start < last && d == last - start {
      assert LastEnding(events, id, last);
      assert applied == 0 ==> FirstEvent(events, id, start);
    }
  }

  lemma {:induction false} RollbackTasksMean(tasks: seq<TaskRow>, n: nat, id: string)
    requires n <= |tasks|
    ensures id in RollbackTasks(tasks, n) <==> exists i :: 0 <= i < n && tasks[i].id == id && tasks[i].kind == Rollback
  {
    if n > 0 {
      RollbackTasksMean(tasks, n - 1, id);
    }
  }

  lemma {:induction false} LifeMeans(events: seq<Timed>, id: string, d: nat)
    ensures Between(Birth(events, |events|, id), LastTime(events, |events|, Ends(id))) == Some(d) <==>
            exists a: nat, b: nat :: FirstEvent(events, id, a) && LastEnding(events, id, b) && 0 < a < b && d == b - a
  {
    var first, last := Birth(events, |events|, id), LastTime(events, |events|, Ends(id));
    forall t: nat | t != 0 ensures FirstEvent(events, id, t) <==> first == t {
      EventMeans(events, id, t);
    }
    forall t: nat | t != 0 ensures LastEnding(events, id, t) <==> last == t {
      EndingMeans(events, id, t);
    }
    if 0 < first < last && d == last - first {
      assert FirstEvent(events, id, first) && LastEnding(events, id, last);
    }
  }

  lemma {:induction false} RollbackMeans(tasks: seq<TaskRow>, events: seq<Timed>, id: string, d: nat)
    ensures RollbackIn(events, RollbackTasks(tasks, |tasks|))(id) == Some(d) <==> RollingBack(tasks, events, id, d)
  {
    RollbackTasksMean(tasks, |tasks|, id);
    LifeMeans(events, id, d);
  }

  // ---- the durations of all tasks ----

  /** Each duration occurs in s as often as there are tasks in the log that have it. */
  ghost predicate Gathers(s: seq<nat>, events: seq<Timed>, has: (string, nat) -> bool) {
    forall d: nat :: multiset(s)[d] == |set e | e in events && has(e.taskId, d) :: e.taskId|
  }

  lemma OverTasksGathers(f: string -> Option<nat>, events: seq<Timed>, has: (string, nat) -> bool)
    requires forall id, d: nat :: f(id) == Some(d) <==> has(id, d)
    ensures Gathers(OverTasks(f, events), events, has)
  {
    var ids := OrderAt(events, |events|);
    OrderExact(events, |events|);
    forall d: nat ensures multiset(OverTasks(f, events))[d] == |set e | e in events && has(e.taskId, d) :: e.taskId| {
      CollectCounts(f, ids, |ids|, d);
      var holders := set e | e in events && has(e.taskId, d) :: e.taskId;
      assert ids[..|ids|] == ids;
      forall id ensures id in Having(f, ids, |ids|, d) <==> id in holders {
        HavingExact(f, ids, |ids|, d, id);
        LoggedMeans(events, id);
      }
      assert Having(f, ids, |ids|, d) == holders;
    }
  }

  lemma LoggedMeans(events: seq<Timed>, id: string)
    ensures Occurs(events, |events|, id) <==> exists e :: e in events && e.taskId == id
  {
    if Occurs(events, |events|, id) {
      var k :| 0 <= k < |events| && events[k].taskId == id;
      assert events[k] in events;
    }
  }

  // ---- counts ----

  lemma OneMore(before: set<int>, now: set<int>, i: int, counts: bool)
    requires i !in before && now == before + if counts then {i} else {}
    ensures |now| == |before| + if counts then 1 else 0
  {
    if !counts {
      assert before + {} == before;
    }
  }

  ghost function WithStatus(tasks: seq<TaskRow>, n: nat, s: Status): set<int>
    requires n <= |tasks|
  {
    set i | 0 <= i < n && tasks[i].status == s
  }

  lemma {:induction false} CountMeans(tasks: seq<TaskRow>, n: nat, s: Status)
    requires n <= |tasks|
    ensures Count(tasks, n, s) == |WithStatus(tasks, n, s)|
  {
    if n > 0 {
      CountMeans(tasks, n - 1, s);
      OneMore(WithStatus(tasks, n - 1, s), WithStatus(tasks, n, s), n - 1, tasks[n - 1].status == s);
    }
  }

  /** The share of done among done and failed tasks, and 0 without any. */
  predicate IsRate(rate: real, done: nat, failed: nat) {
    && (done + failed == 0 ==> rate == 0.0)
    && (done + failed > 0 ==> rate * (done + failed) as real == done as real)
  }

  lemma RateMeans(done: nat, failed: nat)
    ensures IsRate(SuccessRate(done, failed), done, failed)
  {
  }

  lemma WaitsGathered(events: seq<Timed>)
    ensures Gathers(OverTasks(WaitIn(events), events), events, (id: string, d: nat) => Waited(events, id, d))
  {
    forall id, d: nat ensures WaitIn(events)(id) == Some(d) <==> Waited(events, id, d) {
      WaitMeans(events, id, d);
    }
    OverTasksGathers(WaitIn(events), events, (id: string, d: nat) => Waited(events, id, d));
  }

  lemma DispatchesGathered(events: seq<Timed>)
    ensures Gathers(OverTasks(DispatchIn(events), events), events, (id: string, d: nat) => Dispatching(events, id, d))
  {
    forall id, d: nat ensures DispatchIn(events)(id) == Some(d) <==> Dispatching(events, id, d) {
      DispatchMeans(events, id, d);
    }
    OverTasksGathers(DispatchIn(events), events, (id: string, d: nat) => Dispatching(events, id, d));
  }

  lemma {:induction false} RollbacksGathered(tasks: seq<TaskRow>, events: seq<Timed>)
    ensures Gathers(OverTasks(RollbackIn(events, RollbackTasks(tasks, |tasks|)), events), events,
                    (id: string, d: nat) => RollingBack(tasks, events, id, d))
  {
    var f := RollbackIn(events, RollbackTasks(tasks, |tasks|));
    forall id, d: nat ensures f(id) == Some(d) <==> RollingBack(tasks, events, id, d) {
      RollbackMeans(tasks, events, id, d);
    }
    OverTasksGathers(f, events, (id: string, d: nat) => RollingBack(tasks, events, id, d));
  }

  /** The average of durations in nanoseconds, in whole milliseconds, and 0 without any. */
  predicate IsAverage(average: nat, s: seq<nat>) {
    average == if s == [] then 0 else SumAll(s) / |s| / 1_000_000
  }

  lemma AverageMeans(s: seq<nat>)
    ensures IsAverage(Average(s), s)
  {
  }

  lemma {:induction false} FieldsMean(windowDays: int, tasks: seq<TaskRow>, events: seq<Timed>,
                                      waits: seq<nat>, dispatches: seq<nat>, rollbacks: seq<nat>)
    requires waits == OverTasks(WaitIn(events), events) && dispatches == OverTasks(DispatchIn(events), events)
    requires rollbacks == OverTasks(RollbackIn(events, RollbackTasks(tasks, |tasks|)), events)
    ensures var r := StatsOf(windowDays, tasks, events);
            && r.windowDays == windowDays && r.total == |tasks|
            && r.done == |WithStatus(tasks, |tasks|, Done)|
            && r.failed == |WithStatus(tasks, |tasks|, Failed)|
            && IsRate(r.successRate, r.done, r.failed)
            && r.approvalWaitMs == SummaryOf(waits) && r.dispatchMs == SummaryOf(dispatches)
            && r.rollbackCount == |rollbacks| && IsAverage(r.rollbackAvgMs, rollbacks)
  {
    CountMeans(tasks, |tasks|, Done);
    CountMeans(tasks, |tasks|, Failed);
    RateMeans(Count(tasks, |tasks|, Done), Count(tasks, |tasks|, Failed));
    AverageMeans(rollbacks);
  }

  /** What each field of the statistics says. */
  lemma StatsMean(windowDays: int, tasks: seq<TaskRow>, events: seq<Timed>)
    returns (waits: seq<nat>, dispatches: seq<nat>, rollbacks: seq<nat>)
    ensures Gathers(waits, events, (id: string, d: nat) => Waited(events, id, d))
    ensures Gathers(dispatches, events, (id: string, d: nat) => Dispatching(events, id, d))
    ensures Gathers(rollbacks, events, (id: string, d: nat) => RollingBack(tasks, events, id, d))
    ensures var r := StatsOf(windowDays, tasks, events);
            && r.windowDays == windowDays && r.total == |tasks|
            && r.done == |WithStatus(tasks, |tasks|, Done)|
            && r.failed == |WithStatus(tasks, |tasks|, Failed)|
            && IsRate(r.successRate, r.done, r.failed)
            && r.approvalWaitMs == SummaryOf(waits) && r.dispatchMs == SummaryOf(dispatches)
            && r.rollbackCount == |rollbacks| && IsAverage(r.rollbackAvgMs, rollbacks)
  {
    waits, dispatches := OverTasks(WaitIn(events), events), OverTasks(DispatchIn(events), events);
    rollbacks := OverTasks(RollbackIn(events, RollbackTasks(tasks, |tasks|)), events);
    WaitsGathered(events);
    DispatchesGathered(events);
    RollbacksGathered(tasks, events);
    FieldsMean(windowDays, tasks, events, waits, dispatches, rollbacks);
  }

  // ---- summaries ----

  lemma {:induction false} CountCons(x: nat, s: seq<nat>, n: nat, v: nat)
    requires n <= |s|
    ensures CountLe([x] + s, n + 1, v) == CountLe(s, n, v) + if x <= v then 1 else 0
  {
    if n > 0 {
      CountCons(x, s, n - 1, v);
    } else {
      assert CountLe([x] + s, 0, v) == 0;
    }
  }

  lemma {:induction false} CountInsert(x: nat, s: seq<nat>, v: nat)
    ensures |Insert(x, s)| == |s| + 1
    ensures CountLe(Insert(x, s), |s| + 1, v) == CountLe(s, |s|, v) + if x <= v then 1 else 0
  {
    CountCons(x, s, |s|, v);
    if s != [] && x > s[0] {
      CountInsert(x, s[1..], v);
      CountCons(s[0], s[1..], |s| - 1, v);
      CountCons(s[0], Insert(x, s[1..]), |s|, v);
      assert s == [s[0]] + s[1..];
    }
  }

  lemma {:induction false} CountSort(s: seq<nat>, v: nat)
    ensures |Sort(s)| == |s| && CountLe(Sort(s), |s|, v) == CountLe(s, |s|, v)
  {
    if s != [] {
      CountSort(s[1..], v);
      CountInsert(s[0], Sort(s[1..]), v);
      CountCons(s[0], s[1..], |s| - 1, v);
      assert s == [s[0]] + s[1..];
    }
  }

  /** v is the least element of s that at least p percent of the elements do not exceed. */
  ghost predicate NearestRank(s: seq<nat>, p: nat, v: nat) {
    && v in s && 100 * CountLe(s, |s|, v) >= p * |s|
    && forall w :: w in s && 100 * CountLe(s, |s|, w) >= p * |s| ==> v <= w
  }

  lemma {:induction false} PercentileMeans(s: seq<nat>, p: nat)
    requires s != [] && 1 <= p <= 100
    ensures NearestRank(s, p, Percentile(Sort(s), p))
  {
    SortFacts(s);
    PercentileIsNearestRank(Sort(s), p);
    forall v ensures CountLe(Sort(s), |s|, v) == CountLe(s, |s|, v) {
      CountSort(s, v);
    }
    forall v ensures v in s <==> v in Sort(s) {
      assert v in multiset(s) <==> v in multiset(Sort(s));
    }
  }

  /** A summary: how many durations, and in whole milliseconds their average, median and 90th percentile. */
  lemma SummaryMeans(s: seq<nat>) returns (ms: seq<nat>)
    ensures |ms| == |s| && forall i :: 0 <= i < |s| ==> ms[i] == s[i] / 1_000_000
    ensures s == [] ==> SummaryOf(s) == Summary(0, 0, 0, 0)
    ensures s != [] ==>
              && SummaryOf(s).count == |s| && SummaryOf(s).avg == SumAll(ms) / |ms|
              && NearestRank(ms, 50, SummaryOf(s).p50) && NearestRank(ms, 90, SummaryOf(s).p90)
  {
    ms := AllMillis(s);
    if s != [] {
      PercentileMeans(ms, 50);
      PercentileMeans(ms, 90);
    }
  }
}
