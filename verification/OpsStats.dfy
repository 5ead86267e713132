/** internal/api/stats.go: one pass over the event log, durations per task, nearest-rank percentiles. */
module OpsStats {
  import opened TaskLifecycle
  import opened Wrappers

  /** A status event and its time; 0 stands for the zero time. */
  datatype Timed = Timed(taskId: string, from: Option<Status>, to: Status, at: nat)

  /** The rows the aggregation reads of a task. */
  datatype TaskRow = TaskRow(id: string, kind: Kind, status: Status)

  /** What one task's events boil down to. */
  datatype Span = Span(first: nat, enterWait: nat, leaveWait: nat, enterApply: nat, terminal: nat)

  datatype Summary = Summary(count: nat, avg: nat, p50: nat, p90: nat)

  datatype Response = Response(
    windowDays: int, total: nat, done: nat, failed: nat, successRate: real,
    approvalWaitMs: Summary, dispatchMs: Summary, rollbackCount: nat, rollbackAvgMs: nat)

  // ---- the meaning of a span ----

  /** The time of the first event satisfying p that has a time. */
  function FirstTime(events: seq<Timed>, n: nat, p: Timed -> bool): nat
    requires n <= |events|
  {
    if n == 0 then 0
    else
      var t := FirstTime(events, n - 1, p);
      if t == 0 && p(events[n - 1]) then events[n - 1].at else t
  }

  /** The time of the last event satisfying p. */
  function LastTime(events: seq<Timed>, n: nat, p: Timed -> bool): nat
    requires n <= |events|
  {
    if n == 0 then 0 else if p(events[n - 1]) then events[n - 1].at else LastTime(events, n - 1, p)
  }

  predicate Occurs(events: seq<Timed>, n: nat, id: string)
    requires n <= |events|
  {
    exists k :: 0 <= k < n && events[k].taskId == id
  }

  /** The time of a task's first event, whatever it is. */
  function Birth(events: seq<Timed>, n: nat, id: string): nat
    requires n <= |events|
  {
    if n == 0 then 0
    else if Occurs(events, n - 1, id) then Birth(events, n - 1, id)
    else if events[n - 1].taskId == id then events[n - 1].at
    else 0
  }

  function EntersWait(id: string): Timed -> bool {
    (e: Timed) => e.taskId == id && e.to == AwaitingApproval
  }

  function LeavesWait(id: string): Timed -> bool {
    (e: Timed) => e.taskId == id && e.from == Some(AwaitingApproval)
  }

  function EntersApply(id: string): Timed -> bool {
    (e: Timed) => e.taskId == id && e.to == Applying
  }

  function Ends(id: string): Timed -> bool {
    (e: Timed) => e.taskId == id && (e.to == Done || e.to == Failed)
  }

  function SpanAt(events: seq<Timed>, n: nat, id: string): Span
    requires n <= |events|
  {
    Span(Birth(events, n, id), FirstTime(events, n, EntersWait(id)), FirstTime(events, n, LeavesWait(id)),
         FirstTime(events, n, EntersApply(id)), LastTime(events, n, Ends(id)))
  }

  /** The tasks with events, in order of first appearance. */
  function OrderAt(events: seq<Timed>, n: nat): seq<string>
    requires n <= |events|
  {
    if n == 0 then []
    else OrderAt(events, n - 1) + if Occurs(events, n - 1, events[n - 1].taskId) then [] else [events[n - 1].taskId]
  }

  // ---- durations ----

  function Between(from: nat, to: nat): Option<nat> {
    if from != 0 && to != 0 && to > from then Some(to - from) else None
  }

  function WaitOf(sp: Span): Option<nat> {
    Between(sp.enterWait, sp.leaveWait)
  }

  /** From entering applying, or from the first event when that is missing. */
  function DispatchOf(sp: Span): Option<nat> {
    Between(if sp.enterApply == 0 then sp.first else sp.enterApply, sp.terminal)
  }

  function RollbackOf(sp: Span, isRollback: bool): Option<nat> {
    if isRollback then Between(sp.first, sp.terminal) else None
  }

  function RollbackTasks(tasks: seq<TaskRow>, n: nat): set<string>
    requires n <= |tasks|
  {
    if n == 0 then {} else RollbackTasks(tasks, n - 1) + if tasks[n - 1].kind == Rollback then {tasks[n - 1].id} else {}
  }

  function Found(d: Option<nat>): seq<nat> {
    if d.Some? then [d.value] else []
  }

  /** The defined values of f along the first n ids. */
  function Collect(f: string -> Option<nat>, ids: seq<string>, n: nat): seq<nat>
    requires n <= |ids|
  {
    if n == 0 then [] else Collect(f, ids, n - 1) + Found(f(ids[n - 1]))
  }

  // ---- summaries ----

  function Sum(s: seq<nat>, n: nat): nat
    requires n <= |s|
  {
    if n == 0 then 0 else Sum(s, n - 1) + s[n - 1]
  }

  /** time.Duration.Milliseconds of a non-negative duration in nanoseconds. */
  function Millis(d: nat): nat {
    d / 1_000_000
  }

  function AllMillis(s: seq<nat>): (r: seq<nat>)
    ensures |r| == |s| && forall i :: 0 <= i < |s| ==> r[i] == Millis(s[i])
  {
    seq(|s|, i requires 0 <= i < |s| => Millis(s[i]))
  }

  predicate Sorted(s: seq<nat>) {
    forall i, j :: 0 <= i < j < |s| ==> s[i] <= s[j]
  }

  function Insert(x: nat, s: seq<nat>): seq<nat> {
    if s == [] || x <= s[0] then [x] + s else [s[0]] + Insert(x, s[1..])
  }

  /** sort.Slice in ascending order. */
  function Sort(s: seq<nat>): seq<nat> {
    if s == [] then [] else Insert(s[0], Sort(s[1..]))
  }

  /** percentile: the nearest rank, clamped into the slice. */
  function Percentile(sorted: seq<nat>, p: nat): nat {
    if |sorted| == 0 then 0
    else
      var idx := (p * |sorted| + 99) / 100;
      var low := if idx < 1 then 1 else idx;
      var high := if low > |sorted| then |sorted| else low;
      sorted[high - 1]
  }

  function Mean(sum: nat, n: nat): nat
    requires n > 0
  {
    sum / n
  }

  function SummaryOf(durations: seq<nat>): Summary {
    var ms := AllMillis(durations);
    if ms == [] then Summary(0, 0, 0, 0)
    else Summary(|ms|, Mean(SumAll(ms), |ms|), Percentile(Sort(ms), 50), Percentile(Sort(ms), 90))
  }

  /** summarize. */
  method Summarize(durations: seq<nat>) returns (out: Summary)
    ensures out == SummaryOf(durations)
  {
    out := Summary(|durations|, 0, 0, 0);
    if |durations| == 0 {
      return;
    }
    var ms: seq<nat>, sum: nat := [], 0;
    for i := 0 to |durations|
      invariant |ms| == i && forall k :: 0 <= k < i ==> ms[k] == Millis(durations[k])
      invariant sum == Sum(ms, i)
    {
      var m := Millis(durations[i]);
      SumPrefix(ms, ms + [m], i);
      ms := ms + [m];
      sum := sum + m;
    }
    assert ms == AllMillis(durations);
    var sorted := Sort(ms);
    out := out.(avg := Mean(sum, |ms|), p50 := Percentile(sorted, 50), p90 := Percentile(sorted, 90));
  }

  lemma {:induction false} SumPrefix(s: seq<nat>, t: seq<nat>, n: nat)
    requires n <= |s| && n <= |t| && forall i :: 0 <= i < n ==> s[i] == t[i]
    ensures Sum(s, n) == Sum(t, n)
  {
    if n > 0 {
      SumPrefix(s, t, n - 1);
    }
  }

  // ---- the percentile is the nearest rank ----

  function CountLe(s: seq<nat>, n: nat, v: nat): nat
    requires n <= |s|
  {
    if n == 0 then 0 else CountLe(s, n - 1, v) + if s[n - 1] <= v then 1 else 0
  }

  lemma {:induction false} CountSorted(s: seq<nat>, n: nat, k: nat, v: nat)
    requires Sorted(s) && n <= |s|
    ensures k < n && s[k] <= v ==> CountLe(s, n, v) > k
    ensures k < n && v < s[k] ==> CountLe(s, n, v) <= k
    ensures CountLe(s, n, v) <= n
  {
    if n > 0 {
      CountSorted(s, n - 1, k, v);
      if k == n - 1 && s[k] <= v {
        AllCounted(s, n, v);
      }
    }
  }

  lemma {:induction false} AllCounted(s: seq<nat>, n: nat, v: nat)
    requires n <= |s| && forall i :: 0 <= i < n ==> s[i] <= v
    ensures CountLe(s, n, v) == n
  {
    if n > 0 {
      AllCounted(s, n - 1, v);
    }
  }

  /** The p-th percentile is the least element that at least p percent of the elements do not exceed. */
  lemma {:induction false} PercentileIsNearestRank(s: seq<nat>, p: nat)
    requires Sorted(s) && |s| > 0 && 1 <= p <= 100
    ensures var v := Percentile(s, p);
            && v in s
            && 100 * CountLe(s, |s|, v) >= p * |s|
            && forall w :: w in s && 100 * CountLe(s, |s|, w) >= p * |s| ==> v <= w
  {
    var n := |s|;
    var rank := (p * n + 99) / 100;
    RankBounds(p, n);
    var v := s[rank - 1];
    CountSorted(s, n, rank - 1, v);
    forall w | w in s && 100 * CountLe(s, n, w) >= p * n ensures v <= w {
      CountSorted(s, n, rank - 1, w);
    }
  }

  /** The rank is p percent of n, rounded up. */
  lemma RankBounds(p: nat, n: nat)
    requires n > 0 && 1 <= p <= 100
    ensures var rank := (p * n + 99) / 100; 1 <= rank <= n && 100 * (rank - 1) < p * n <= 100 * rank
  {
    assert n <= p * n <= 100 * n;
  }

  lemma TimesMonotone(x: nat, y: nat, d: nat)
    requires x <= y
    ensures x * d <= y * d
  {
  }

  /** A higher percentile is never smaller, so the 50th is at most the 90th. */
  lemma PercentileMonotone(s: seq<nat>, p: nat, q: nat)
    requires Sorted(s) && p <= q
    ensures Percentile(s, p) <= Percentile(s, q)
  {
    TimesMonotone(p, q, |s|);
  }

  // ---- the single pass ----

  function Count(tasks: seq<TaskRow>, n: nat, s: Status): nat
    requires n <= |tasks|
  {
    if n == 0 then 0 else Count(tasks, n - 1, s) + if tasks[n - 1].status == s then 1 else 0
  }

  function WaitIn(events: seq<Timed>): string -> Option<nat> {
    (id: string) => WaitOf(SpanAt(events, |events|, id))
  }

  function DispatchIn(events: seq<Timed>): string -> Option<nat> {
    (id: string) => DispatchOf(SpanAt(events, |events|, id))
  }

  function RollbackIn(events: seq<Timed>, rollbackTasks: set<string>): string -> Option<nat> {
    (id: string) => RollbackOf(SpanAt(events, |events|, id), id in rollbackTasks)
  }

  /** The defined values of f over the tasks of the log. */
  function OverTasks(f: string -> Option<nat>, events: seq<Timed>): seq<nat> {
    Collect(f, OrderAt(events, |events|), |OrderAt(events, |events|)|)
  }

  function Average(s: seq<nat>): nat {
    if s == [] then 0 else Millis(Mean(SumAll(s), |s|))
  }

  function SuccessRate(done: nat, failed: nat): real {
    if done + failed > 0 then done as real / (done + failed) as real else 0.0
  }

  function StatsOf(windowDays: int, tasks: seq<TaskRow>, events: seq<Timed>): Response {
    var done, failed := Count(tasks, |tasks|, Done), Count(tasks, |tasks|, Failed);
    var rollbacks := OverTasks(RollbackIn(events, RollbackTasks(tasks, |tasks|)), events);
    Response(windowDays, |tasks|, done, failed, SuccessRate(done, failed),
             SummaryOf(OverTasks(WaitIn(events), events)), SummaryOf(OverTasks(DispatchIn(events), events)),
             |rollbacks|, Average(rollbacks))
  }

  /** How one event of its task changes a span. */
  function Touched(sp: Span, e: Timed): Span {
    Span(sp.first,
         if e.to == AwaitingApproval && sp.enterWait == 0 then e.at else sp.enterWait,
         if e.from == Some(AwaitingApproval) && sp.leaveWait == 0 then e.at else sp.leaveWait,
         if e.to == Applying && sp.enterApply == 0 then e.at else sp.enterApply,
         if e.to == Done || e.to == Failed then e.at else sp.terminal)
  }

  /** The first time is that of an event with a time, and every earlier matching event has none. */
  lemma {:induction false} FirstTimeMeans(events: seq<Timed>, n: nat, p: Timed -> bool)
    requires n <= |events|
    ensures var t := FirstTime(events, n, p);
            if t == 0 then forall k :: 0 <= k < n && p(events[k]) ==> events[k].at == 0
            else exists k :: 0 <= k < n && p(events[k]) && events[k].at == t
                             && forall j :: 0 <= j < k && p(events[j]) ==> events[j].at == 0
  {
    if n > 0 {
      FirstTimeMeans(events, n - 1, p);
    }
  }

  lemma SpanNext(events: seq<Timed>, n: nat, id: string)
    requires n < |events|
    ensures SpanAt(events, n + 1, id) ==
            if events[n].taskId != id then SpanAt(events, n, id)
            else Touched(if Occurs(events, n, id) then SpanAt(events, n, id) else Span(events[n].at, 0, 0, 0, 0),
                         events[n])
  {
    NothingYet(events, n, id);
  }

  /** What the loop over the events knows after i of them. */
  ghost predicate Gathered(spans: map<string, Span>, order: seq<string>, events: seq<Timed>, i: nat)
    requires i <= |events|
  {
    && order == OrderAt(events, i)
    && (forall id :: id in spans <==> Occurs(events, i, id))
    && (forall id :: id in spans ==> spans[id] == SpanAt(events, i, id))
    && (forall id :: id in order ==> id in spans)
  }

  lemma GatherNext(spans: map<string, Span>, order: seq<string>, events: seq<Timed>, i: nat)
    requires i < |events| && Gathered(spans, order, events, i)
    ensures var e := events[i];
            var sp := if e.taskId in spans then spans[e.taskId] else Span(e.at, 0, 0, 0, 0);
            Gathered(spans[e.taskId := Touched(sp, e)], if e.taskId in spans then order else order + [e.taskId],
                     events, i + 1)
  {
    forall id ensures Occurs(events, i + 1, id) <==> Occurs(events, i, id) || events[i].taskId == id {
      OccursNext(events, i, id);
    }
    forall id ensures SpanAt(events, i + 1, id) ==
            if events[i].taskId != id then SpanAt(events, i, id)
            else Touched(if Occurs(events, i, id) then SpanAt(events, i, id) else Span(events[i].at, 0, 0, 0, 0),
                         events[i])
    {
      SpanNext(events, i, id);
    }
  }

  /** The body of the loop over the events. */
  method TouchSpan(before: map<string, Span>, orderBefore: seq<string>, e: Timed)
    returns (spans: map<string, Span>, order: seq<string>)
    ensures spans ==
            before[e.taskId := Touched(if e.taskId in before then before[e.taskId] else Span(e.at, 0, 0, 0, 0), e)]
    ensures order == if e.taskId in before then orderBefore else orderBefore + [e.taskId]
  {
    spans, order := before, orderBefore;
    if e.taskId !in spans {
      spans := spans[e.taskId := Span(e.at, 0, 0, 0, 0)];
      order := order + [e.taskId];
    }
    var sp := spans[e.taskId];
    if e.to == AwaitingApproval && sp.enterWait == 0 {
      sp := sp.(enterWait := e.at);
    }
    if e.from == Some(AwaitingApproval) && sp.leaveWait == 0 {
      sp := sp.(leaveWait := e.at);
    }
    if e.to == Applying && sp.enterApply == 0 {
      sp := sp.(enterApply := e.at);
    }
    if e.to == Done || e.to == Failed {
      sp := sp.(terminal := e.at);
    }
    spans := spans[e.taskId := sp];
  }

  /** The loop over the events: a map of spans and the order in which they appeared. */
  method Spans(events: seq<Timed>) returns (spans: map<string, Span>, order: seq<string>)
    ensures Gathered(spans, order, events, |events|)
  {
    spans, order := map[], [];
    for i := 0 to |events|
      invariant Gathered(spans, order, events, i)
    {
      GatherNext(spans, order, events, i);
      spans, order := TouchSpan(spans, order, events[i]);
    }
  }

  lemma OccursNext(events: seq<Timed>, n: nat, id: string)
    requires n < |events|
    ensures Occurs(events, n + 1, id) <==> Occurs(events, n, id) || events[n].taskId == id
  {
  }

  lemma {:induction false} NothingYet(events: seq<Timed>, n: nat, id: string)
    requires n <= |events|
    ensures !Occurs(events, n, id) ==> SpanAt(events, n, id) == Span(0, 0, 0, 0, 0)
  {
    if n > 0 {
      NothingYet(events, n - 1, id);
      OccursNext(events, n - 1, id);
    }
  }

  /** The loop body over the spans: the durations one span adds. */
  method Measure(sp: Span, isRollback: bool) returns (wait: seq<nat>, dispatch: seq<nat>, rollback: seq<nat>)
    ensures wait == Found(WaitOf(sp)) && dispatch == Found(DispatchOf(sp))
    ensures rollback == Found(RollbackOf(sp, isRollback))
  {
    wait, dispatch, rollback := [], [], [];
    if sp.enterWait != 0 && sp.leaveWait != 0 && sp.leaveWait > sp.enterWait {
      wait := [sp.leaveWait - sp.enterWait];
    }
    var start := sp.enterApply;
    if start == 0 {
      start := sp.first;
    }
    if start != 0 && sp.terminal != 0 && sp.terminal > start {
      dispatch := [sp.terminal - start];
    }
    if isRollback && sp.first != 0 && sp.terminal != 0 && sp.terminal > sp.first {
      rollback := [sp.terminal - sp.first];
    }
  }

  /** The loop over the spans in order; f, g and h say what the spans of the log are worth. */
  method Durations(spans: map<string, Span>, order: seq<string>, rollbackTasks: set<string>,
                   ghost f: string -> Option<nat>, ghost g: string -> Option<nat>, ghost h: string -> Option<nat>)
    returns (waits: seq<nat>, dispatches: seq<nat>, rollbacks: seq<nat>)
    requires forall id :: id in order ==>
                            && id in spans && f(id) == WaitOf(spans[id]) && g(id) == DispatchOf(spans[id])
                            && h(id) == RollbackOf(spans[id], id in rollbackTasks)
    ensures waits == Collect(f, order, |order|)
    ensures dispatches == Collect(g, order, |order|)
    ensures rollbacks == Collect(h, order, |order|)
  {
    waits, dispatches, rollbacks := [], [], [];
    for i := 0 to |order|
      invariant waits == Collect(f, order, i)
      invariant dispatches == Collect(g, order, i)
      invariant rollbacks == Collect(h, order, i)
    {
      var id := order[i];
      assert id in order;
      var wait, dispatch, rollback := Measure(spans[id], id in rollbackTasks);
      waits, dispatches, rollbacks := waits + wait, dispatches + dispatch, rollbacks + rollback;
    }
  }

  method AllDurations(events: seq<Timed>, rollbackTasks: set<string>)
    returns (waits: seq<nat>, dispatches: seq<nat>, rollbacks: seq<nat>)
    ensures waits == OverTasks(WaitIn(events), events)
    ensures dispatches == OverTasks(DispatchIn(events), events)
    ensures rollbacks == OverTasks(RollbackIn(events, rollbackTasks), events)
  {
    var spans, order := Spans(events);
    waits, dispatches, rollbacks := Durations(spans, order, rollbackTasks,
      WaitIn(events), DispatchIn(events), RollbackIn(events, rollbackTasks));
  }

  /** The loop that counts final states, and the one that finds the rollback tasks. */
  method CountTasks(tasks: seq<TaskRow>) returns (done: nat, failed: nat, rollbackTasks: set<string>)
    ensures done == Count(tasks, |tasks|, Done) && failed == Count(tasks, |tasks|, Failed)
    ensures rollbackTasks == RollbackTasks(tasks, |tasks|)
  {
    done, failed, rollbackTasks := 0, 0, {};
    for i := 0 to |tasks|
      invariant done == Count(tasks, i, Done) && failed == Count(tasks, i, Failed)
    {
      match tasks[i].status {
        case Done => done := done + 1;
        case Failed => failed := failed + 1;
        case _ =>
      }
    }
    for i := 0 to |tasks|
      invariant rollbackTasks == RollbackTasks(tasks, i)
    {
      if tasks[i].kind == Rollback {
        rollbackTasks := rollbackTasks + {tasks[i].id};
      }
    }
  }

  method AverageMillis(durations: seq<nat>) returns (average: nat)
    ensures average == Average(durations)
  {
    average := 0;
    if |durations| > 0 {
      var sum: nat := 0;
      for i := 0 to |durations|
        invariant sum == Sum(durations, i)
      {
        sum := sum + durations[i];
      }
      average := Millis(sum / |durations|);
    }
  }

  /** computeOpsStats. */
  method ComputeOpsStats(windowDays: int, tasks: seq<TaskRow>, events: seq<Timed>) returns (resp: Response)
    ensures resp == StatsOf(windowDays, tasks, events)
  {
    var done, failed, rollbackTasks := CountTasks(tasks);
    var rate := 0.0;
    if done + failed > 0 {
      rate := done as real / (done + failed) as real;
    }
    var waits, dispatches, rollbacks := AllDurations(events, rollbackTasks);
    var waitSummary := Summarize(waits);
    var dispatchSummary := Summarize(dispatches);
    var average := AverageMillis(rollbacks);
    resp := Response(windowDays, |tasks|, done, failed, rate, waitSummary, dispatchSummary, |rollbacks|, average);
  }

  // ---- only the order of events within a task matters ----

  /** The events of one task, in order. */
  function Own(events: seq<Timed>, n: nat, id: string): seq<Timed>
    requires n <= |events|
  {
    if n == 0 then [] else Own(events, n - 1, id) + if events[n - 1].taskId == id then [events[n - 1]] else []
  }

  /** The two logs interleave the same events of each task differently. */
  ghost predicate Reinterleaved(x: seq<Timed>, y: seq<Timed>) {
    forall id :: Own(x, |x|, id) == Own(y, |y|, id)
  }

  lemma {:induction false} FirstTimeOwn(events: seq<Timed>, n: nat, id: string, p: Timed -> bool)
    requires n <= |events| && forall e :: p(e) ==> e.taskId == id
    ensures var own := Own(events, n, id); FirstTime(events, n, p) == FirstTime(own, |own|, p)
    ensures var own := Own(events, n, id); LastTime(events, n, p) == LastTime(own, |own|, p)
  {
    if n > 0 {
      FirstTimeOwn(events, n - 1, id, p);
      var before, own := Own(events, n - 1, id), Own(events, n, id);
      TimesPrefix(before, own, |before|, p);
    }
  }

  lemma {:induction false} TimesPrefix(x: seq<Timed>, y: seq<Timed>, n: nat, p: Timed -> bool)
    requires n <= |x| && n <= |y| && forall i :: 0 <= i < n ==> x[i] == y[i]
    ensures FirstTime(x, n, p) == FirstTime(y, n, p) && LastTime(x, n, p) == LastTime(y, n, p)
  {
    if n > 0 {
      TimesPrefix(x, y, n - 1, p);
    }
  }

  lemma {:induction false} BirthOwn(events: seq<Timed>, n: nat, id: string)
    requires n <= |events|
    ensures var own := Own(events, n, id);
            && (Occurs(events, n, id) <==> own != [])
            && Birth(events, n, id) == if own == [] then 0 else own[0].at
  {
    if n > 0 {
      BirthOwn(events, n - 1, id);
      OccursNext(events, n - 1, id);
    }
  }

  lemma {:induction false} SpanOwn(x: seq<Timed>, y: seq<Timed>, id: string)
    requires Own(x, |x|, id) == Own(y, |y|, id)
    ensures SpanAt(x, |x|, id) == SpanAt(y, |y|, id)
    ensures Occurs(x, |x|, id) <==> Occurs(y, |y|, id)
  {
    BirthOwn(x, |x|, id);
    BirthOwn(y, |y|, id);
    FirstTimeOwn(x, |x|, id, EntersWait(id));
    FirstTimeOwn(y, |y|, id, EntersWait(id));
    FirstTimeOwn(x, |x|, id, LeavesWait(id));
    FirstTimeOwn(y, |y|, id, LeavesWait(id));
    FirstTimeOwn(x, |x|, id, EntersApply(id));
    FirstTimeOwn(y, |y|, id, EntersApply(id));
    FirstTimeOwn(x, |x|, id, Ends(id));
    FirstTimeOwn(y, |y|, id, Ends(id));
  }

  predicate Distinct(ids: seq<string>) {
    forall i, j :: 0 <= i < j < |ids| ==> ids[i] != ids[j]
  }

  lemma {:induction false} OrderExact(events: seq<Timed>, n: nat)
    requires n <= |events|
    ensures Distinct(OrderAt(events, n))
    ensures forall id :: id in OrderAt(events, n) <==> Occurs(events, n, id)
  {
    if n > 0 {
      OrderExact(events, n - 1);
      forall id ensures Occurs(events, n, id) <==> Occurs(events, n - 1, id) || events[n - 1].taskId == id {
        OccursNext(events, n - 1, id);
      }
    }
  }

  function Holder(id: string, v: Option<nat>, d: nat): set<string> {
    if v == Some(d) then {id} else {}
  }

  /** The first n ids whose value is d. */
  function Having(f: string -> Option<nat>, ids: seq<string>, n: nat, d: nat): set<string>
    requires n <= |ids|
  {
    if n == 0 then {} else Having(f, ids, n - 1, d) + Holder(ids[n - 1], f(ids[n - 1]), d)
  }

  lemma {:induction false} HavingExact(f: string -> Option<nat>, ids: seq<string>, n: nat, d: nat, id: string)
    requires n <= |ids|
    ensures id in Having(f, ids, n, d) <==> id in ids[..n] && f(id) == Some(d)
  {
    if n > 0 {
      HavingExact(f, ids, n - 1, d, id);
      assert ids[..n] == ids[..n - 1] + [ids[n - 1]];
    }
  }

  lemma {:induction false} NotYetHaving(f: string -> Option<nat>, ids: seq<string>, n: nat, d: nat)
    requires n < |ids| && Distinct(ids)
    ensures ids[n] !in Having(f, ids, n, d)
  {
    HavingExact(f, ids, n, d, ids[n]);
  }

  /** Along distinct ids a value is collected as often as ids have it. */
  lemma {:induction false} CollectCounts(f: string -> Option<nat>, ids: seq<string>, n: nat, d: nat)
    requires n <= |ids| && Distinct(ids)
    ensures multiset(Collect(f, ids, n))[d] == |Having(f, ids, n, d)|
  {
    if n > 0 {
      CollectCounts(f, ids, n - 1, d);
      NotYetHaving(f, ids, n - 1, d);
      CountAppended(Collect(f, ids, n - 1), Having(f, ids, n - 1, d), f(ids[n - 1]), ids[n - 1], d);
    }
  }

  lemma CountAppended(s: seq<nat>, holders: set<string>, v: Option<nat>, id: string, d: nat)
    requires multiset(s)[d] == |holders| && id !in holders
    ensures multiset(s + Found(v))[d] == |holders + Holder(id, v, d)|
  {
    if v.Some? {
      assert multiset(s + [v.value]) == multiset(s) + multiset{v.value};
    } else {
      assert s + [] == s && holders + {} == holders;
    }
  }

  /** The durations collected over two enumerations of the same tasks differ in order only. */
  lemma {:induction false} CollectPermutes(f: string -> Option<nat>, x: seq<string>, y: seq<string>)
    requires Distinct(x) && Distinct(y) && forall id :: id in x <==> id in y
    ensures multiset(Collect(f, x, |x|)) == multiset(Collect(f, y, |y|))
  {
    forall d ensures multiset(Collect(f, x, |x|))[d] == multiset(Collect(f, y, |y|))[d] {
      SameHaving(f, x, y, d);
      CollectCounts(f, x, |x|, d);
      CollectCounts(f, y, |y|, d);
    }
  }

  lemma {:induction false} SameHaving(f: string -> Option<nat>, x: seq<string>, y: seq<string>, d: nat)
    requires forall id :: id in x <==> id in y
    ensures Having(f, x, |x|, d) == Having(f, y, |y|, d)
  {
    assert x[..|x|] == x && y[..|y|] == y;
    forall id ensures id in Having(f, x, |x|, d) <==> id in Having(f, y, |y|, d) {
      HavingExact(f, x, |x|, d, id);
      HavingExact(f, y, |y|, d, id);
    }
  }

  lemma {:induction false} CollectAgree(f: string -> Option<nat>, g: string -> Option<nat>, ids: seq<string>, n: nat)
    requires n <= |ids| && forall i :: 0 <= i < n ==> f(ids[i]) == g(ids[i])
    ensures Collect(f, ids, n) == Collect(g, ids, n)
  {
    if n > 0 {
      CollectAgree(f, g, ids, n - 1);
    }
  }

  // ---- summaries do not depend on the order ----

  lemma {:induction false} InsertContents(x: nat, s: seq<nat>)
    ensures multiset(Insert(x, s)) == multiset(s) + multiset{x} && |Insert(x, s)| == |s| + 1
  {
    if s != [] && x > s[0] {
      InsertContents(x, s[1..]);
      assert s == [s[0]] + s[1..];
    }
  }

  lemma {:induction false} InsertSorted(x: nat, s: seq<nat>)
    requires Sorted(s)
    ensures Sorted(Insert(x, s))
  {
    if s != [] && x > s[0] {
      var rest := s[1..];
      InsertSorted(x, rest);
      InsertContents(x, rest);
      AtLeast(s[0], Insert(x, rest), rest, x);
    }
  }

  lemma AtLeast(low: nat, r: seq<nat>, rest: seq<nat>, x: nat)
    requires Sorted(r) && multiset(r) == multiset(rest) + multiset{x}
    requires low <= x && forall v :: v in rest ==> low <= v
    ensures Sorted([low] + r)
  {
    forall i | 0 <= i < |r| ensures low <= r[i] {
      assert r[i] in multiset(r);
      assert r[i] in multiset(rest) || r[i] == x;
      assert r[i] in multiset(rest) ==> r[i] in rest;
    }
  }

  lemma {:induction false} SortFacts(s: seq<nat>)
    ensures Sorted(Sort(s)) && multiset(Sort(s)) == multiset(s) && |Sort(s)| == |s|
  {
    if s != [] {
      SortFacts(s[1..]);
      InsertContents(s[0], Sort(s[1..]));
      InsertSorted(s[0], Sort(s[1..]));
      assert s == [s[0]] + s[1..];
    }
  }

  /** A multiset has one sorted order. */
  lemma {:induction false} SortedUnique(s: seq<nat>, t: seq<nat>)
    requires Sorted(s) && Sorted(t) && multiset(s) == multiset(t)
    ensures s == t
  {
    assert |multiset(s)| == |s| && |multiset(t)| == |t|;
    if s != [] {
      SameHead(s, t);
      assert s == [s[0]] + s[1..] && t == [t[0]] + t[1..];
      assert multiset(s[1..]) == multiset(s) - multiset{s[0]};
      assert multiset(t[1..]) == multiset(t) - multiset{t[0]};
      SortedUnique(s[1..], t[1..]);
    }
  }

  lemma SameHead(s: seq<nat>, t: seq<nat>)
    requires Sorted(s) && Sorted(t) && multiset(s) == multiset(t) && |s| > 0 && |t| > 0
    ensures s[0] == t[0]
  {
    assert s[0] in multiset(t) && t[0] in multiset(s);
  }

  lemma {:induction false} SumInsert(x: nat, s: seq<nat>)
    ensures SumAll(Insert(x, s)) == x + SumAll(s)
  {
    SumCons(x, s);
    if s != [] && x > s[0] {
      SumInsert(x, s[1..]);
      SumCons(s[0], Insert(x, s[1..]));
      SumCons(s[0], s[1..]);
      assert s == [s[0]] + s[1..];
    }
  }

  lemma {:induction false} SumSort(s: seq<nat>)
    ensures SumAll(Sort(s)) == SumAll(s)
  {
    if s != [] {
      SumSort(s[1..]);
      SumInsert(s[0], Sort(s[1..]));
      SumCons(s[0], s[1..]);
      assert s == [s[0]] + s[1..];
    }
  }

  function SumAll(s: seq<nat>): nat {
    Sum(s, |s|)
  }

  lemma {:induction false} SumCons(x: nat, s: seq<nat>)
    ensures SumAll([x] + s) == x + SumAll(s)
  {
    SumShift(x, s, |s|);
  }

  lemma {:induction false} SumShift(x: nat, s: seq<nat>, n: nat)
    requires n <= |s|
    ensures Sum([x] + s, n + 1) == x + Sum(s, n)
  {
    if n > 0 {
      SumShift(x, s, n - 1);
    }
  }

  lemma {:induction false} PermutedSort(s: seq<nat>, t: seq<nat>)
    requires multiset(s) == multiset(t)
    ensures Sort(s) == Sort(t) && SumAll(s) == SumAll(t) && |s| == |t|
  {
    SortFacts(s);
    SortFacts(t);
    SortedUnique(Sort(s), Sort(t));
    SumSort(s);
    SumSort(t);
  }

  /** Summaries and averages look at the durations, not at their order. */
  lemma SummaryOfPermuted(s: seq<nat>, t: seq<nat>)
    requires multiset(s) == multiset(t)
    ensures SummaryOf(s) == SummaryOf(t) && Average(s) == Average(t) && |s| == |t|
  {
    PermutedSort(s, t);
    MillisPermuted(s, t);
    PermutedSort(AllMillis(s), AllMillis(t));
  }

  lemma {:induction false} MillisPermuted(s: seq<nat>, t: seq<nat>)
    requires multiset(s) == multiset(t)
    ensures multiset(AllMillis(s)) == multiset(AllMillis(t))
  {
    MillisOfSort(s);
    MillisOfSort(t);
    PermutedSort(s, t);
  }

  lemma {:induction false} MillisOfSort(s: seq<nat>)
    ensures multiset(AllMillis(s)) == multiset(AllMillis(Sort(s)))
  {
    if s == [] {
      assert AllMillis(s) == AllMillis(Sort(s));
    } else {
      MillisOfSort(s[1..]);
      MillisOfInsert(s[0], Sort(s[1..]));
      MillisCons(s[0], s[1..]);
      assert s == [s[0]] + s[1..];
    }
  }

  lemma {:induction false} MillisOfInsert(x: nat, s: seq<nat>)
    ensures multiset(AllMillis(Insert(x, s))) == multiset(AllMillis(s)) + multiset{Millis(x)}
  {
    MillisCons(x, s);
    if s != [] && x > s[0] {
      MillisOfInsert(x, s[1..]);
      MillisCons(s[0], Insert(x, s[1..]));
      MillisCons(s[0], s[1..]);
      assert s == [s[0]] + s[1..];
    }
  }

  lemma MillisCons(x: nat, s: seq<nat>)
    ensures multiset(AllMillis([x] + s)) == multiset(AllMillis(s)) + multiset{Millis(x)}
  {
    assert AllMillis([x] + s) == [Millis(x)] + AllMillis(s);
  }

  /** In every summary the median is at most the 90th percentile. */
  lemma MedianAtMostP90(durations: seq<nat>)
    ensures SummaryOf(durations).p50 <= SummaryOf(durations).p90
  {
    var ms := AllMillis(durations);
    SortFacts(ms);
    PercentileMonotone(Sort(ms), 50, 90);
  }

  lemma OverTasksPermutes(f: string -> Option<nat>, g: string -> Option<nat>, x: seq<Timed>, y: seq<Timed>)
    requires Reinterleaved(x, y) && forall id :: f(id) == g(id)
    ensures multiset(OverTasks(f, x)) == multiset(OverTasks(g, y))
  {
    var xs, ys := OrderAt(x, |x|), OrderAt(y, |y|);
    OrderExact(x, |x|);
    OrderExact(y, |y|);
    forall id ensures id in xs <==> id in ys {
      SpanOwn(x, y, id);
    }
    CollectPermutes(f, xs, ys);
    CollectAgree(f, g, ys, |ys|);
  }

  /** Logs that agree task by task give the same statistics, however the tasks are interleaved. */
  lemma StatsUnchangedByReinterleaving(windowDays: int, tasks: seq<TaskRow>, x: seq<Timed>, y: seq<Timed>)
    requires Reinterleaved(x, y)
    ensures StatsOf(windowDays, tasks, x) == StatsOf(windowDays, tasks, y)
  {
    var r := RollbackTasks(tasks, |tasks|);
    forall id ensures SpanAt(x, |x|, id) == SpanAt(y, |y|, id) {
      SpanOwn(x, y, id);
    }
    SameOverTasks(WaitIn(x), WaitIn(y), x, y);
    SameOverTasks(DispatchIn(x), DispatchIn(y), x, y);
    SameOverTasks(RollbackIn(x, r), RollbackIn(y, r), x, y);
  }

  lemma SameOverTasks(f: string -> Option<nat>, g: string -> Option<nat>, x: seq<Timed>, y: seq<Timed>)
    requires Reinterleaved(x, y) && forall id :: f(id) == g(id)
    ensures SummaryOf(OverTasks(f, x)) == SummaryOf(OverTasks(g, y))
    ensures Average(OverTasks(f, x)) == Average(OverTasks(g, y)) && |OverTasks(f, x)| == |OverTasks(g, y)|
  {
    OverTasksPermutes(f, g, x, y);
    SummaryOfPermuted(OverTasks(f, x), OverTasks(g, y));
  }
}
