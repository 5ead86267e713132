/** internal/task/task.go: the task state machine, the service around it and its event log. */
module TaskLifecycle {
  import opened Wrappers

  datatype Status = Pending | Generating | Validating | AwaitingApproval | Applying | Done | Rejected | Failed

  datatype Kind = Generate | Optimize | Apply | Upgrade | Rollback

  datatype Task = Task(
    kind: Kind, status: Status, generated: string, targetGroup: string, targetInstance: string,
    rollbackVersion: nat, approver: string, rejectReason: string, error: string)

  datatype Event = Event(taskId: string, from: Option<Status>, to: Status)

  /** CanTransition. */
  predicate CanTransition(from: Status, to: Status) {
    match to
    case Failed => from != Done && from != Rejected && from != Failed
    case Generating => from == Pending || from == Failed
    case Validating => from == Generating
    case AwaitingApproval => from == Validating
    case Applying => from == AwaitingApproval
    case Done => from == Applying
    case Rejected => from == AwaitingApproval
    case Pending => from == Pending
  }

  /** The table of the design: every legal transition, and no other. */
  lemma LegalTransitions(from: Status, to: Status)
    ensures CanTransition(from, to) <==>
            (from, to) in {(Pending, Pending), (Pending, Generating), (Failed, Generating), (Generating, Validating),
                           (Validating, AwaitingApproval), (AwaitingApproval, Applying), (AwaitingApproval, Rejected),
                           (Applying, Done), (Pending, Failed), (Generating, Failed), (Validating, Failed),
                           (AwaitingApproval, Failed), (Applying, Failed)}
  {
  }

  // ---- the service ----

  /** The tasks table and the event log. */
  datatype Store = Store(tasks: map<string, Task>, events: seq<Event>)

  /** One service call. Create carries the whole task, with no status standing for the empty string. */
  datatype Call =
    | CreateTask(id: string, task: Task, status: Option<Status>)
    | ApproveTask(id: string, approver: string)
    | RejectTask(id: string, approver: string, reason: string)
    | SetTaskStatus(id: string, to: Status)

  function Target(call: Call): Status {
    match call
    case CreateTask(_, _, status) => if status.Some? then status.value else Pending
    case ApproveTask(_, _) => Applying
    case RejectTask(_, _, _) => Rejected
    case SetTaskStatus(_, to) => to
  }

  function Edited(t: Task, call: Call): Task {
    match call
    case ApproveTask(_, approver) => t.(status := Applying, approver := approver)
    case RejectTask(_, approver, reason) => t.(status := Rejected, approver := approver, rejectReason := reason)
    case SetTaskStatus(_, to) => t.(status := to)
    case CreateTask(_, task, _) => task.(status := Target(call))
  }

  /** Whether a call succeeds; saved says whether the write to the tasks table does. */
  predicate Succeeds(s: Store, call: Call, saved: bool) {
    saved && if call.CreateTask? then call.id !in s.tasks
             else call.id in s.tasks && CanTransition(s.tasks[call.id].status, Target(call))
  }

  /** The effect of a call; logged says whether the event is written, which nobody waits for. */
  function After(s: Store, call: Call, saved: bool, logged: bool): Store {
    if !Succeeds(s, call, saved) then s
    else
      var from := if call.CreateTask? then None else Some(s.tasks[call.id].status);
      var t := if call.CreateTask? then call.task else s.tasks[call.id];
      Store(s.tasks[call.id := Edited(t, call)],
            if logged then s.events + [Event(call.id, from, Target(call))] else s.events)
  }

  class Service {
    var tasks: map<string, Task>
    var events: seq<Event>

    constructor ()
      ensures Current() == Store(map[], [])
    {
      tasks, events := map[], [];
    }

    function Current(): Store
      reads this
    {
      Store(tasks, events)
    }

    method RecordEvent(id: string, from: Option<Status>, to: Status, logged: bool)
      modifies `events
      ensures events == if logged then old(events) + [Event(id, from, to)] else old(events)
    {
      if logged {
        events := events + [Event(id, from, to)];
      }
    }

    method Create(id: string, task: Task, status: Option<Status>, saved: bool, logged: bool) returns (ok: bool)
      modifies this
      ensures ok == Succeeds(old(Current()), CreateTask(id, task, status), saved)
      ensures Current() == After(old(Current()), CreateTask(id, task, status), saved, logged)
    {
      var t := task.(status := if status.Some? then status.value else Pending);
      if !saved || id in tasks {
        return false;
      }
      tasks := tasks[id := t];
      RecordEvent(id, None, t.status, logged);
      return true;
    }

    method Approve(id: string, approver: string, saved: bool, logged: bool) returns (ok: bool)
      modifies this
      ensures ok == Succeeds(old(Current()), ApproveTask(id, approver), saved)
      ensures Current() == After(old(Current()), ApproveTask(id, approver), saved, logged)
    {
      if id !in tasks {
        return false;
      }
      var t := tasks[id];
      var from := t.status;
      if !CanTransition(from, Applying) {
        return false;
      }
      t := t.(status := Applying);
      t := t.(approver := approver);
      if !saved {
        return false;
      }
      tasks := tasks[id := t];
      RecordEvent(id, Some(from), t.status, logged);
      return true;
    }

    method Reject(id: string, approver: string, reason: string, saved: bool, logged: bool) returns (ok: bool)
      modifies this
      ensures ok == Succeeds(old(Current()), RejectTask(id, approver, reason), saved)
      ensures Current() == After(old(Current()), RejectTask(id, approver, reason), saved, logged)
    {
      if id !in tasks {
        return false;
      }
      var t := tasks[id];
      var from := t.status;
      if !CanTransition(from, Rejected) {
        return false;
      }
      t := t.(status := Rejected);
      t := t.(approver := approver, rejectReason := reason);
      if !saved {
        return false;
      }
      tasks := tasks[id := t];
      RecordEvent(id, Some(from), t.status, logged);
      return true;
    }

    method SetStatus(id: string, to: Status, saved: bool, logged: bool) returns (ok: bool)
      modifies this
      ensures ok == Succeeds(old(Current()), SetTaskStatus(id, to), saved)
      ensures Current() == After(old(Current()), SetTaskStatus(id, to), saved, logged)
    {
      if id !in tasks {
        return false;
      }
      var t := tasks[id];
      var from := t.status;
      if !CanTransition(from, to) {
        return false;
      }
      t := t.(status := to);
      if !saved {
        return false;
      }
      tasks := tasks[id := t];
      RecordEvent(id, Some(from), t.status, logged);
      return true;
    }
  }

  // ---- runs ----

  /** Any sequence of calls, each with the fate of its two writes. */
  datatype Attempt = Attempt(call: Call, saved: bool, logged: bool)

  function At(run: seq<Attempt>, n: nat): Store
    requires n <= |run|
  {
    if n == 0 then Store(map[], []) else After(At(run, n - 1), run[n - 1].call, run[n - 1].saved, run[n - 1].logged)
  }

  predicate AllLogged(run: seq<Attempt>) {
    forall i :: 0 <= i < |run| ==> run[i].logged
  }

  /** The events of one task, in order. */
  function EventsOf(events: seq<Event>, id: string): seq<Event> {
    if events == [] then []
    else EventsOf(events[..|events| - 1], id) + if events[|events| - 1].taskId == id then [events[|events| - 1]] else []
  }

  lemma {:induction false} EventsSnoc(events: seq<Event>, e: Event, id: string)
    ensures EventsOf(events + [e], id) == EventsOf(events, id) + if e.taskId == id then [e] else []
  {
    assert (events + [e])[..|events|] == events;
  }

  /** A history: it starts with a creation and continues through legal transitions. */
  predicate Chained(h: seq<Event>) {
    && (|h| > 0 ==> h[0].from == None)
    && forall i :: 0 < i < |h| ==> h[i].from == Some(h[i - 1].to) && CanTransition(h[i - 1].to, h[i].to)
  }

  lemma ChainSnoc(h: seq<Event>, e: Event)
    requires Chained(h)
    requires if h == [] then e.from == None else e.from == Some(h[|h| - 1].to) && CanTransition(h[|h| - 1].to, e.to)
    ensures Chained(h + [e])
  {
  }

  /** History h is that of a task as it stands in the table. */
  ghost predicate Describes(h: seq<Event>, tasks: map<string, Task>, id: string) {
    Chained(h) && (id in tasks <==> h != []) && (h != [] ==> h[|h| - 1].to == tasks[id].status)
  }

  lemma DescribesNext(h: seq<Event>, tasks: map<string, Task>, id: string, t: Task, e: Event)
    requires Describes(h, tasks, id) && e.to == t.status
    requires if id in tasks then e.from == Some(tasks[id].status) && CanTransition(tasks[id].status, e.to)
            else e.from == None
    ensures Describes(h + [e], tasks[id := t], id)
  {
    ChainSnoc(h, e);
  }

  lemma {:induction false} CallKeepsHistory(s: Store, call: Call, saved: bool, id: string)
    requires Describes(EventsOf(s.events, id), s.tasks, id)
    ensures Describes(EventsOf(After(s, call, saved, true).events, id), After(s, call, saved, true).tasks, id)
  {
    if Succeeds(s, call, saved) {
      var from := if call.CreateTask? then None else Some(s.tasks[call.id].status);
      var e := Event(call.id, from, Target(call));
      var t := Edited(if call.CreateTask? then call.task else s.tasks[call.id], call);
      EventsSnoc(s.events, e, id);
      if call.id == id {
        DescribesNext(EventsOf(s.events, id), s.tasks, id, t, e);
      } else {
        assert EventsOf(s.events, id) + [] == EventsOf(s.events, id);
      }
    }
  }

  /** A task's events chain from its creation to its stored status; a task that does not exist has none. */
  lemma {:induction false} EventsChain(run: seq<Attempt>, n: nat, id: string)
    requires n <= |run| && AllLogged(run)
    ensures Describes(EventsOf(At(run, n).events, id), At(run, n).tasks, id)
  {
    if n > 0 {
      EventsChain(run, n - 1, id);
      CallKeepsHistory(At(run, n - 1), run[n - 1].call, run[n - 1].saved, id);
    }
  }

  predicate Terminal(s: Status) {
    s == Done || s == Rejected
  }

  /** Done and rejected are absorbing: no later call, successful or not, changes the status. */
  lemma {:induction false} TerminalStays(run: seq<Attempt>, m: nat, n: nat, id: string)
    requires m <= n <= |run| && id in At(run, m).tasks && Terminal(At(run, m).tasks[id].status)
    ensures id in At(run, n).tasks && At(run, n).tasks[id] == At(run, m).tasks[id]
    decreases n
  {
    if m < n {
      TerminalStays(run, m, n - 1, id);
    }
  }

  /** Tasks are created pending or awaiting approval, as every caller does. */
  predicate CreatesOpen(run: seq<Attempt>) {
    forall i :: 0 <= i < |run| && run[i].call.CreateTask? ==>
                  Target(run[i].call) == Pending || Target(run[i].call) == AwaitingApproval
  }

  /** Applying and rejected are entered by Approve and Reject alone, never by SetStatus. */
  predicate DecidedByCalls(run: seq<Attempt>) {
    forall i :: 0 <= i < |run| && run[i].call.SetTaskStatus? ==>
                  run[i].call.to != Applying && run[i].call.to != Rejected
  }

  /** Step k is a call that rejects the task, made by this approver for this reason, and it succeeds. */
  predicate RejectedAt(run: seq<Attempt>, k: nat, id: string, approver: string, reason: string) {
    && k < |run| && run[k].call == RejectTask(id, approver, reason) && run[k].saved
    && id in At(run, k).tasks && At(run, k).tasks[id].status == AwaitingApproval
  }

  /** A rejected task says who rejected it and why. */
  lemma {:induction false} RejectionIsRecorded(run: seq<Attempt>, n: nat, id: string) returns (k: nat)
    requires n <= |run| && CreatesOpen(run) && DecidedByCalls(run)
    requires id in At(run, n).tasks && At(run, n).tasks[id].status == Rejected
    ensures k < n && RejectedAt(run, k, id, At(run, n).tasks[id].approver, At(run, n).tasks[id].rejectReason)
  {
    var s, call := At(run, n - 1), run[n - 1].call;
    if id in s.tasks && s.tasks[id].status == Rejected {
      k := RejectionIsRecorded(run, n - 1, id);
    } else {
      k := n - 1;
    }
  }

  predicate ApprovedAt(run: seq<Attempt>, k: nat, id: string, approver: string) {
    && k < |run| && run[k].call == ApproveTask(id, approver) && run[k].saved
    && id in At(run, k).tasks && At(run, k).tasks[id].status == AwaitingApproval
  }

  /** A task in applying or done says who approved it. */
  lemma {:induction false} ApprovalIsRecorded(run: seq<Attempt>, n: nat, id: string) returns (k: nat)
    requires n <= |run| && CreatesOpen(run) && DecidedByCalls(run)
    requires id in At(run, n).tasks && At(run, n).tasks[id].status in {Applying, Done}
    ensures k < n && ApprovedAt(run, k, id, At(run, n).tasks[id].approver)
  {
    var s := At(run, n - 1);
    if id in s.tasks && s.tasks[id].status in {Applying, Done} {
      k := ApprovalIsRecorded(run, n - 1, id);
    } else {
      k := n - 1;
    }
  }

  // ---- what a history can look like ----

  predicate StartsOpen(h: seq<Event>) {
    |h| > 0 && (h[0].to == Pending || h[0].to == AwaitingApproval)
  }

  lemma {:induction false} HistoryStartsOpen(run: seq<Attempt>, n: nat, id: string)
    requires n <= |run| && AllLogged(run) && CreatesOpen(run) && id in At(run, n).tasks
    ensures StartsOpen(EventsOf(At(run, n).events, id))
  {
    var s, call, saved := At(run, n - 1), run[n - 1].call, run[n - 1].saved;
    EventsChain(run, n - 1, id);
    if id in s.tasks {
      HistoryStartsOpen(run, n - 1, id);
    }
    if Succeeds(s, call, saved) {
      var from := if call.CreateTask? then None else Some(s.tasks[call.id].status);
      EventsSnoc(s.events, Event(call.id, from, Target(call)), id);
    }
  }

  /** A task that is done has a history ending in awaiting_approval, applying, done. */
  lemma {:induction false} DoneWasApproved(run: seq<Attempt>, n: nat, id: string)
    requires n <= |run| && AllLogged(run) && CreatesOpen(run)
    requires id in At(run, n).tasks && At(run, n).tasks[id].status == Done
    ensures var h := EventsOf(At(run, n).events, id);
            |h| >= 3 && h[|h| - 1].to == Done && h[|h| - 2].to == Applying && h[|h| - 3].to == AwaitingApproval
  {
    EventsChain(run, n, id);
    HistoryStartsOpen(run, n, id);
    DoneEnding(EventsOf(At(run, n).events, id));
  }

  lemma DoneEnding(h: seq<Event>)
    requires Chained(h) && StartsOpen(h) && h[|h| - 1].to == Done
    ensures |h| >= 3 && h[|h| - 2].to == Applying && h[|h| - 3].to == AwaitingApproval
  {
    assert CanTransition(h[|h| - 2].to, h[|h| - 1].to);
    assert CanTransition(h[|h| - 3].to, h[|h| - 2].to);
  }

  /** How often a history enters a status. */
  function Entries(h: seq<Event>, n: nat, s: Status): nat
    requires n <= |h|
  {
    if n == 0 then 0 else Entries(h, n - 1, s) + if h[n - 1].to == s then 1 else 0
  }

  lemma {:induction false} ApprovalsCover(h: seq<Event>, n: nat)
    requires Chained(h) && StartsOpen(h) && 0 < n <= |h|
    ensures Entries(h, n, Applying) + (if h[n - 1].to == AwaitingApproval then 1 else 0) <=
            Entries(h, n, AwaitingApproval)
  {
    if n > 1 {
      ApprovalsCover(h, n - 1);
      assert CanTransition(h[n - 2].to, h[n - 1].to);
    }
  }

  /** A task never enters applying more often than awaiting_approval. */
  lemma {:induction false} ApplyingNeedsApproval(run: seq<Attempt>, n: nat, id: string)
    requires n <= |run| && AllLogged(run) && CreatesOpen(run) && id in At(run, n).tasks
    ensures var h := EventsOf(At(run, n).events, id);
            Entries(h, |h|, Applying) <= Entries(h, |h|, AwaitingApproval)
  {
    EventsChain(run, n, id);
    HistoryStartsOpen(run, n, id);
    ApprovalsCover(EventsOf(At(run, n).events, id), |EventsOf(At(run, n).events, id)|);
  }

  /** How many of the first n events are retries, failed to generating. */
  function Retries(h: seq<Event>, n: nat): nat
    requires n <= |h|
  {
    if n == 0 then 0
    else Retries(h, n - 1) + if h[n - 1].from == Some(Failed) && h[n - 1].to == Generating then 1 else 0
  }

  /** How many of the first n events leave a pending task pending. */
  function Loops(h: seq<Event>, n: nat): nat
    requires n <= |h|
  {
    if n == 0 then 0 else Loops(h, n - 1) + if h[n - 1].from == Some(Pending) && h[n - 1].to == Pending then 1 else 0
  }

  lemma {:induction false} RetriesPrefix(h: seq<Event>, x: seq<Event>, n: nat)
    requires n <= |h| && n <= |x| && forall i :: 0 <= i < n ==> h[i] == x[i]
    ensures Retries(h, n) == Retries(x, n) && Loops(h, n) == Loops(x, n)
  {
    if n > 0 {
      RetriesPrefix(h, x, n - 1);
    }
  }

  /** The latest place a status has in one pass through the machine. */
  function Rank(s: Status): nat {
    match s
    case Pending => 1
    case Generating => 2
    case Validating => 3
    case AwaitingApproval => 4
    case Applying => 5
    case _ => 6
  }

  lemma {:induction false} LengthByRank(h: seq<Event>, n: nat)
    requires Chained(h) && StartsOpen(h) && 0 < n <= |h|
    ensures n <= Rank(h[n - 1].to) + 5 * Retries(h, n) + Loops(h, n)
  {
    if n > 1 {
      LengthByRank(h, n - 1);
      assert CanTransition(h[n - 2].to, h[n - 1].to);
    }
  }

  /** Apart from pending self-loops, a history has at most six events and five more for each retry. */
  lemma {:induction false} HistoryBounded(run: seq<Attempt>, n: nat, id: string)
    requires n <= |run| && AllLogged(run) && CreatesOpen(run) && id in At(run, n).tasks
    ensures var h := EventsOf(At(run, n).events, id);
            |h| <= 6 + 5 * Retries(h, |h|) + Loops(h, |h|)
  {
    EventsChain(run, n, id);
    HistoryStartsOpen(run, n, id);
    Bounded(EventsOf(At(run, n).events, id));
  }

  lemma {:induction false} Bounded(h: seq<Event>)
    requires Chained(h) && StartsOpen(h) && h != []
    ensures |h| <= 6 + 5 * Retries(h, |h|) + Loops(h, |h|)
  {
    LengthByRank(h, |h|);
  }

  /** The status after step i of a task that always fails at the last moment and is retried. */
  function WorstStatus(i: nat): Status {
    if i > 5 then WorstStatus(i - 5)
    else if i == 0 then Pending
    else if i == 1 then Generating
    else if i == 2 then Validating
    else if i == 3 then AwaitingApproval
    else if i == 4 then Applying
    else Failed
  }

  function WorstEvent(i: nat): Event {
    Event("t", if i == 0 then None else Some(WorstStatus(i - 1)), WorstStatus(i))
  }

  /** Its history after n steps. */
  function Worst(n: nat): (h: seq<Event>)
    ensures |h| == n
    ensures forall i :: 0 <= i < n ==> h[i] == WorstEvent(i)
  {
    if n == 0 then [] else Worst(n - 1) + [WorstEvent(n - 1)]
  }

  lemma {:induction false} WorstLegal(i: nat)
    ensures CanTransition(WorstStatus(i), WorstStatus(i + 1)) && WorstStatus(i + 1) != Pending
    ensures WorstStatus(i) == Failed && WorstStatus(i + 1) == Generating <==> i > 0 && i % 5 == 0
  {
    if i > 5 {
      WorstLegal(i - 5);
    } else {
      assert WorstStatus(6) == WorstStatus(1);
    }
  }

  lemma {:induction false} WorstCounts(h: seq<Event>, n: nat)
    requires n <= |h| && forall i :: 0 <= i < n ==> h[i] == WorstEvent(i)
    ensures Retries(h, n) == (if n < 2 then 0 else (n - 2) / 5) && Loops(h, n) == 0
  {
    if n > 1 {
      WorstCounts(h, n - 1);
      WorstLegal(n - 2);
      assert h[n - 1] == WorstEvent(n - 1);
    }
  }

  /** The bound is attained for every number of retries. */
  lemma {:induction false} BoundAttained(r: nat)
    ensures var h := Worst(6 + 5 * r);
            && Chained(h) && StartsOpen(h) && Retries(h, |h|) == r && Loops(h, |h|) == 0 && |h| == 6 + 5 * r
  {
    var h := Worst(6 + 5 * r);
    WorstCounts(h, |h|);
    forall i | 0 < i < |h| ensures h[i].from == Some(h[i - 1].to) && CanTransition(h[i - 1].to, h[i].to) {
      WorstLegal(i - 1);
    }
  }
}
