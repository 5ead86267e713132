/** What the event log of internal/task/task.go holds after any run of the configuration workflow. */
module TaskHistories {
  import opened ConfigApi
  import opened ConfigRuns
  import opened Dispatch
  import opened DispatchLaws
  import opened RunLaws
  import Confirm
  import opened TaskLifecycle
  import opened Wrappers

  /** A history without retries and self-loops that starts open and ends with the status in the table. */
  ghost predicate Straight(h: seq<Event>, tasks: map<string, Task>, id: string) {
    Describes(h, tasks, id) && (id in tasks ==> StartsOpen(h)) && Retries(h, |h|) == 0 && Loops(h, |h|) == 0
  }

  ghost predicate AllStraight(s: Store) {
    forall id :: Straight(EventsOf(s.events, id), s.tasks, id)
  }

  /** A call that creates a task in the open or moves one on, but neither retries it nor leaves it pending. */
  predicate MovesOn(s: Store, call: Call) {
    var to := TaskLifecycle.Target(call);
    if call.CreateTask? then to == Pending || to == AwaitingApproval
    else call.id in s.tasks ==> to != Pending && !(s.tasks[call.id].status == Failed && to == Generating)
  }

  lemma StraightNext(h: seq<Event>, tasks: map<string, Task>, id: string, t: Task, e: Event)
    requires Straight(h, tasks, id) && e.to == t.status
    requires if id in tasks then e.from == Some(tasks[id].status) && CanTransition(tasks[id].status, e.to)
                                 && e.to != Pending && !(tasks[id].status == Failed && e.to == Generating)
             else e.from == None && (e.to == Pending || e.to == AwaitingApproval)
    ensures Straight(h + [e], tasks[id := t], id)
  {
    DescribesNext(h, tasks, id, t, e);
    RetriesPrefix(h, h + [e], |h|);
  }

  lemma CallStaysStraight(s: Store, call: Call, saved: bool)
    requires AllStraight(s) && MovesOn(s, call)
    ensures AllStraight(After(s, call, saved, true))
  {
    if Succeeds(s, call, saved) {
      var from := if call.CreateTask? then None else Some(s.tasks[call.id].status);
      var e := Event(call.id, from, TaskLifecycle.Target(call));
      var t := Edited(if call.CreateTask? then call.task else s.tasks[call.id], call);
      forall id ensures Straight(EventsOf(s.events + [e], id), s.tasks[call.id := t], id) {
        EventsSnoc(s.events, e, id);
        if id == call.id {
          StraightNext(EventsOf(s.events, id), s.tasks, id, t, e);
        } else {
          assert EventsOf(s.events, id) + [] == EventsOf(s.events, id);
        }
      }
    }
  }

  /** Writes beside the service leave the status alone. */
  lemma EditStaysStraight(s: Store, id: string, t: Task)
    requires AllStraight(s) && id in s.tasks && t.status == s.tasks[id].status
    ensures AllStraight(s.(tasks := s.tasks[id := t]))
  {
    forall u ensures Straight(EventsOf(s.events, u), s.tasks[id := t], u) {
      assert Straight(EventsOf(s.events, u), s.tasks, u);
    }
  }

  lemma NoteStaysStraight(w: World, id: string, note: string, saved: bool)
    requires AllStraight(w.store)
    ensures AllStraight(Noted(w, id, note, saved).store)
  {
    if saved && id in w.store.tasks {
      EditStaysStraight(w.store, id, w.store.tasks[id].(error := note));
    }
  }

  lemma MoveStaysStraight(w: World, id: string, to: Status, saved: bool)
    requires AllStraight(w.store) && to != Pending && to != Generating
    ensures AllStraight(Moved(w, id, to, saved).store)
  {
    CallStaysStraight(w.store, SetTaskStatus(id, to), saved);
  }

  lemma FinishStaysStraight(w: World, id: string, unconfirmed: bool, f: Fate)
    requires AllStraight(w.store)
    ensures AllStraight(Finished(w, id, unconfirmed, f).0.store)
  {
    MoveStaysStraight(w, id, Done, f.done);
    NoteStaysStraight(Moved(w, id, Done, f.done), id, UNCONFIRMED, f.noted);
    MoveStaysStraight(w, id, Failed, f.failed);
    NoteStaysStraight(Moved(w, id, Failed, f.failed), id, UNFINISHED, f.noted);
  }

  lemma RollbackStaysStraight(w: World, id: string, uid: string, yaml: string, f: Fate)
    requires AllStraight(w.store)
    ensures AllStraight(RolledBack(w, id, uid, yaml, f).0.store)
  {
    var v := Sent(w, uid, yaml, f.pushes(uid));
    MoveStaysStraight(v, id, Failed, f.failed);
    FinishStaysStraight(Recorded(v, uid, yaml, f), id, f.pushes(uid) == Confirm.Unconfirmed, f);
  }

  lemma DispatchStaysStraight(w: World, id: string, approver: string, uids: seq<string>, f: Fate)
    requires AllStraight(w.store)
    ensures AllStraight(Dispatched(w, id, approver, uids, f).0.store)
  {
    if Approves(w, id, approver, f) {
      var w1 := Approved(w, id, approver);
      CallStaysStraight(w.store, ApproveTask(id, approver), true);
      var t := w1.store.tasks[id];
      if t.kind == Upgrade {
        MoveStaysStraight(w1, id, Done, f.done);
      } else if t.kind == Rollback {
        if RollbackContent(w1, t).Some? {
          RollbackStaysStraight(w1, id, t.targetInstance, RollbackContent(w1, t).value, f);
        }
      } else if uids == [] {
        MoveStaysStraight(w1, id, Failed, f.failed);
      } else {
        ServedKeepsStore(w1, uids, |uids|, t.generated, f);
        FinishStaysStraight(Served(w1, uids, |uids|, t.generated, f), id, AnyUnconfirmed(uids, f), f);
      }
    }
  }

  lemma CreateStaysStraight(w: World, id: string, row: Task, status: Status, saved: bool)
    requires AllStraight(w.store) && (status == Pending || status == AwaitingApproval)
    ensures AllStraight(Created(w, id, row, status, saved).store)
  {
    CallStaysStraight(w.store, CreateTask(id, row, Some(status)), saved);
  }

  lemma DraftStaysStraight(w: World, id: string, kind: Kind, target: string, yaml: Option<string>, stillValid: bool,
                           f: Fate)
    requires AllStraight(w.store)
    ensures AllStraight(Drafted(w, id, kind, target, yaml, stillValid, f).0.store)
  {
    if id !in w.store.tasks && f.created {
      var w0 := Created(w, id, NewTask(kind, target), Pending, true);
      CreateStaysStraight(w, id, NewTask(kind, target), Pending, true);
      CallStaysStraight(w0.store, SetTaskStatus(id, Generating), f.generating);
      var w1 := Moved(w0, id, Generating, f.generating);
      var w2 := Moved(w1, id, Validating, f.validating);
      MoveStaysStraight(w1, id, Failed, f.failed);
      MoveStaysStraight(w1, id, Validating, f.validating);
      MoveStaysStraight(w2, id, Failed, f.failed);
      MoveStaysStraight(w2, id, AwaitingApproval, f.awaiting);
    }
  }

  lemma PrepareStaysStraight(w: World, id: string, kind: Kind, target: string, yaml: Option<string>, stillValid: bool,
                             f: Fate)
    requires AllStraight(w.store)
    ensures AllStraight(Prepare(w, id, kind, target, yaml, stillValid, f).store)
  {
    DraftStaysStraight(w, id, kind, target, yaml, stillValid, f);
    var v := Drafted(w, id, kind, target, yaml, stillValid, f).0;
    if id in v.store.tasks && yaml.Some? {
      EditStaysStraight(v.store, id, v.store.tasks[id].(generated := yaml.value));
    }
  }

  lemma PreparedStaysStraight(env: Env, w: World, step: Step)
    requires AllStraight(w.store)
    ensures AllStraight(Prepared(env, w, step).store)
  {
    var f := step.fate;
    match step.op
    case GenerateConfig(id, target, _, llm, stillValid) =>
      PrepareStaysStraight(w, id, Generate, target, FirstUsable(llm, env.valid, 0), stillValid, f);
    case OptimizeConfig(id, uid, llm) =>
      PrepareStaysStraight(w, id, Optimize, uid, FirstUsable(llm, env.valid, 0), true, f);
    case UpgradeCollector(id, target) =>
      CreateStaysStraight(w, id, NewTask(Upgrade, target), AwaitingApproval, f.created);
    case Rejection(id, approver, reason) => CallStaysStraight(w.store, RejectTask(id, approver, reason), f.approved);
    case Submission(id, uid, source, _) =>
      if Content(source).Some? {
        CreateStaysStraight(w, id, ApplyRow(uid, Content(source).value), AwaitingApproval, true);
      }
    case RollbackRequest(id, uid, goal) =>
      if Wanted(w, uid, goal).Some? {
        CreateStaysStraight(w, id, Wanted(w, uid, goal).value.1, AwaitingApproval, f.created);
      }
    case _ =>
  }

  lemma StraightAt(r: Run, k: nat)
    requires IsRun(r) && k < |r.steps| && AllStraight(r.worlds[k].store)
    ensures AllStraight(r.worlds[k + 1].store)
  {
    var env, w, step := r.env, r.worlds[k], r.steps[k];
    StepSplits(env, w, step);
    PreparedStaysStraight(env, w, step);
    var v, d := Prepared(env, w, step), Dispatching(env, w, step);
    if step.op.ApplyConfig? {
      AppliedKeepsStore(w, step.uids, |step.uids|, step.op.yaml, step.fate);
    } else if d.Some? {
      DispatchStaysStraight(v, d.value.0, d.value.1, step.uids, step.fate);
    }
  }

  lemma {:induction false} RunStaysStraight(r: Run, n: nat)
    requires IsRun(r) && AllStraight(r.worlds[0].store) && n <= |r.steps|
    ensures AllStraight(r.worlds[n].store)
  {
    if n > 0 {
      RunStaysStraight(r, n - 1);
      StraightAt(r, n - 1);
    }
  }

  /**
    The tools and requests keep the discipline that the service itself does not enforce, whichever writes of
    statuses and notes fail: in every run each task's log is one pass through the machine of at most six events,
    from an open creation to its status, and a done task was approved right before.
   */
  lemma {:induction false} OnePassPerTask(r: Run, n: nat, id: string)
    requires IsRun(r) && AllStraight(r.worlds[0].store) && n <= |r.steps| && id in r.worlds[n].store.tasks
    ensures var h := EventsOf(r.worlds[n].store.events, id);
            var status := r.worlds[n].store.tasks[id].status;
            && Chained(h) && StartsOpen(h) && |h| <= 6 && h[|h| - 1].to == status
            && (status == Done ==> |h| >= 3 && h[|h| - 2].to == Applying && h[|h| - 3].to == AwaitingApproval)
            && Entries(h, |h|, Applying) <= Entries(h, |h|, AwaitingApproval)
  {
    RunStaysStraight(r, n);
    var h := EventsOf(r.worlds[n].store.events, id);
    assert Straight(h, r.worlds[n].store.tasks, id);
    LengthByRank(h, |h|);
    ApprovalsCover(h, |h|);
    if h[|h| - 1].to == Done {
      DoneEnding(h);
    }
  }

  // ---- a request that overlaps the offer of a draft ----

  /** The row as it was read when the draft was finished, written back later with the config. */
  function LateWrite(s: Store, id: string, row: Task, yaml: string): Store {
    s.(tasks := s.tasks[id := row.(generated := yaml)])
  }

  /**
    Were it a step of its own, that write would keep the log straight exactly when the status is still the
    one it read.
   */
  lemma LateWriteIff(s: Store, id: string, row: Task, yaml: string)
    requires AllStraight(s) && id in s.tasks
    ensures AllStraight(LateWrite(s, id, row, yaml)) <==> row.status == s.tasks[id].status
  {
    assert Straight(EventsOf(s.events, id), s.tasks, id);
    if row.status == s.tasks[id].status {
      EditStaysStraight(s, id, row.(generated := yaml));
    } else {
      assert !Straight(EventsOf(s.events, id), LateWrite(s, id, row, yaml).tasks, id);
    }
  }

  /** An approval in between is undone by it, so that the task can be approved and dispatched once more. */
  lemma ApprovalBetweenIsUndone(s: Store, id: string, approver: string, yaml: string)
    requires AllStraight(s) && id in s.tasks && s.tasks[id].status == AwaitingApproval
    ensures var between := After(s, ApproveTask(id, approver), true, true);
            var late := LateWrite(between, id, s.tasks[id], yaml);
            between.tasks[id].status == Applying && !AllStraight(late)
            && Succeeds(late, ApproveTask(id, approver), true)
  {
    var between := After(s, ApproveTask(id, approver), true, true);
    CallStaysStraight(s, ApproveTask(id, approver), true);
    LateWriteIff(between, id, s.tasks[id], yaml);
  }
}
