/** What every run of the configuration workflow keeps, and what its pushes and version rows mean. */
module RunLaws {
  import opened ConfigRuns
  import opened Dispatch
  import opened DispatchLaws
  import opened TaskLifecycle
  import opened CollectorRegistry
  import opened Wrappers
  import Confirm
  import Delivery

  /** Only a dispatch and apply_config push or record; both go through the loops over their collectors. */
  lemma {:induction false} StepRollsOut(env: Env, w: World, step: Step)
    ensures var v, d := Prepared(env, w, step), Dispatching(env, w, step);
            && (step.op.ApplyConfig? ==>
                  || AfterStep(env, w, step) == w
                  || AfterStep(env, w, step) == Applied(w, step.uids, |step.uids|, step.op.yaml, step.fate))
            && (!step.op.ApplyConfig? && d.Some? && Approves(v, d.value.0, d.value.1, step.fate) ==>
                  OnlyStoreDiffers(AfterStep(env, w, step),
                                   RolledOut(Approved(v, d.value.0, d.value.1), v.store.tasks[d.value.0],
                                             step.uids, step.fate)))
            && (!step.op.ApplyConfig? && (d.None? || !Approves(v, d.value.0, d.value.1, step.fate)) ==>
                AfterStep(env, w, step) == v)
  {
    StepSplits(env, w, step);
    var v, d := Prepared(env, w, step), Dispatching(env, w, step);
    if d.Some? && Approves(v, d.value.0, d.value.1, step.fate) {
      DispatchRollsOut(v, d.value.0, d.value.1, step.uids, step.fate);
    }
  }

  // ---- version rows and pushes are append-only ----

  /** Rows and pushes are only added, and the ids of rows keep ascending. */
  ghost predicate Grown(w: World, v: World) {
    w.versions <= v.versions && Ascending(v.versions) && w.pushed <= v.pushed
  }

  lemma RecordedGrows(w: World, uid: string, yaml: string, f: Fate)
    requires Ascending(w.versions)
    ensures Grown(w, Recorded(w, uid, yaml, f))
  {
  }

  lemma {:induction false} ServedGrows(w: World, uids: seq<string>, n: nat, yaml: string, f: Fate)
    requires n <= |uids| && Ascending(w.versions)
    ensures Grown(w, Served(w, uids, n, yaml, f))
  {
    if n > 0 {
      ServedGrows(w, uids, n - 1, yaml, f);
      RecordedGrows(Sent(Served(w, uids, n - 1, yaml, f), uids[n - 1], yaml, f.pushes(uids[n - 1])), uids[n - 1],
                    yaml, f);
    }
  }

  lemma {:induction false} AppliedGrows(w: World, uids: seq<string>, n: nat, yaml: string, f: Fate)
    requires n <= |uids| && Ascending(w.versions)
    ensures Grown(w, Applied(w, uids, n, yaml, f))
  {
    if n > 0 {
      AppliedGrows(w, uids, n - 1, yaml, f);
      RecordedGrows(Sent(Applied(w, uids, n - 1, yaml, f), uids[n - 1], yaml, PushOnly(f, uids[n - 1])), uids[n - 1],
                    yaml, f);
    }
  }

  lemma RolledOutGrows(w: World, t: Task, uids: seq<string>, f: Fate)
    requires Ascending(w.versions)
    ensures Grown(w, RolledOut(w, t, uids, f))
  {
    if Offered(w, t).Some? {
      ServedGrows(w, Reached(t, uids), |Reached(t, uids)|, Offered(w, t).value, f);
    }
  }

  lemma GrowsAt(r: Run, k: nat)
    requires IsRun(r) && k < |r.steps| && Ascending(r.worlds[k].versions)
    ensures Grown(r.worlds[k], r.worlds[k + 1])
  {
    var env, w, step := r.env, r.worlds[k], r.steps[k];
    StepRollsOut(env, w, step);
    PreparedKeeps(env, w, step);
    var v, d := Prepared(env, w, step), Dispatching(env, w, step);
    if step.op.ApplyConfig? {
      AppliedGrows(w, step.uids, |step.uids|, step.op.yaml, step.fate);
    } else if d.Some? && Approves(v, d.value.0, d.value.1, step.fate) {
      RolledOutGrows(Approved(v, d.value.0, d.value.1), v.store.tasks[d.value.0], step.uids, step.fate);
    }
  }

  /** Over every run version rows and pushes are append-only, and the ids of rows ascend. */
  lemma {:induction false} HistoryAppendOnly(r: Run, m: nat, n: nat)
    requires IsRun(r) && m <= n <= |r.steps|
    ensures Ascending(r.worlds[m].versions) && Grown(r.worlds[m], r.worlds[n])
    decreases n
  {
    if n > 0 {
      HistoryAppendOnly(r, if m < n then m else m - 1, n - 1);
      GrowsAt(r, n - 1);
    }
  }

  // ---- what a task would push never changes ----

  /** Every task is still there with the same offer. */
  ghost predicate OffersKept(w: World, v: World) {
    forall id :: id in w.store.tasks ==> id in v.store.tasks && SameOffers(w.store.tasks[id], v.store.tasks[id])
  }

  lemma {:induction false} AppliedKeepsStore(w: World, uids: seq<string>, n: nat, yaml: string, f: Fate)
    requires n <= |uids|
    ensures Applied(w, uids, n, yaml, f).store == w.store
  {
    if n > 0 {
      AppliedKeepsStore(w, uids, n - 1, yaml, f);
    }
  }

  lemma PreparedKeepsOffers(env: Env, w: World, step: Step)
    ensures OffersKept(w, Prepared(env, w, step))
  {
    PreparedTouches(env, w, step);
  }

  lemma DispatchKeepsOffers(w: World, id: string, approver: string, uids: seq<string>, f: Fate)
    ensures OffersKept(w, Dispatched(w, id, approver, uids, f).0)
  {
    if Approves(w, id, approver, f) {
      DispatchTouches(w, id, approver, uids, f);
    }
  }

  lemma OffersTrans(w: World, v: World, x: World)
    requires OffersKept(w, v) && OffersKept(v, x)
    ensures OffersKept(w, x)
  {
  }

  lemma OffersKeptAt(r: Run, k: nat)
    requires IsRun(r) && k < |r.steps|
    ensures OffersKept(r.worlds[k], r.worlds[k + 1])
  {
    var env, w, step := r.env, r.worlds[k], r.steps[k];
    StepSplits(env, w, step);
    PreparedKeepsOffers(env, w, step);
    var v, d := Prepared(env, w, step), Dispatching(env, w, step);
    if step.op.ApplyConfig? {
      AppliedKeepsStore(w, step.uids, |step.uids|, step.op.yaml, step.fate);
    } else if d.Some? {
      DispatchKeepsOffers(v, d.value.0, d.value.1, step.uids, step.fate);
      OffersTrans(w, v, Dispatched(v, d.value.0, d.value.1, step.uids, step.fate).0);
    }
  }

  lemma {:induction false} OffersStay(r: Run, m: nat, n: nat)
    requires IsRun(r) && m <= n <= |r.steps|
    ensures OffersKept(r.worlds[m], r.worlds[n])
    decreases n
  {
    if m < n {
      OffersStay(r, m, n - 1);
      OffersKeptAt(r, n - 1);
      OffersTrans(r.worlds[m], r.worlds[n - 1], r.worlds[n]);
    }
  }

  /** A row that was found is found again with the same config, whatever rows were added. */
  lemma {:induction false} FoundAgain(v: seq<Version>, x: seq<Version>, n: nat, uid: string, id: nat)
    requires Ascending(x) && v <= x && |v| <= n <= |x| && FindBelow(v, |v|, uid, id).Some?
    ensures FindBelow(x, n, uid, id) == FindBelow(v, |v|, uid, id)
    decreases n
  {
    if n > |v| {
      FoundBelow(v, |v|, uid, id);
      FoundAgain(v, x, n - 1, uid, id);
    } else {
      BelowAgrees(v, x, n, uid, id);
    }
  }

  lemma {:induction false} FoundBelow(v: seq<Version>, n: nat, uid: string, id: nat)
    requires n <= |v| && FindBelow(v, n, uid, id).Some?
    ensures exists k :: 0 <= k < n && v[k].id == id
  {
    if !(v[n - 1].uid == uid && v[n - 1].id == id) {
      FoundBelow(v, n - 1, uid, id);
    }
  }

  /** The same offer in a grown world is worth the same. */
  lemma OfferStays(w: World, v: World, t: Task, u: Task)
    requires Grown(w, v) && SameOffers(t, u) && Offered(w, t).Some?
    ensures Offered(v, u) == Offered(w, t)
  {
    if t.kind == Rollback && t.rollbackVersion != 0 {
      FoundAgain(w.versions, v.versions, |v.versions|, t.targetInstance, t.rollbackVersion);
    }
  }

  /** What a task offers, it offers for ever: neither edits nor new rows change it. */
  lemma OfferFixed(r: Run, m: nat, n: nat, id: string)
    requires IsRun(r) && m <= n <= |r.steps| && id in r.worlds[m].store.tasks
    requires Offered(r.worlds[m], r.worlds[m].store.tasks[id]).Some?
    ensures id in r.worlds[n].store.tasks
    ensures Offered(r.worlds[n], r.worlds[n].store.tasks[id]) == Offered(r.worlds[m], r.worlds[m].store.tasks[id])
  {
    OffersStay(r, m, n);
    HistoryAppendOnly(r, m, n);
    OfferStays(r.worlds[m], r.worlds[n], r.worlds[m].store.tasks[id], r.worlds[n].store.tasks[id]);
  }

  /** The pushes added from w to v carry yaml, to exactly the collectors in to, each once. */
  ghost predicate PushedExactly(w: World, v: World, yaml: string, to: set<string>) {
    && w.pushed <= v.pushed
    && (forall i :: |w.pushed| <= i < |v.pushed| ==> v.pushed[i].yaml == yaml && v.pushed[i].uid in to)
    && (forall i, j :: |w.pushed| <= i < j < |v.pushed| ==> v.pushed[i].uid != v.pushed[j].uid)
    && (forall u :: u in to ==> exists i :: |w.pushed| <= i < |v.pushed| && v.pushed[i].uid == u)
  }

  lemma DispatchPushesExactly(w: World, id: string, approver: string, uids: seq<string>, f: Fate)
    requires Approves(w, id, approver, f) && Lists(uids, w.view.stored, TargetOf(w, id))
            && Offered(w, w.store.tasks[id]).Some?
    ensures PushedExactly(w, Dispatched(w, id, approver, uids, f).0, Offered(w, w.store.tasks[id]).value,
                          Receivers(w, w.store.tasks[id]))
  {
    var t := w.store.tasks[id];
    var to, v := Reached(t, uids), Dispatched(w, id, approver, uids, f).0;
    DispatchPushes(w, id, approver, uids, f);
    PushListShape(to, |to|, Offered(w, t).value, f);
    ReachedExactly(w, t, uids);
    forall u | u in Receivers(w, t) ensures exists i :: |w.pushed| <= i < |v.pushed| && v.pushed[i].uid == u {
      var k :| 0 <= k < |to| && to[k] == u;
      assert v.pushed[|w.pushed| + k].uid == u;
    }
  }

  /** The pushes added from w to v reach u. */
  ghost predicate PushedTo(w: World, v: World, u: string, yaml: string) {
    exists i :: |w.pushed| <= i < |v.pushed| && v.pushed[i].uid == u && v.pushed[i].yaml == yaml
  }

  lemma ExactlyReaches(w: World, v: World, u: string, yaml: string, to: set<string>)
    requires PushedExactly(w, v, yaml, to)
    ensures PushedTo(w, v, u, yaml) <==> u in to
  {
    if u in to {
      var i :| |w.pushed| <= i < |v.pushed| && v.pushed[i].uid == u;
      assert v.pushed[i].yaml == yaml;
    }
  }

  /**
    Whom an approval in a run reaches: for a task with a generated config exactly the stored collectors whose uid
    or group is its target, and for a rollback with content exactly its collector.
   */
  lemma ApprovalReaches(r: Run, n: nat, id: string, u: string)
    requires IsRun(r) && n < |r.steps| && r.steps[n].op.Approval? && r.steps[n].op.id == id
    requires Approves(r.worlds[n], id, r.steps[n].op.approver, r.steps[n].fate)
    ensures var w, v, t := r.worlds[n], r.worlds[n + 1], r.worlds[n].store.tasks[id];
            && (t.kind in {Generate, Optimize, Apply} && t.generated != "" ==>
                  (PushedTo(w, v, u, t.generated) <==>
                   t.targetGroup != "" && u in w.view.stored
                   && (u == t.targetGroup || w.view.stored[u].groupId == t.targetGroup)))
            && (t.kind == Rollback && t.rollbackVersion == 0 && t.generated != "" && t.targetInstance != "" ==>
                  (PushedTo(w, v, u, t.generated) <==> u == t.targetInstance))
  {
    var w, v, t := r.worlds[n], r.worlds[n + 1], r.worlds[n].store.tasks[id];
    if Offered(w, t).Some? {
      DispatchPushesExactly(w, id, r.steps[n].op.approver, r.steps[n].uids, r.steps[n].fate);
      ExactlyReaches(w, v, u, Offered(w, t).value, Receivers(w, t));
    }
  }

  /**
    What was reviewed is what is pushed: whenever a task showed a config, an approval at any later time pushes
    exactly that config, to exactly the collectors that then belong to the task's target, once each.
   */
  lemma ReviewedIsPushed(r: Run, m: nat, n: nat, id: string)
    requires IsRun(r) && m <= n < |r.steps| && id in r.worlds[m].store.tasks
    requires Offered(r.worlds[m], r.worlds[m].store.tasks[id]).Some?
    requires r.steps[n].op.Approval? && r.steps[n].op.id == id
    requires Approves(r.worlds[n], id, r.steps[n].op.approver, r.steps[n].fate)
    ensures PushedExactly(r.worlds[n], r.worlds[n + 1], Offered(r.worlds[m], r.worlds[m].store.tasks[id]).value,
                          Receivers(r.worlds[n], r.worlds[m].store.tasks[id]))
  {
    OfferFixed(r, m, n, id);
    OffersStay(r, m, n);
    DispatchPushesExactly(r.worlds[n], id, r.steps[n].op.approver, r.steps[n].uids, r.steps[n].fate);
  }

  // ---- only validated configs are pushed ----

  predicate ValidRows(versions: seq<Version>, valid: string -> bool) {
    forall i :: 0 <= i < |versions| ==> valid(versions[i].yaml)
  }

  predicate ValidPushes(pushed: seq<PushCall>, valid: string -> bool) {
    forall i :: 0 <= i < |pushed| ==> valid(pushed[i].yaml)
  }

  predicate ValidTasks(tasks: map<string, Task>, valid: string -> bool) {
    forall id :: id in tasks ==> tasks[id].generated == "" || valid(tasks[id].generated)
  }

  /** Every config that was pushed or recorded passed the validator, and so did every config a task carries. */
  predicate Validated(w: World, valid: string -> bool) {
    ValidRows(w.versions, valid) && ValidPushes(w.pushed, valid) && ValidTasks(w.store.tasks, valid)
  }

  /** One push and the row behind it. */
  lemma OneValidated(w: World, uid: string, yaml: string, outcome: Confirm.Outcome, f: Fate, valid: string -> bool)
    requires ValidRows(w.versions, valid) && ValidPushes(w.pushed, valid) && valid(yaml)
    ensures var x := Sent(w, uid, yaml, outcome);
            && ValidRows(x.versions, valid) && ValidPushes(x.pushed, valid)
            && ValidRows(Recorded(x, uid, yaml, f).versions, valid)
            && ValidPushes(Recorded(x, uid, yaml, f).pushed, valid)
  {
  }

  lemma {:induction false} ServedValidated(w: World, uids: seq<string>, n: nat, yaml: string, f: Fate,
                                           valid: string -> bool)
    requires n <= |uids| && ValidRows(w.versions, valid) && ValidPushes(w.pushed, valid) && valid(yaml)
    ensures ValidRows(Served(w, uids, n, yaml, f).versions, valid)
            && ValidPushes(Served(w, uids, n, yaml, f).pushed, valid)
  {
    if n > 0 {
      ServedValidated(w, uids, n - 1, yaml, f, valid);
      OneValidated(Served(w, uids, n - 1, yaml, f), uids[n - 1], yaml, f.pushes(uids[n - 1]), f, valid);
    }
  }

  lemma {:induction false} AppliedValidated(w: World, uids: seq<string>, n: nat, yaml: string, f: Fate,
                                            valid: string -> bool)
    requires n <= |uids| && Validated(w, valid) && valid(yaml)
    ensures Validated(Applied(w, uids, n, yaml, f), valid)
  {
    if n > 0 {
      AppliedValidated(w, uids, n - 1, yaml, f, valid);
      OneValidated(Applied(w, uids, n - 1, yaml, f), uids[n - 1], yaml, PushOnly(f, uids[n - 1]), f, valid);
    }
  }

  lemma {:induction false} FoundValid(v: seq<Version>, n: nat, uid: string, id: nat, valid: string -> bool)
    requires n <= |v| && ValidRows(v, valid) && FindBelow(v, n, uid, id).Some?
    ensures valid(FindBelow(v, n, uid, id).value)
  {
    if !(v[n - 1].uid == uid && v[n - 1].id == id) {
      FoundValid(v, n - 1, uid, id, valid);
    }
  }

  lemma OfferedValid(w: World, t: Task, valid: string -> bool)
    requires ValidRows(w.versions, valid) && (t.generated == "" || valid(t.generated)) && Offered(w, t).Some?
    ensures valid(Offered(w, t).value)
  {
    if t.kind == Rollback && t.rollbackVersion != 0 {
      FoundValid(w.versions, |w.versions|, t.targetInstance, t.rollbackVersion, valid);
    }
  }

  lemma DispatchValidated(w: World, id: string, approver: string, uids: seq<string>, f: Fate, valid: string -> bool)
    requires Validated(w, valid)
    ensures Validated(Dispatched(w, id, approver, uids, f).0, valid)
  {
    if Approves(w, id, approver, f) {
      var t, w1 := w.store.tasks[id], Approved(w, id, approver);
      DispatchTouches(w, id, approver, uids, f);
      DispatchRollsOut(w, id, approver, uids, f);
      if Offered(w1, t).Some? {
        OfferedValid(w1, t, valid);
        ServedValidated(w1, Reached(t, uids), |Reached(t, uids)|, Offered(w1, t).value, f, valid);
      }
    }
  }

  lemma ValidatedAt(r: Run, k: nat)
    requires IsRun(r) && k < |r.steps| && Validated(r.worlds[k], r.env.valid)
    ensures Validated(r.worlds[k + 1], r.env.valid)
  {
    var env, w, step := r.env, r.worlds[k], r.steps[k];
    StepSplits(env, w, step);
    PreparedKeeps(env, w, step);
    PreparedTouches(env, w, step);
    var v, d := Prepared(env, w, step), Dispatching(env, w, step);
    assert ValidTasks(v.store.tasks, env.valid);
    if step.op.ApplyConfig? {
      if env.valid(step.op.yaml) {
        AppliedValidated(w, step.uids, |step.uids|, step.op.yaml, step.fate, env.valid);
      }
    } else if d.Some? {
      DispatchValidated(v, d.value.0, d.value.1, step.uids, step.fate, env.valid);
    }
  }

  /** Over every run, every config pushed to a collector or recorded as its version was accepted by the validator. */
  lemma {:induction false} OnlyValidatedPushed(r: Run, n: nat)
    requires IsRun(r) && Validated(r.worlds[0], r.env.valid) && n <= |r.steps|
    ensures Validated(r.worlds[n], r.env.valid)
  {
    if n > 0 {
      OnlyValidatedPushed(r, n - 1);
      ValidatedAt(r, n - 1);
    }
  }

  // ---- with approval switched on, only approvals push ----

  /** Lengths that start at or below i and end above it pass it somewhere. */
  lemma {:induction false} Crossing(lengths: seq<nat>, n: nat, i: nat) returns (k: nat)
    requires n < |lengths| && lengths[0] <= i < lengths[n]
    ensures k < n && lengths[k] <= i < lengths[k + 1]
  {
    if lengths[n - 1] <= i {
      k := n - 1;
    } else {
      k := Crossing(lengths, n - 1, i);
    }
  }

  lemma OnlyApprovalsPush(env: Env, w: World, step: Step)
    requires env.requireApproval && !step.op.Approval?
    ensures AfterStep(env, w, step).pushed == w.pushed && AfterStep(env, w, step).versions == w.versions
  {
    StepSplits(env, w, step);
    PreparedKeeps(env, w, step);
  }

  /** The step approves a task that awaits it, and p carries the task's config to one of its collectors. */
  ghost predicate PushFrom(w: World, step: Step, p: PushCall) {
    && step.op.Approval? && step.op.id in w.store.tasks
    && w.store.tasks[step.op.id].status == AwaitingApproval
    && p.uid in Receivers(w, w.store.tasks[step.op.id])
    && Offered(w, w.store.tasks[step.op.id]) == Some(p.yaml)
  }

  /**
    With REQUIRE_APPROVAL on, every push of a run stems from the approval of a task that was awaiting it, goes
    to a collector of that task's target, and carries exactly the config that task offers.
   */
  lemma PushOrigin(r: Run, n: nat, i: nat) returns (k: nat)
    requires r.env.requireApproval && n <= |r.steps| && IsRun(r)
    requires |r.worlds[0].pushed| <= i < |r.worlds[n].pushed|
    ensures k < n && PushFrom(r.worlds[k], r.steps[k], r.worlds[n].pushed[i])
  {
    k := Crossing(seq(n + 1, j requires 0 <= j <= n => |r.worlds[j].pushed|), n, i);
    HistoryAppendOnly(r, k + 1, n);
    PushIsOffer(r.env, r.worlds[k], r.worlds[k + 1], r.worlds[n], r.steps[k], i);
  }

  lemma PushIsOffer(env: Env, w: World, v: World, x: World, step: Step, i: nat)
    requires env.requireApproval && Legal(w, step) && v == AfterStep(env, w, step) && v.pushed <= x.pushed
    requires |w.pushed| <= i < |v.pushed|
    ensures PushFrom(w, step, x.pushed[i])
  {
    if !step.op.Approval? {
      OnlyApprovalsPush(env, w, step);
    }
    ApprovalPushes(w, step.op.id, step.op.approver, step, i);
    assert x.pushed[i] == v.pushed[i];
  }

  lemma ApprovalPushes(w: World, id: string, approver: string, step: Step, i: nat)
    requires step.op == Approval(id, approver) && Legal(w, step)
    requires |w.pushed| <= i < |Dispatched(w, id, approver, step.uids, step.fate).0.pushed|
    ensures PushFrom(w, step, Dispatched(w, id, approver, step.uids, step.fate).0.pushed[i])
  {
    assert Approves(w, id, approver, step.fate);
    DispatchPushes(w, id, approver, step.uids, step.fate);
    if Offered(w, w.store.tasks[id]).Some? {
      DispatchPushesExactly(w, id, approver, step.uids, step.fate);
    }
  }

  // ---- where version rows come from ----

  /** A push from number from on that carries row i of v to its collector, and was not refused if strict. */
  predicate Backed(v: World, i: nat, from: nat, strict: bool)
    requires i < |v.versions|
  {
    exists j :: from <= j < |v.pushed| && v.pushed[j].uid == v.versions[i].uid && v.pushed[j].yaml == v.versions[i].yaml
                && (strict ==> v.pushed[j].outcome != Confirm.Failed)
  }

  lemma BackedStays(v: World, x: World, i: nat, from: nat, strict: bool)
    requires v.versions <= x.versions && v.pushed <= x.pushed && i < |v.versions| && Backed(v, i, from, strict)
    ensures Backed(x, i, from, strict)
  {
    var j :| from <= j < |v.pushed| && v.pushed[j].uid == v.versions[i].uid && v.pushed[j].yaml == v.versions[i].yaml
             && (strict ==> v.pushed[j].outcome != Confirm.Failed);
    assert x.pushed[j] == v.pushed[j] && x.versions[i] == v.versions[i];
  }

  /** The push just made backs the row just written. */
  lemma OneBacked(w: World, uid: string, yaml: string, outcome: Confirm.Outcome, f: Fate, i: nat, from: nat,
                  strict: bool)
    requires i == |w.versions| && f.row(uid) && from <= |w.pushed| && (strict ==> outcome != Confirm.Failed)
    ensures var v := Recorded(Sent(w, uid, yaml, outcome), uid, yaml, f); i < |v.versions| && Backed(v, i, from, strict)
  {
    var v := Recorded(Sent(w, uid, yaml, outcome), uid, yaml, f);
    assert v.pushed[|w.pushed|] == PushCall(uid, yaml, outcome);
  }

  lemma {:induction false} ServedBacked(w: World, uids: seq<string>, n: nat, yaml: string, f: Fate, i: nat)
    requires n <= |uids| && |w.versions| <= i < |Served(w, uids, n, yaml, f).versions|
    ensures Backed(Served(w, uids, n, yaml, f), i, |w.pushed|, true)
  {
    var v, u := Served(w, uids, n - 1, yaml, f), uids[n - 1];
    ServedPushes(w, uids, n - 1, yaml, f);
    if i < |v.versions| {
      ServedBacked(w, uids, n - 1, yaml, f, i);
      BackedStays(v, Served(w, uids, n, yaml, f), i, |w.pushed|, true);
    } else {
      OneBacked(v, u, yaml, f.pushes(u), f, i, |w.pushed|, true);
    }
  }

  /** apply_config writes the row even when its push was refused. */
  lemma {:induction false} AppliedBacked(w: World, uids: seq<string>, n: nat, yaml: string, f: Fate, i: nat)
    requires n <= |uids| && |w.versions| <= i < |Applied(w, uids, n, yaml, f).versions|
    ensures var v := Applied(w, uids, n, yaml, f);
            |w.pushed| <= |v.pushed| && Backed(v, i, |w.pushed|, f.pushes(v.versions[i].uid) != Confirm.Failed)
  {
    var v, u := Applied(w, uids, n - 1, yaml, f), uids[n - 1];
    AppliedPushes(w, uids, n - 1, yaml, f);
    if i < |v.versions| {
      AppliedBacked(w, uids, n - 1, yaml, f, i);
      BackedStays(v, Applied(w, uids, n, yaml, f), i, |w.pushed|, f.pushes(v.versions[i].uid) != Confirm.Failed);
    } else {
      OneBacked(v, u, yaml, PushOnly(f, u), f, i, |w.pushed|, f.pushes(u) != Confirm.Failed);
    }
  }

  /** Its pushes are logged with the outcome of their own collector. */
  lemma {:induction false} AppliedPushes(w: World, uids: seq<string>, n: nat, yaml: string, f: Fate)
    requires n <= |uids|
    ensures var v := Applied(w, uids, n, yaml, f);
            && w.pushed <= v.pushed
            && forall j :: |w.pushed| <= j < |v.pushed| ==> v.pushed[j].outcome == PushOnly(f, v.pushed[j].uid)
  {
    if n > 0 {
      AppliedPushes(w, uids, n - 1, yaml, f);
    }
  }

  /**
    Row i of v, written by step, stems from a push of that step that was not refused, unless apply_config
    pushed in vain.
   */
  ghost predicate RowFrom(w: World, step: Step, v: World, i: nat) {
    && |w.versions| <= i < |v.versions|
    && Backed(v, i, |w.pushed|, false)
    && (Backed(v, i, |w.pushed|, true) <==>
        !(step.op.ApplyConfig? && step.fate.pushes(v.versions[i].uid) == Confirm.Failed))
  }

  lemma StrictBacked(v: World, i: nat, from: nat)
    requires i < |v.versions| && Backed(v, i, from, true)
    ensures Backed(v, i, from, false)
  {
  }

  lemma StepRows(env: Env, w: World, x: World, step: Step, i: nat)
    requires x == AfterStep(env, w, step) && |w.versions| <= i < |x.versions|
    ensures RowFrom(w, step, x, i)
  {
    StepRollsOut(env, w, step);
    PreparedKeeps(env, w, step);
    var v, d := Prepared(env, w, step), Dispatching(env, w, step);
    if step.op.ApplyConfig? {
      AppliedBacked(w, step.uids, |step.uids|, step.op.yaml, step.fate, i);
      AppliedPushes(w, step.uids, |step.uids|, step.op.yaml, step.fate);
      if step.fate.pushes(x.versions[i].uid) != Confirm.Failed {
        StrictBacked(x, i, |w.pushed|);
      }
    } else {
      assert d.Some? && Approves(v, d.value.0, d.value.1, step.fate);
      var w1, t := Approved(v, d.value.0, d.value.1), v.store.tasks[d.value.0];
      ServedBacked(w1, Reached(t, step.uids), |Reached(t, step.uids)|, Offered(w1, t).value, step.fate, i);
      StrictBacked(RolledOut(w1, t, step.uids, step.fate), i, |w.pushed|);
    }
  }

  /**
    Where a version comes from: every row of a run was written by a step that pushed the row's config to the
    row's collector. The push was not refused, except exactly for rows of apply_config whose push was.
   */
  lemma RowOrigin(r: Run, n: nat, i: nat) returns (k: nat)
    requires n <= |r.steps| && IsRun(r) && |r.worlds[0].versions| <= i < |r.worlds[n].versions|
    ensures k < n && RowFrom(r.worlds[k], r.steps[k], r.worlds[k + 1], i)
    ensures Grown(r.worlds[k + 1], r.worlds[n])
  {
    k := Crossing(seq(n + 1, j requires 0 <= j <= n => |r.worlds[j].versions|), n, i);
    HistoryAppendOnly(r, k + 1, n);
    StepRows(r.env, r.worlds[k], r.worlds[k + 1], r.steps[k], i);
  }

  /** Every push of the run went through a running OpAMP server, and was answered as pushAndConfirm answers there. */
  ghost predicate BehindServer(r: Run)
    requires |r.worlds| > 0
  {
    var first, pushed := |r.worlds[0].pushed|, r.worlds[|r.worlds| - 1].pushed;
    forall j :: first <= j < |pushed| ==> Delivery.FromServer(pushed[j].uid, pushed[j].outcome)
  }

  /**
    Behind the server no push is refused, so there are no such exceptions: every row of a run, whether or not
    REQUIRE_APPROVAL is on, stems from a push that was sent or queued.
   */
  lemma RowsWerePushed(r: Run, n: nat, i: nat)
    requires IsRun(r) && BehindServer(r) && n <= |r.steps|
    requires |r.worlds[0].versions| <= i < |r.worlds[n].versions|
    ensures Backed(r.worlds[n], i, |r.worlds[0].pushed|, true)
  {
    var k := RowOrigin(r, n, i);
    HistoryAppendOnly(r, 0, k);
    HistoryAppendOnly(r, n, |r.steps|);
    BackedStays(r.worlds[k + 1], r.worlds[n], i, |r.worlds[k].pushed|, false);
    BackedEarlier(r.worlds[n], i, |r.worlds[k].pushed|, |r.worlds[0].pushed|, false);
    NoneRefused(r.worlds[n], r.worlds[|r.steps|], i, |r.worlds[0].pushed|);
  }

  lemma NoneRefused(v: World, last: World, i: nat, from: nat)
    requires i < |v.versions| && v.pushed <= last.pushed && Backed(v, i, from, false)
    requires forall j :: from <= j < |last.pushed| ==> Delivery.FromServer(last.pushed[j].uid, last.pushed[j].outcome)
    ensures Backed(v, i, from, true)
  {
    var j :| from <= j < |v.pushed| && v.pushed[j].uid == v.versions[i].uid && v.pushed[j].yaml == v.versions[i].yaml;
    assert last.pushed[j] == v.pushed[j];
    Delivery.ServerNeverFails(v.pushed[j].uid, v.pushed[j].outcome);
  }

  lemma BackedEarlier(v: World, i: nat, from: nat, start: nat, strict: bool)
    requires i < |v.versions| && start <= from && Backed(v, i, from, strict)
    ensures Backed(v, i, start, strict)
  {
  }

  // ---- no task is left in applying, and one that is stays there ----

  /** The writes that finish a request succeed: the config of a draft, and done and failed. */
  predicate Finishes(f: Fate) {
    f.config && f.done && f.failed
  }

  /** No task is in applying, and every task that waits for an approval has something to push. */
  ghost predicate Ready(w: World) {
    forall id :: id in w.store.tasks ==>
                   && w.store.tasks[id].status != Applying
                   && (w.store.tasks[id].status == AwaitingApproval && w.store.tasks[id].kind != Upgrade ==>
                         Offered(w, w.store.tasks[id]).Some?)
  }

  /** A world with the same tasks and no fewer rows is as ready. */
  lemma ReadyGrows(w: World, v: World)
    requires Ready(w) && Grown(w, v) && v.store.tasks == w.store.tasks
    ensures Ready(v)
  {
    forall id | id in v.store.tasks && v.store.tasks[id].status == AwaitingApproval && v.store.tasks[id].kind != Upgrade
      ensures Offered(v, v.store.tasks[id]).Some?
    {
      OfferStays(w, v, w.store.tasks[id], v.store.tasks[id]);
    }
  }

  lemma PreparedReady(env: Env, w: World, step: Step)
    requires Ready(w) && Ascending(w.versions) && step.fate.config && !env.valid("")
    ensures Ready(Prepared(env, w, step))
  {
    var v := Prepared(env, w, step);
    PreparedTouches(env, w, step);
    PreparedKeeps(env, w, step);
    forall id | id in v.store.tasks
      ensures v.store.tasks[id].status != Applying
      ensures v.store.tasks[id].status == AwaitingApproval && v.store.tasks[id].kind != Upgrade ==>
              Offered(v, v.store.tasks[id]).Some?
    {
      assert Offered(v, v.store.tasks[id]) == Offered(w, v.store.tasks[id]);
    }
  }

  lemma DispatchReady(w: World, id: string, approver: string, uids: seq<string>, f: Fate)
    requires Ready(w) && Ascending(w.versions) && Finishes(f)
    ensures Ready(Dispatched(w, id, approver, uids, f).0)
  {
    if Approves(w, id, approver, f) {
      var v, t := Dispatched(w, id, approver, uids, f).0, w.store.tasks[id];
      DispatchLeaves(w, id, approver, uids, f);
      DispatchRollsOut(w, id, approver, uids, f);
      RolledOutGrows(Approved(w, id, approver), t, uids, f);
      forall u | u in v.store.tasks && u != id && v.store.tasks[u].status == AwaitingApproval
          && v.store.tasks[u].kind != Upgrade
        ensures Offered(v, v.store.tasks[u]).Some?
      {
        OfferStays(w, v, w.store.tasks[u], v.store.tasks[u]);
      }
    }
  }

  lemma ReadyAt(r: Run, k: nat)
    requires IsRun(r) && k < |r.steps| && Ready(r.worlds[k]) && Ascending(r.worlds[k].versions)
    requires Finishes(r.steps[k].fate) && !r.env.valid("")
    ensures Ready(r.worlds[k + 1])
  {
    var env, w, step := r.env, r.worlds[k], r.steps[k];
    StepSplits(env, w, step);
    PreparedReady(env, w, step);
    PreparedKeeps(env, w, step);
    var v, d := Prepared(env, w, step), Dispatching(env, w, step);
    if step.op.ApplyConfig? {
      AppliedKeepsStore(w, step.uids, |step.uids|, step.op.yaml, step.fate);
      AppliedGrows(w, step.uids, |step.uids|, step.op.yaml, step.fate);
      ReadyGrows(w, Applied(w, step.uids, |step.uids|, step.op.yaml, step.fate));
    } else if d.Some? {
      DispatchReady(v, d.value.0, d.value.1, step.uids, step.fate);
    }
  }

  /**
    When no finishing write is lost and the validator refuses the empty config, no request of any run leaves a
    task in applying.
   */
  lemma {:induction false} NoTaskStuck(r: Run, n: nat)
    requires IsRun(r) && Ready(r.worlds[0]) && !r.env.valid("") && n <= |r.steps|
    requires forall k :: 0 <= k < n ==> Finishes(r.steps[k].fate)
    ensures Ready(r.worlds[n])
  {
    if n > 0 {
      NoTaskStuck(r, n - 1);
      HistoryAppendOnly(r, 0, n - 1);
      ReadyAt(r, n - 1);
    }
  }

  lemma ApplyingAt(r: Run, k: nat, id: string)
    requires IsRun(r) && k < |r.steps| && IsApplying(r.worlds[k], id)
    ensures IsApplying(r.worlds[k + 1], id) && r.worlds[k + 1].store.tasks[id] == r.worlds[k].store.tasks[id]
  {
    var env, w, step := r.env, r.worlds[k], r.steps[k];
    StepSplits(env, w, step);
    PreparedTouches(env, w, step);
    var v, d := Prepared(env, w, step), Dispatching(env, w, step);
    if step.op.ApplyConfig? {
      AppliedKeepsStore(w, step.uids, |step.uids|, step.op.yaml, step.fate);
    } else if d.Some? && Approves(v, d.value.0, d.value.1, step.fate) {
      DispatchTouches(v, d.value.0, d.value.1, step.uids, step.fate);
    }
  }

  /** A task that is left in applying stays there for ever: no tool and no request gets it out. */
  lemma {:induction false} StuckForEver(r: Run, m: nat, n: nat, id: string)
    requires IsRun(r) && m <= n <= |r.steps| && IsApplying(r.worlds[m], id)
    ensures IsApplying(r.worlds[n], id) && r.worlds[n].store.tasks[id] == r.worlds[m].store.tasks[id]
    decreases n
  {
    if m < n {
      StuckForEver(r, m, n - 1, id);
      ApplyingAt(r, n - 1, id);
    }
  }

  // ---- rollback ----

  /**
    Undoing a rollback, with anything in between: whatever was newest for a collector at time m, a rollback
    at a later time n to that row, if its push is accepted and its row written, puts exactly that config in
    force again.
   */
  lemma RollbackRestores(r: Run, m: nat, n: nat, uid: string, k: nat, id: string, approver: string, uids: seq<string>,
                         f: Fate)
    requires IsRun(r) && m <= n <= |r.steps| && KeyedView(r.worlds[n].view) && uid != ""
    requires var rows := r.worlds[m].versions;
             k < |rows| && rows[k].uid == uid && Newest(rows, uid) == Some(rows[k].yaml)
    requires var w := r.worlds[n];
             && Approves(w, id, approver, f)
             && w.store.tasks[id].kind == Rollback && w.store.tasks[id].targetInstance == uid
             && w.store.tasks[id].rollbackVersion == r.worlds[m].versions[k].id
             && f.pushes(uid) != Confirm.Failed && f.row(uid)
    ensures InForce(Dispatched(r.worlds[n], id, approver, uids, f).0, uid, Newest(r.worlds[m].versions, uid).value,
                    Kept(r.worlds[n].view, uid, f))
  {
    HistoryAppendOnly(r, m, n);
    RollbackInForce(r.worlds[n], id, approver, uids, f, k);
  }
}
