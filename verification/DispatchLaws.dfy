/** What the tools of internal/agent/tools.go promise: how requests end, what they push, and what that leaves behind. */
module DispatchLaws {
  import opened Dispatch
  import opened TaskLifecycle
  import opened CollectorRegistry
  import opened Wrappers
  import Confirm

  // ---- how a dispatch ends ----

  /** The world right after the approval. */
  function Approved(w: World, id: string, approver: string): World {
    w.(store := After(w.store, ApproveTask(id, approver), true, true))
  }

  /** The approval itself succeeds. */
  predicate Approves(w: World, id: string, approver: string, f: Fate) {
    Succeeds(w.store, ApproveTask(id, approver), f.approved)
  }

  /** The config a task would push if it were approved now. */
  function Offered(w: World, t: Task): Option<string> {
    if t.kind == Rollback then RollbackContent(w, t)
    else if t.kind == Upgrade || t.generated == "" then None
    else Some(t.generated)
  }

  /** Nothing can be pushed: no generated config, or a rollback without collector, content or version. */
  predicate NothingToPush(w: World, t: Task) {
    t.kind != Upgrade && Offered(w, t).None?
  }

  /** The dispatch itself goes wrong: no collector matches, or the push of a rollback fails. */
  predicate PushImpossible(t: Task, uids: seq<string>, f: Fate) {
    if t.kind == Rollback then f.pushes(t.targetInstance) == Confirm.Failed else t.kind != Upgrade && uids == []
  }

  lemma {:induction false} ServedKeepsStore(w: World, uids: seq<string>, n: nat, yaml: string, f: Fate)
    requires n <= |uids|
    ensures Served(w, uids, n, yaml, f).store == w.store
  {
    if n > 0 {
      ServedKeepsStore(w, uids, n - 1, yaml, f);
    }
  }

  predicate IsApplying(w: World, id: string) {
    id in w.store.tasks && w.store.tasks[id].status == Applying
  }

  /** The task as a dispatch leaves it: only status and note can differ from t. */
  predicate LeftAs(w: World, v: World, id: string, status: TaskLifecycle.Status, note: string) {
    id in w.store.tasks && v.store.tasks == w.store.tasks[id := w.store.tasks[id].(status := status, error := note)]
  }

  function StatusIf(saved: bool, to: TaskLifecycle.Status): TaskLifecycle.Status {
    if saved then to else Applying
  }

  /** The last writes of a dispatch: done, or failed when that write is lost, or neither. */
  lemma FinishedEnds(w: World, id: string, unconfirmed: bool, f: Fate)
    requires IsApplying(w, id)
    ensures var (v, result) := Finished(w, id, unconfirmed, f);
            var note := w.store.tasks[id].error;
            && (result == Succeeded <==> f.done)
            && LeftAs(w, v, id, if f.done then Done else StatusIf(f.failed, Failed),
                      if !f.noted then note
                      else if f.done then (if unconfirmed then UNCONFIRMED else note)
                      else if f.failed then UNFINISHED else note)
  {
    var t := w.store.tasks[id];
    assert w.store.tasks == w.store.tasks[id := t];
  }

  lemma MoveEnds(w: World, id: string, to: TaskLifecycle.Status, saved: bool)
    requires IsApplying(w, id) && (to == Done || to == Failed)
    ensures LeftAs(w, Moved(w, id, to, saved), id, StatusIf(saved, to), w.store.tasks[id].error)
    ensures CanMove(w, id, to, saved) <==> saved
  {
    var t := w.store.tasks[id];
    assert w.store.tasks == w.store.tasks[id := t];
  }

  /** The status a dispatch of t ends with. */
  function EndOf(w: World, t: Task, uids: seq<string>, f: Fate): TaskLifecycle.Status {
    if NothingToPush(w, t) then Applying
    else if PushImpossible(t, uids, f) then StatusIf(f.failed, Failed)
    else if f.done then Done
    else if t.kind == Upgrade then Applying
    else StatusIf(f.failed, Failed)
  }

  /** The note it leaves. */
  function NoteOf(w: World, t: Task, uids: seq<string>, f: Fate): string {
    if !f.noted || t.kind == Upgrade || NothingToPush(w, t) || PushImpossible(t, uids, f) then t.error
    else if f.done then (if AnyUnconfirmed(Reached(t, uids), f) then UNCONFIRMED else t.error)
    else if f.failed then UNFINISHED
    else t.error
  }

  /** The collectors an approved task pushes to. */
  function Reached(t: Task, uids: seq<string>): seq<string> {
    if t.kind == Rollback then [t.targetInstance] else uids
  }

  /** An approved task and nothing else changes, and of it status, approver and note only. */
  lemma DispatchLeaves(w: World, id: string, approver: string, uids: seq<string>, f: Fate)
    requires Approves(w, id, approver, f)
    ensures var (v, result) := Dispatched(w, id, approver, uids, f);
            var t := w.store.tasks[id];
            && v.store.tasks == w.store.tasks[id := t.(status := EndOf(w, t, uids, f), approver := approver,
                                                       error := NoteOf(w, t, uids, f))]
            && (result == Succeeded <==> EndOf(w, t, uids, f) == Done)
  {
    var w1 := Approved(w, id, approver);
    var t := w1.store.tasks[id];
    SameOffer(w, id, approver);
    if t.kind == Upgrade {
      MoveEnds(w1, id, Done, f.done);
    } else if t.kind == Rollback {
      if RollbackContent(w1, t).Some? {
        RollbackLeaves(w1, id, t.targetInstance, RollbackContent(w1, t).value, f);
      }
    } else if t.generated != "" {
      GroupLeaves(w1, id, t.generated, uids, f);
    }
    AfterApproval(w, Dispatched(w, id, approver, uids, f).0, id, approver,
                  EndOf(w, w.store.tasks[id], uids, f), NoteOf(w, w.store.tasks[id], uids, f));
  }

  lemma AfterApproval(w: World, v: World, id: string, approver: string, status: TaskLifecycle.Status, note: string)
    requires Succeeds(w.store, ApproveTask(id, approver), true)
            && LeftAs(Approved(w, id, approver), v, id, status, note)
    ensures v.store.tasks ==
            w.store.tasks[id := w.store.tasks[id].(status := status, approver := approver, error := note)]
  {
  }

  lemma {:induction false} GroupLeaves(w: World, id: string, yaml: string, uids: seq<string>, f: Fate)
    requires IsApplying(w, id)
    ensures var (v, result) := if uids == [] then (Moved(w, id, Failed, f.failed), Refused)
                               else Finished(Served(w, uids, |uids|, yaml, f), id, AnyUnconfirmed(uids, f), f);
            var note := w.store.tasks[id].error;
            && (result == Succeeded <==> uids != [] && f.done)
            && LeftAs(w, v, id, if uids != [] && f.done then Done else StatusIf(f.failed, Failed),
                      if !f.noted || uids == [] then note
                      else if f.done then (if AnyUnconfirmed(uids, f) then UNCONFIRMED else note)
                      else if f.failed then UNFINISHED else note)
  {
    if uids == [] {
      MoveEnds(w, id, Failed, f.failed);
    } else {
      ServedKeepsStore(w, uids, |uids|, yaml, f);
      FinishedEnds(Served(w, uids, |uids|, yaml, f), id, AnyUnconfirmed(uids, f), f);
    }
  }

  lemma SameOffer(w: World, id: string, approver: string)
    requires Succeeds(w.store, ApproveTask(id, approver), true)
    ensures Offered(Approved(w, id, approver), Approved(w, id, approver).store.tasks[id]) ==
            Offered(w, w.store.tasks[id])
  {
  }

  lemma RollbackLeaves(w: World, id: string, uid: string, yaml: string, f: Fate)
    requires IsApplying(w, id)
    ensures var (v, result) := RolledBack(w, id, uid, yaml, f);
            var note := w.store.tasks[id].error;
            && (result == Succeeded <==> f.pushes(uid) != Confirm.Failed && f.done)
            && LeftAs(w, v, id, if f.pushes(uid) != Confirm.Failed && f.done then Done else StatusIf(f.failed, Failed),
                      if !f.noted || f.pushes(uid) == Confirm.Failed then note
                      else if f.done then (if AnyUnconfirmed([uid], f) then UNCONFIRMED else note)
                      else if f.failed then UNFINISHED else note)
  {
    assert [uid][0] == uid;
    if f.pushes(uid) == Confirm.Failed {
      MoveEnds(Sent(w, uid, yaml, f.pushes(uid)), id, Failed, f.failed);
    } else {
      FinishedEnds(Recorded(Sent(w, uid, yaml, f.pushes(uid)), uid, yaml, f), id,
                   f.pushes(uid) == Confirm.Unconfirmed, f);
    }
  }

  /**
    How an approved task ends, whichever writes fail. It is done exactly when the dispatch succeeds. It is
    left in applying exactly when there was nothing to push, or the push was impossible and that could not be
    written, or done could not be written and marking it failed was lost as well (for an upgrade, not tried).
   */
  lemma DispatchEnds(w: World, id: string, approver: string, uids: seq<string>, f: Fate)
    requires Approves(w, id, approver, f)
    ensures var (v, result) := Dispatched(w, id, approver, uids, f);
            var t := w.store.tasks[id];
            var empty, impossible := NothingToPush(w, t), PushImpossible(t, uids, f);
            && id in v.store.tasks
            && (result == Succeeded <==> v.store.tasks[id].status == Done)
            && (v.store.tasks[id].status == Done <==> !empty && !impossible && f.done)
            && (v.store.tasks[id].status == Applying <==>
                empty || (impossible && !f.failed) || (!impossible && !f.done && (t.kind == Upgrade || !f.failed)))
            && (v.store.tasks[id].status == Failed <==>
                !empty && f.failed && (impossible || (!f.done && t.kind != Upgrade)))
  {
    DispatchLeaves(w, id, approver, uids, f);
  }

  /** However it ends, a dispatch touches its own task only, and there only status, approver and note. */
  lemma DispatchTouches(w: World, id: string, approver: string, uids: seq<string>, f: Fate)
    requires Approves(w, id, approver, f)
    ensures var tasks := Dispatched(w, id, approver, uids, f).0.store.tasks;
            && id in tasks
            && tasks == w.store.tasks[id := w.store.tasks[id].(status := tasks[id].status, approver := approver,
                                                               error := tasks[id].error)]
  {
    DispatchLeaves(w, id, approver, uids, f);
  }

  // ---- how a generation ends ----

  /** The status a draft ends with. */
  function DraftEnd(yaml: Option<string>, stillValid: bool, f: Fate): TaskLifecycle.Status {
    if !f.generating then Pending
    else if yaml.None? then (if f.failed then Failed else Generating)
    else if !f.validating then Generating
    else if !stillValid then (if f.failed then Failed else Validating)
    else if !f.awaiting then Validating
    else AwaitingApproval
  }

  /** A draft adds one task and touches no other. */
  lemma DraftLeaves(w: World, id: string, kind: Kind, target: string, yaml: Option<string>, stillValid: bool, f: Fate)
    requires id !in w.store.tasks && f.created
    ensures var (v, result) := Drafted(w, id, kind, target, yaml, stillValid, f);
            && v.store.tasks ==
               w.store.tasks[id := Task(kind, DraftEnd(yaml, stillValid, f), "", target, "", 0, "", "", "")]
            && v.versions == w.versions && v.view == w.view && v.pushed == w.pushed
            && (result == Succeeded <==> DraftEnd(yaml, stillValid, f) == AwaitingApproval)
  {
    var s1 := After(w.store, CreateTask(id, NewTask(kind, target), Some(Pending)), true, true);
    var s2 := After(s1, SetTaskStatus(id, Generating), true, true);
    assert s1.tasks[id].status == Pending && s2.tasks[id].status == Generating;
  }

  /** Everything went well up to the offer. */
  predicate DraftOk(yaml: Option<string>, stillValid: bool, f: Fate) {
    yaml.Some? && stillValid && f.generating && f.validating && f.awaiting
  }

  /**
    How a generation ends, whichever writes fail. With approval switched off the task is left in applying
    exactly when the write of its config was lost, or when neither of the last status writes succeeds.
   */
  lemma GenerateEnds(w: World, id: string, kind: Kind, target: string, yaml: Option<string>, stillValid: bool,
                     requireApproval: bool, uids: seq<string>, f: Fate)
    requires id !in w.store.tasks && yaml != Some("") && (kind == Generate || kind == Optimize)
    requires f.created && Lists(uids, w.view.stored, target)
    ensures var (v, result) := Generated(w, id, kind, target, yaml, stillValid, requireApproval, uids, f);
            var none := Targets(w.view.stored, target) == {};
            && id in v.store.tasks
            && var status := v.store.tasks[id].status;
               && (!DraftOk(yaml, stillValid, f) ==> status == DraftEnd(yaml, stillValid, f) && result == Refused)
               && (status == AwaitingApproval <==> DraftOk(yaml, stillValid, f) && (requireApproval || !f.approved))
               && (DraftOk(yaml, stillValid, f) && !requireApproval && f.approved ==>
                     && (status == Applying <==> !f.config || (!f.failed && (none || !f.done)))
                     && (status == Done <==> f.config && !none && f.done)
                     && (status == Failed <==> f.config && f.failed && (none || !f.done)))
  {
    DraftLeaves(w, id, kind, target, yaml, stillValid, f);
    ListsNone(uids, w.view.stored, target);
    if DraftOk(yaml, stillValid, f) {
      var d := Drafted(w, id, kind, target, yaml, stillValid, f).0;
      OfferEnds(d, id, yaml.value, requireApproval, uids, f);
    }
  }

  lemma ListsNone(uids: seq<string>, stored: map<string, Collector>, target: string)
    requires Lists(uids, stored, target)
    ensures uids == [] <==> Targets(stored, target) == {}
  {
    if uids != [] {
      assert uids[0] in Targets(stored, target);
    }
  }

  lemma OfferEnds(d: World, id: string, yaml: string, requireApproval: bool, uids: seq<string>, f: Fate)
    requires id in d.store.tasks && d.store.tasks[id].status == AwaitingApproval && d.store.tasks[id].generated == ""
            && yaml != ""
    requires d.store.tasks[id].kind == Generate || d.store.tasks[id].kind == Optimize
    ensures var v := Offering(d, id, yaml, requireApproval, uids, f).0;
            && id in v.store.tasks
            && (requireApproval || !f.approved ==> v.store.tasks[id].status == AwaitingApproval)
            && (!requireApproval && f.approved ==>
                  && (v.store.tasks[id].status == Applying <==> !f.config || (!f.failed && (uids == [] || !f.done)))
                  && (v.store.tasks[id].status == Done <==> f.config && uids != [] && f.done)
                  && (v.store.tasks[id].status == Failed <==> f.config && f.failed && (uids == [] || !f.done))
                  && v.store.tasks[id].status in {Applying, Done, Failed})
  {
    if !requireApproval && f.approved {
      DispatchEnds(WithConfig(d, id, yaml, f.config), id, "agent", uids, f);
    }
  }

  // ---- what a dispatch pushes ----

  function PushList(uids: seq<string>, n: nat, yaml: string, f: Fate): seq<PushCall>
    requires n <= |uids|
  {
    if n == 0 then [] else PushList(uids, n - 1, yaml, f) + [PushCall(uids[n - 1], yaml, f.pushes(uids[n - 1]))]
  }

  lemma {:induction false} PushListShape(uids: seq<string>, n: nat, yaml: string, f: Fate)
    requires n <= |uids|
    ensures |PushList(uids, n, yaml, f)| == n
    ensures forall i :: 0 <= i < n ==> PushList(uids, n, yaml, f)[i] == PushCall(uids[i], yaml, f.pushes(uids[i]))
  {
    if n > 0 {
      PushListShape(uids, n - 1, yaml, f);
    }
  }

  lemma {:induction false} ServedPushes(w: World, uids: seq<string>, n: nat, yaml: string, f: Fate)
    requires n <= |uids|
    ensures Served(w, uids, n, yaml, f).pushed == w.pushed + PushList(uids, n, yaml, f)
  {
    if n > 0 {
      ServedPushes(w, uids, n - 1, yaml, f);
    }
  }

  predicate OnlyStoreDiffers(v: World, w: World) {
    v.versions == w.versions && v.view == w.view && v.pushed == w.pushed
  }

  /** What an approval does beside the tasks: the loop over the collectors the task reaches, if it has a config. */
  function RolledOut(w: World, t: Task, uids: seq<string>, f: Fate): World {
    if Offered(w, t).None? then w else Served(w, Reached(t, uids), |Reached(t, uids)|, Offered(w, t).value, f)
  }

  lemma FinishedKeeps(w: World, id: string, unconfirmed: bool, f: Fate)
    ensures OnlyStoreDiffers(Finished(w, id, unconfirmed, f).0, w)
  {
  }

  lemma {:induction false} RollbackRollsOut(w: World, id: string, uid: string, yaml: string, f: Fate)
    ensures OnlyStoreDiffers(RolledBack(w, id, uid, yaml, f).0, Served(w, [uid], 1, yaml, f))
  {
    assert Served(w, [uid], 0, yaml, f) == w;
    FinishedKeeps(Recorded(Sent(w, uid, yaml, f.pushes(uid)), uid, yaml, f), id,
                  f.pushes(uid) == Confirm.Unconfirmed, f);
  }

  lemma DispatchRollsOut(w: World, id: string, approver: string, uids: seq<string>, f: Fate)
    requires Approves(w, id, approver, f)
    ensures OnlyStoreDiffers(Dispatched(w, id, approver, uids, f).0,
                             RolledOut(Approved(w, id, approver), w.store.tasks[id], uids, f))
  {
    var w1 := Approved(w, id, approver);
    var t := w1.store.tasks[id];
    assert Offered(w1, t) == Offered(w1, w.store.tasks[id]);
    if t.kind == Rollback {
      if RollbackContent(w1, t).Some? {
        RollbackRollsOut(w1, id, t.targetInstance, RollbackContent(w1, t).value, f);
      }
    } else if t.kind != Upgrade && t.generated != "" {
      FinishedKeeps(Served(w1, uids, |uids|, t.generated, f), id, AnyUnconfirmed(uids, f), f);
    }
  }

  /** An approval pushes the task's config to its collectors, once each and in order; without config, nothing. */
  lemma {:induction false} DispatchPushes(w: World, id: string, approver: string, uids: seq<string>, f: Fate)
    requires Approves(w, id, approver, f)
    ensures var t := w.store.tasks[id];
            var to := Reached(t, uids);
            Dispatched(w, id, approver, uids, f).0.pushed ==
            w.pushed + if Offered(w, t).Some? then PushList(to, |to|, Offered(w, t).value, f) else []
  {
    var t := w.store.tasks[id];
    DispatchRollsOut(w, id, approver, uids, f);
    assert Offered(Approved(w, id, approver), t) == Offered(w, t);
    if Offered(w, t).Some? {
      ServedPushes(Approved(w, id, approver), Reached(t, uids), |Reached(t, uids)|, Offered(w, t).value, f);
    }
  }

  /** The collectors a task is meant for: the one of a rollback, or those of its group. */
  function Receivers(w: World, t: Task): set<string> {
    if t.kind == Rollback then {t.targetInstance} else Targets(w.view.stored, t.targetGroup)
  }

  /** With the target's collectors listed, an approval pushes to exactly the task's receivers, each once. */
  lemma ReachedExactly(w: World, t: Task, uids: seq<string>)
    requires Lists(uids, w.view.stored, t.targetGroup)
    ensures forall u :: u in Reached(t, uids) <==> u in Receivers(w, t)
    ensures forall i, j :: 0 <= i < j < |Reached(t, uids)| ==> Reached(t, uids)[i] != Reached(t, uids)[j]
  {
  }

  // ---- what it means for the collectors ----

  predicate KeyedView(v: View) {
    && (forall u :: u in v.collectors ==> v.collectors[u].uid == u)
    && (forall u :: u in v.stored ==> v.stored[u].uid == u)
  }

  /** The intended config of uid reaches its stored record: by the registry's write or by the one after it. */
  predicate Kept(v: View, uid: string, f: Fate) {
    f.kept(uid) || (uid in v.collectors && f.mirrored(uid))
  }

  /** The collector's newest version is yaml, and so is its stored effective config if that write succeeded. */
  predicate InForce(w: World, uid: string, yaml: string, kept: bool) {
    && Newest(w.versions, uid) == Some(yaml)
    && (kept && uid in w.view.stored ==> w.view.stored[uid].effective == yaml)
  }

  lemma {:induction false} BelowAgrees(v: seq<Version>, x: seq<Version>, n: nat, uid: string, id: nat)
    requires n <= |v| && n <= |x| && forall i :: 0 <= i < n ==> v[i] == x[i]
    ensures NewestBelow(v, n, uid) == NewestBelow(x, n, uid) && FindBelow(v, n, uid, id) == FindBelow(x, n, uid, id)
  {
    if n > 0 {
      BelowAgrees(v, x, n - 1, uid, id);
    }
  }

  lemma RecordedVersions(w: World, uid: string, yaml: string, f: Fate, u: string)
    ensures var v := Recorded(w, uid, yaml, f);
            && (f.row(uid) ==> Newest(v.versions, uid) == Some(yaml))
            && (u != uid || !f.row(u) ==> Newest(v.versions, u) == Newest(w.versions, u))
  {
    BelowAgrees(Recorded(w, uid, yaml, f).versions, w.versions, |w.versions|, u, 0);
  }

  lemma RecordedView(w: World, uid: string, yaml: string, f: Fate)
    requires KeyedView(w.view)
    ensures var v := Recorded(w, uid, yaml, f);
            && v.store == w.store && v.pushed == w.pushed && KeyedView(v.view)
            && w.view.stored.Keys <= v.view.stored.Keys && w.view.collectors.Keys == v.view.collectors.Keys
            && (f.row(uid) && Kept(w.view, uid, f) && uid in v.view.stored ==> v.view.stored[uid].effective == yaml)
            && (forall u :: u in w.view.stored && (u != uid || !f.row(u) || !Kept(w.view, u, f)) ==>
                v.view.stored[u] == w.view.stored[u])
  {
  }

  predicate Among(uids: seq<string>, n: nat, u: string)
    requires n <= |uids|
  {
    exists i :: 0 <= i < n && uids[i] == u
  }

  lemma AmongNext(uids: seq<string>, n: nat, u: string)
    requires n < |uids|
    ensures Among(uids, n + 1, u) == (Among(uids, n, u) || uids[n] == u)
  {
  }

  /** Collector u after some serving: reached, or with version and stored record as before. */
  ghost predicate ReachedOrKept(w: World, v: World, u: string, reached: bool, yaml: string, kept: bool) {
    && v.store == w.store && KeyedView(v.view) && u in w.view.stored && u in v.view.stored
    && v.view.collectors.Keys == w.view.collectors.Keys
    && (reached ==> InForce(v, u, yaml, kept))
    && (!reached ==> Newest(v.versions, u) == Newest(w.versions, u))
    && (!reached || !kept ==> v.view.stored[u] == w.view.stored[u])
  }

  /** One round of the loop over the targets. */
  lemma ServeOne(w: World, v: World, uid: string, u: string, among: bool, yaml: string, f: Fate)
    requires ReachedOrKept(w, v, u, among && f.pushes(u) != Confirm.Failed && f.row(u), yaml, Kept(w.view, u, f))
    ensures var x := Sent(v, uid, yaml, f.pushes(uid));
            ReachedOrKept(w, if f.pushes(uid) == Confirm.Failed then x else Recorded(x, uid, yaml, f), u,
                          (among || uid == u) && f.pushes(u) != Confirm.Failed && f.row(u), yaml, Kept(w.view, u, f))
  {
    RecordedVersions(Sent(v, uid, yaml, f.pushes(uid)), uid, yaml, f, u);
    RecordedView(Sent(v, uid, yaml, f.pushes(uid)), uid, yaml, f);
  }

  lemma {:induction false} ServedFacts(w: World, uids: seq<string>, n: nat, yaml: string, f: Fate, u: string)
    requires n <= |uids| && KeyedView(w.view) && u in w.view.stored
    ensures ReachedOrKept(w, Served(w, uids, n, yaml, f), u,
                          Among(uids, n, u) && f.pushes(u) != Confirm.Failed && f.row(u), yaml, Kept(w.view, u, f))
  {
    if n > 0 {
      ServedFacts(w, uids, n - 1, yaml, f, u);
      AmongNext(uids, n - 1, u);
      ServeOne(w, Served(w, uids, n - 1, yaml, f), uids[n - 1], u, Among(uids, n - 1, u), yaml, f);
    }
  }

  /**
    The config of an approved task is in force on exactly the task's collectors whose push was accepted and
    whose row was written, whatever becomes of the status: newest version, and stored effective config where
    that write succeeded. Every other collector keeps both.
   */
  lemma DispatchReaches(w: World, id: string, approver: string, uids: seq<string>, f: Fate, u: string)
    requires KeyedView(w.view) && u in w.view.stored && Approves(w, id, approver, f)
    requires Lists(uids, w.view.stored, w.store.tasks[id].targetGroup) && Offered(w, w.store.tasks[id]).Some?
    ensures var v := Dispatched(w, id, approver, uids, f).0;
            var t := w.store.tasks[id];
            var reached := u in Receivers(w, t) && f.pushes(u) != Confirm.Failed && f.row(u);
            && u in v.view.stored
            && (reached ==> InForce(v, u, Offered(w, t).value, Kept(w.view, u, f)))
            && (!reached ==> Newest(v.versions, u) == Newest(w.versions, u))
            && (!reached || !Kept(w.view, u, f) ==> v.view.stored[u] == w.view.stored[u])
  {
    var t := w.store.tasks[id];
    DispatchRollsOut(w, id, approver, uids, f);
    assert Offered(Approved(w, id, approver), t) == Offered(w, t);
    ReachedExactly(w, t, uids);
    ServedFacts(Approved(w, id, approver), Reached(t, uids), |Reached(t, uids)|, Offered(w, t).value, f, u);
    assert Among(Reached(t, uids), |Reached(t, uids)|, u) <==> u in Reached(t, uids);
  }

  // ---- rollback ----

  lemma {:induction false} FindRow(versions: seq<Version>, n: nat, k: nat)
    requires Ascending(versions) && k < n <= |versions|
    ensures FindBelow(versions, n, versions[k].uid, versions[k].id) == Some(versions[k].yaml)
  {
    if k < n - 1 {
      FindRow(versions, n - 1, k);
    }
  }

  /** A rollback to row k whose push is accepted and whose row is written puts that row's config in force again. */
  lemma RollbackInForce(w: World, id: string, approver: string, uids: seq<string>, f: Fate, k: nat)
    requires KeyedView(w.view) && Ascending(w.versions) && k < |w.versions| && Approves(w, id, approver, f)
    requires var t := w.store.tasks[id];
             t.kind == Rollback && t.targetInstance == w.versions[k].uid && t.rollbackVersion == w.versions[k].id
    requires var uid := w.versions[k].uid; uid != "" && f.pushes(uid) != Confirm.Failed && f.row(uid)
    ensures var uid := w.versions[k].uid;
            InForce(Dispatched(w, id, approver, uids, f).0, uid, w.versions[k].yaml, Kept(w.view, uid, f))
  {
    var uid, yaml, w1 := w.versions[k].uid, w.versions[k].yaml, Approved(w, id, approver);
    FindRow(w.versions, |w.versions|, k);
    DispatchRollsOut(w, id, approver, uids, f);
    assert Offered(w1, w.store.tasks[id]) == Some(yaml);
    assert Served(w1, [uid], 0, yaml, f) == w1;
    RecordedVersions(Sent(w1, uid, yaml, f.pushes(uid)), uid, yaml, f, "");
    RecordedView(Sent(w1, uid, yaml, f.pushes(uid)), uid, yaml, f);
  }
}
