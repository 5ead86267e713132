/**
  The dispatch side of internal/agent/tools.go: an approved task is pushed to its collectors, every
  accepted push leaves a version row, and a rollback dispatches an earlier row again.
 */
module Dispatch {
  import opened TaskLifecycle
  import opened CollectorRegistry
  import opened Wrappers
  import OpAmpServer
  import Confirm

  datatype Version = Version(id: nat, uid: string, yaml: string)

  /** A config handed over for a collector, and what came of it. */
  datatype PushCall = PushCall(uid: string, yaml: string, outcome: Confirm.Outcome)

  /** Tasks with their events, the version rows in order, registry and store of collectors, and all pushes so far. */
  datatype World = World(store: Store, versions: seq<Version>, view: View, pushed: seq<PushCall>)

  /**
    What the outside decides while one request is handled: pushAndConfirm's answer for each collector, which
    writes succeed, and how many ids the table of rows skips. A request writes each status at most once. For
    each collector it writes one row, the record through the registry (mirrored), and the record itself (kept).
   */
  datatype Fate = Fate(
    pushes: string -> Confirm.Outcome,
    created: bool, generating: bool, validating: bool, awaiting: bool, config: bool,
    approved: bool, done: bool, failed: bool, noted: bool,
    row: string -> bool, gap: string -> nat, mirrored: string -> bool, kept: string -> bool)

  datatype Result = Succeeded | Refused

  // ---- version rows ----

  function NewestBelow(versions: seq<Version>, n: nat, uid: string): Option<string>
    requires n <= |versions|
  {
    if n == 0 then None
    else if versions[n - 1].uid == uid then Some(versions[n - 1].yaml)
    else NewestBelow(versions, n - 1, uid)
  }

  /** The newest version of a collector. */
  function Newest(versions: seq<Version>, uid: string): Option<string> {
    NewestBelow(versions, |versions|, uid)
  }

  /** The collector's version with this id, searched from the newest on. */
  function FindBelow(versions: seq<Version>, n: nat, uid: string, id: nat): Option<string>
    requires n <= |versions|
  {
    if n == 0 then None
    else if versions[n - 1].uid == uid && versions[n - 1].id == id then Some(versions[n - 1].yaml)
    else FindBelow(versions, n - 1, uid, id)
  }

  function Find(versions: seq<Version>, uid: string, id: nat): Option<string> {
    FindBelow(versions, |versions|, uid, id)
  }

  /** Row ids are positive and grow in the order the rows were written; there can be gaps between them. */
  predicate Ascending(versions: seq<Version>) {
    && (forall i :: 0 <= i < |versions| ==> versions[i].id > 0)
    && (forall i, j :: 0 <= i < j < |versions| ==> versions[i].id < versions[j].id)
  }

  function LastId(versions: seq<Version>): nat {
    if versions == [] then 0 else versions[|versions| - 1].id
  }

  /** recordConfigVersion; without the version row it writes nothing else. */
  function Recorded(w: World, uid: string, yaml: string, f: Fate): World {
    if !f.row(uid) then w
    else w.(versions := w.versions + [Version(LastId(w.versions) + 1 + f.gap(uid), uid, yaml)],
            view := OpAmpServer.StoreRecords(OpAmpServer.RegistryRecords(w.view, uid, yaml, f.mirrored(uid)),
                                             uid, yaml, f.kept(uid)))
  }

  /** A call of pushAndConfirm. */
  function Sent(w: World, uid: string, yaml: string, outcome: Confirm.Outcome): World {
    w.(pushed := w.pushed + [PushCall(uid, yaml, outcome)])
  }

  // ---- the end of a dispatch ----

  function Moved(w: World, id: string, to: TaskLifecycle.Status, saved: bool): World {
    w.(store := After(w.store, SetTaskStatus(id, to), saved, true))
  }

  /** setTaskError: a note on the task, whose status stays. */
  function Noted(w: World, id: string, note: string, saved: bool): World {
    if saved && id in w.store.tasks
    then w.(store := w.store.(tasks := w.store.tasks[id := w.store.tasks[id].(error := note)])) else w
  }

  const UNCONFIRMED: string := "no confirmation from the agent"
  const UNFINISHED: string := "status could not be written"

  function NotedIf(w: World, id: string, unconfirmed: bool, saved: bool): World {
    if unconfirmed then Noted(w, id, UNCONFIRMED, saved) else w
  }

  predicate CanMove(w: World, id: string, to: TaskLifecycle.Status, saved: bool) {
    Succeeds(w.store, SetTaskStatus(id, to), saved)
  }

  /** markTaskFailed. */
  function MarkedFailed(w: World, id: string, f: Fate): World {
    if CanMove(w, id, Failed, f.failed) then Noted(Moved(w, id, Failed, f.failed), id, UNFINISHED, f.noted) else w
  }

  /** The task is done; when that cannot be written, it is marked failed instead. */
  function Finished(w: World, id: string, unconfirmed: bool, f: Fate): (World, Result) {
    if CanMove(w, id, Done, f.done) then (NotedIf(Moved(w, id, Done, f.done), id, unconfirmed, f.noted), Succeeded)
    else (MarkedFailed(w, id, f), Refused)
  }

  // ---- the two dispatch paths ----

  /** The collectors a target names: one instance, or a group. */
  function Targets(stored: map<string, Collector>, target: string): set<string> {
    if target == "" then {} else set u | u in stored && (u == target || stored[u].groupId == target)
  }

  /** The target's collectors, each once, in whatever order the store lists them. */
  ghost predicate Lists(uids: seq<string>, stored: map<string, Collector>, target: string) {
    && (forall u :: u in uids <==> u in Targets(stored, target))
    && (forall i, j :: 0 <= i < j < |uids| ==> uids[i] != uids[j])
  }

  /** The group or instance a task is meant for. */
  function TargetOf(w: World, id: string): string {
    if id in w.store.tasks then w.store.tasks[id].targetGroup else ""
  }

  /** The first n collectors served: each gets a push, and unless that fails a version row. */
  function Served(w: World, uids: seq<string>, n: nat, yaml: string, f: Fate): World
    requires n <= |uids|
  {
    if n == 0 then w
    else
      var u := uids[n - 1];
      var v := Sent(Served(w, uids, n - 1, yaml, f), u, yaml, f.pushes(u));
      if f.pushes(u) == Confirm.Failed then v else Recorded(v, u, yaml, f)
  }

  predicate AnyUnconfirmed(uids: seq<string>, f: Fate) {
    exists i :: 0 <= i < |uids| && f.pushes(uids[i]) == Confirm.Unconfirmed
  }

  /** The config a rollback task asks for, if there is one. */
  function RollbackContent(w: World, t: Task): Option<string> {
    if t.targetInstance == "" then None
    else if t.rollbackVersion == 0 then (if t.generated == "" then None else Some(t.generated))
    else Find(w.versions, t.targetInstance, t.rollbackVersion)
  }

  /** dispatchRollbackContent. */
  function RolledBack(w: World, id: string, uid: string, yaml: string, f: Fate): (World, Result) {
    var v := Sent(w, uid, yaml, f.pushes(uid));
    if f.pushes(uid) == Confirm.Failed then (Moved(v, id, Failed, f.failed), Refused)
    else Finished(Recorded(v, uid, yaml, f), id, f.pushes(uid) == Confirm.Unconfirmed, f)
  }

  /** DispatchApprove; uids lists the target collectors in the order they are served. */
  function Dispatched(w: World, id: string, approver: string, uids: seq<string>, f: Fate): (World, Result) {
    if !Succeeds(w.store, ApproveTask(id, approver), f.approved) then (w, Refused)
    else
      var w1 := w.(store := After(w.store, ApproveTask(id, approver), f.approved, true));
      var t := w1.store.tasks[id];
      if t.kind == Upgrade then
        (Moved(w1, id, Done, f.done), if CanMove(w1, id, Done, f.done) then Succeeded else Refused)
      else if t.kind == Rollback then
        match RollbackContent(w1, t)
        case None => (w1, Refused)
        case Some(yaml) => RolledBack(w1, id, t.targetInstance, yaml, f)
      else if t.generated == "" then (w1, Refused)
      else if uids == [] then (Moved(w1, id, Failed, f.failed), Refused)
      else Finished(Served(w1, uids, |uids|, t.generated, f), id, AnyUnconfirmed(uids, f), f)
  }

  /** PushConfig alone, without waiting for a confirmation. */
  function PushOnly(f: Fate, uid: string): Confirm.Outcome {
    if f.pushes(uid) == Confirm.Failed then Confirm.Failed else Confirm.Accepted
  }

  /** handleApplyConfig once its arguments are valid: a row for every target, even after a failed push. */
  function Applied(w: World, uids: seq<string>, n: nat, yaml: string, f: Fate): World
    requires n <= |uids|
  {
    if n == 0 then w
    else
      var u := uids[n - 1];
      Recorded(Sent(Applied(w, uids, n - 1, yaml, f), u, yaml, PushOnly(f, u)), u, yaml, f)
  }

  /** Attempt k of generateYAML gives a usable config: the model answers, not with nothing, and it validates. */
  predicate Usable(llm: nat -> Option<string>, valid: string -> bool, k: nat) {
    llm(k).Some? && llm(k).value != "" && valid(llm(k).value)
  }

  /** The first usable answer of attempts k to 2. */
  function FirstUsable(llm: nat -> Option<string>, valid: string -> bool, k: nat): Option<string>
    decreases 3 - k
  {
    if k >= 3 then None else if Usable(llm, valid, k) then llm(k) else FirstUsable(llm, valid, k + 1)
  }

  /**
    It is the first of the answers k to 2 that is there, is not empty and validates, and None exactly when none
    of them is.
   */
  lemma {:induction false} FirstUsableMeans(llm: nat -> Option<string>, valid: string -> bool, k: nat)
    requires k <= 3
    ensures var y := FirstUsable(llm, valid, k);
            && (y.None? <==> forall j :: k <= j < 3 ==> llm(j).None? || llm(j).value == "" || !valid(llm(j).value))
            && (y.Some? ==>
                  exists i :: k <= i < 3 && llm(i) == y && y.value != "" && valid(y.value)
                              && forall j :: k <= j < i ==> llm(j).None? || llm(j).value == "" || !valid(llm(j).value))
    decreases 3 - k
  {
    if k < 3 {
      FirstUsableMeans(llm, valid, k + 1);
      assert Usable(llm, valid, k) <==> !(llm(k).None? || llm(k).value == "" || !valid(llm(k).value));
    }
  }

  function NewTask(kind: Kind, target: string): Task {
    Task(kind, Pending, "", target, "", 0, "", "", "")
  }

  function Created(w: World, id: string, task: Task, status: TaskLifecycle.Status, saved: bool): World {
    w.(store := After(w.store, CreateTask(id, task, Some(status)), saved, true))
  }

  /** From the creation to awaiting_approval, or to where it ends before that. */
  function Drafted(w: World, id: string, kind: Kind, target: string, yaml: Option<string>, stillValid: bool,
                   f: Fate): (World, Result) {
    var w0 := Created(w, id, NewTask(kind, target), Pending, f.created);
    var w1 := Moved(w0, id, Generating, f.generating);
    var w2 := Moved(w1, id, Validating, f.validating);
    if id in w.store.tasks || !f.created then (w, Refused)
    else if !f.generating then (w0, Refused)
    else if yaml.None? then (Moved(w1, id, Failed, f.failed), Refused)
    else if !f.validating then (w1, Refused)
    else if !stillValid then (Moved(w2, id, Failed, f.failed), Refused)
    else if !f.awaiting then (w2, Refused)
    else (Moved(w2, id, AwaitingApproval, f.awaiting), Succeeded)
  }

  /** The config is put on the task by a separate write, whose failure is ignored. */
  function WithConfig(w: World, id: string, yaml: string, saved: bool): World {
    if saved && id in w.store.tasks
    then w.(store := w.store.(tasks := w.store.tasks[id := w.store.tasks[id].(generated := yaml)])) else w
  }

  /** What follows a draft: the config on the task and, with approval switched off, the dispatch. */
  function Offering(w: World, id: string, yaml: string, requireApproval: bool, uids: seq<string>,
                    f: Fate): (World, Result) {
    var v := WithConfig(w, id, yaml, f.config);
    if requireApproval then (v, Succeeded) else Dispatched(v, id, "agent", uids, f)
  }

  /** handleGenerateConfig and handleOptimizeConfig with valid arguments. */
  function Generated(w: World, id: string, kind: Kind, target: string, yaml: Option<string>, stillValid: bool,
                     requireApproval: bool, uids: seq<string>, f: Fate): (World, Result)
  {
    var (v, drafted) := Drafted(w, id, kind, target, yaml, stillValid, f);
    if drafted == Refused || yaml.None? then (v, Refused) else Offering(v, id, yaml.value, requireApproval, uids, f)
  }

  /** Any collection of uids can be listed. */
  lemma {:induction false} Listing(s: set<string>) returns (uids: seq<string>)
    ensures forall u :: u in uids <==> u in s
    ensures forall i, j :: 0 <= i < j < |uids| ==> uids[i] != uids[j]
  {
    if s == {} {
      uids := [];
    } else {
      var u :| u in s;
      var rest := Listing(s - {u});
      uids := rest + [u];
    }
  }

  class Deps {
    const service: Service
    var versions: seq<Version>
    var view: View
    var pushed: seq<PushCall>

    constructor (service: Service, versions: seq<Version>, view: View)
      ensures this.service == service && this.versions == versions && this.view == view && pushed == []
    {
      this.service, this.versions, this.view, pushed := service, versions, view, [];
    }

    function Current(): World
      reads this, service
    {
      World(service.Current(), versions, view, pushed)
    }

    /** A call of pushAndConfirm. */
    method Push(uid: string, yaml: string, f: Fate) returns (outcome: Confirm.Outcome)
      modifies `pushed
      ensures Current() == Sent(old(Current()), uid, yaml, f.pushes(uid)) && outcome == f.pushes(uid)
    {
      outcome := f.pushes(uid);
      pushed := pushed + [PushCall(uid, yaml, outcome)];
    }

    method RecordConfigVersion(uid: string, yaml: string, f: Fate)
      modifies this
      ensures Current() == Recorded(old(Current()), uid, yaml, f)
    {
      if !f.row(uid) {
        return;
      }
      versions := versions + [Version(LastId(versions) + 1 + f.gap(uid), uid, yaml)];
      if uid in view.collectors {
        view := Upserted(view, view.collectors[uid].(effective := yaml), None, f.mirrored(uid));
      }
      if uid in view.stored {
        if f.kept(uid) {
          view := view.(stored := view.stored[uid := view.stored[uid].(effective := yaml)]);
        }
      }
    }

    method SetTaskError(id: string, note: string, saved: bool)
      modifies service
      ensures Current() == Noted(old(Current()), id, note, saved)
    {
      if id !in service.tasks {
        return;
      }
      if saved {
        service.tasks := service.tasks[id := service.tasks[id].(error := note)];
      }
    }

    /** markTaskFailed. */
    method MarkTaskFailed(id: string, f: Fate)
      modifies service
      ensures Current() == MarkedFailed(old(Current()), id, f)
    {
      var moved := service.SetStatus(id, Failed, f.failed, true);
      if !moved {
        return;
      }
      SetTaskError(id, UNFINISHED, f.noted);
    }

    /** How both dispatch paths end: done with an optional note, or marked failed. */
    method Finish(id: string, unconfirmed: bool, f: Fate) returns (result: Result)
      modifies service
      ensures (Current(), result) == Finished(old(Current()), id, unconfirmed, f)
    {
      var done := service.SetStatus(id, Done, f.done, true);
      if !done {
        MarkTaskFailed(id, f);
        return Refused;
      }
      if unconfirmed {
        SetTaskError(id, UNCONFIRMED, f.noted);
      }
      return Succeeded;
    }

    /** targetCollectors: every match once; no match, and an empty target, give none. */
    method TargetCollectors(target: string) returns (uids: seq<string>)
      ensures Lists(uids, view.stored, target)
      ensures forall u :: u in uids <==>
                target != "" && u in view.stored && (u == target || view.stored[u].groupId == target)
    {
      uids := [];
      if target == "" {
        return;
      }
      var todo := view.stored.Keys;
      while todo != {}
        invariant todo <= view.stored.Keys
        invariant forall u :: u in uids <==> u in Targets(view.stored, target) && u !in todo
        invariant forall i, j :: 0 <= i < j < |uids| ==> uids[i] != uids[j]
        decreases todo
      {
        var u :| u in todo;
        if u == target || view.stored[u].groupId == target {
          uids := uids + [u];
        }
        todo := todo - {u};
      }
    }

    /** The part of a rollback that looks for the version, newest first. */
    method FindVersion(uid: string, id: nat) returns (found: Option<string>)
      ensures found == Find(versions, uid, id)
    {
      var i := |versions|;
      while i > 0
        invariant 0 <= i <= |versions|
        invariant Find(versions, uid, id) == FindBelow(versions, i, uid, id)
      {
        i := i - 1;
        if versions[i].uid == uid && versions[i].id == id {
          return Some(versions[i].yaml);
        }
      }
      return None;
    }

    method DispatchRollbackContent(id: string, uid: string, yaml: string, f: Fate) returns (result: Result)
      modifies this, service
      ensures (Current(), result) == RolledBack(old(Current()), id, uid, yaml, f)
    {
      var outcome := Push(uid, yaml, f);
      if outcome == Confirm.Failed {
        var _ := service.SetStatus(id, Failed, f.failed, true);
        return Refused;
      }
      RecordConfigVersion(uid, yaml, f);
      result := Finish(id, outcome == Confirm.Unconfirmed, f);
    }

    method DispatchRollback(id: string, t: Task, f: Fate) returns (result: Result)
      modifies this, service
      ensures RollbackContent(old(Current()), t).None? ==> Current() == old(Current()) && result == Refused
      ensures RollbackContent(old(Current()), t).Some? ==>
                (Current(), result) == RolledBack(old(Current()), id, t.targetInstance,
                                                  RollbackContent(old(Current()), t).value, f)
    {
      if t.targetInstance == "" {
        return Refused;
      }
      if t.rollbackVersion == 0 {
        if t.generated == "" {
          return Refused;
        }
        result := DispatchRollbackContent(id, t.targetInstance, t.generated, f);
        return;
      }
      var target := FindVersion(t.targetInstance, t.rollbackVersion);
      if target.None? {
        return Refused;
      }
      result := DispatchRollbackContent(id, t.targetInstance, target.value, f);
    }

    /** The loop of DispatchApprove over the target collectors. */
    method Serve(uids: seq<string>, yaml: string, f: Fate) returns (unconfirmed: bool)
      modifies this
      ensures Current() == Served(old(Current()), uids, |uids|, yaml, f)
      ensures unconfirmed == AnyUnconfirmed(uids, f)
    {
      unconfirmed := false;
      for i := 0 to |uids|
        invariant Current() == Served(old(Current()), uids, i, yaml, f)
        invariant unconfirmed == exists k :: 0 <= k < i && f.pushes(uids[k]) == Confirm.Unconfirmed
      {
        var outcome := Push(uids[i], yaml, f);
        if outcome == Confirm.Failed {
          continue;
        }
        if outcome == Confirm.Unconfirmed {
          unconfirmed := true;
        }
        RecordConfigVersion(uids[i], yaml, f);
      }
    }

    /** The dispatch of a generated config to the collectors of the task's target. */
    method DispatchGroup(id: string, t: Task, f: Fate) returns (result: Result, uids: seq<string>)
      modifies this, service
      ensures Lists(uids, old(view.stored), t.targetGroup)
      ensures (Current(), result) ==
              if uids == [] then (Moved(old(Current()), id, Failed, f.failed), Refused)
              else Finished(Served(old(Current()), uids, |uids|, t.generated, f), id, AnyUnconfirmed(uids, f), f)
    {
      uids := TargetCollectors(t.targetGroup);
      if |uids| == 0 {
        var _ := service.SetStatus(id, Failed, f.failed, true);
        return Refused, uids;
      }
      var unconfirmed := Serve(uids, t.generated, f);
      result := Finish(id, unconfirmed, f);
    }

    method DispatchApprove(id: string, approver: string, f: Fate) returns (result: Result, ghost uids: seq<string>)
      modifies this, service
      ensures (Current(), result) == Dispatched(old(Current()), id, approver, uids, f)
      ensures Lists(uids, old(view.stored), TargetOf(old(Current()), id))
    {
      uids := Listing(Targets(view.stored, TargetOf(Current(), id)));
      var approved := service.Approve(id, approver, f.approved, true);
      if !approved {
        return Refused, uids;
      }
      var t := service.tasks[id];
      if t.kind == Upgrade {
        var done := service.SetStatus(id, Done, f.done, true);
        return if done then Succeeded else Refused, uids;
      }
      if t.kind == Rollback {
        result := DispatchRollback(id, t, f);
        return;
      }
      if t.generated == "" {
        return Refused, uids;
      }
      result, uids := DispatchGroup(id, t, f);
    }

    /** generateYAML: at most three attempts. */
    method GenerateYaml(llm: nat -> Option<string>, valid: string -> bool) returns (yaml: Option<string>)
      ensures yaml == FirstUsable(llm, valid, 0)
    {
      var attempt := 0;
      while attempt < 3
        invariant attempt <= 3 && FirstUsable(llm, valid, 0) == FirstUsable(llm, valid, attempt)
      {
        var content := llm(attempt);
        attempt := attempt + 1;
        if content.None? || content.value == "" {
          continue;
        }
        if valid(content.value) {
          return content;
        }
      }
      yaml := None;
    }

    /** The first half of both handlers; stillValid is the second validation, which only handleGenerateConfig has. */
    method DraftConfig(id: string, kind: Kind, target: string, llm: nat -> Option<string>, valid: string -> bool,
                       stillValid: bool, f: Fate)
      returns (yaml: Option<string>, drafted: Result)
      modifies service
      ensures (Current(), drafted) == Drafted(old(Current()), id, kind, target, FirstUsable(llm, valid, 0),
                                              stillValid, f)
      ensures drafted == Succeeded ==> yaml == FirstUsable(llm, valid, 0) && yaml.Some?
    {
      yaml, drafted := None, Refused;
      var ok := service.Create(id, NewTask(kind, target), Some(Pending), f.created, true);
      if !ok {
        return;
      }
      ok := service.SetStatus(id, Generating, f.generating, true);
      if !ok {
        return;
      }
      yaml := GenerateYaml(llm, valid);
      if yaml.None? {
        var _ := service.SetStatus(id, Failed, f.failed, true);
        return;
      }
      ok := service.SetStatus(id, Validating, f.validating, true);
      if !ok {
        return;
      }
      if !stillValid {
        var _ := service.SetStatus(id, Failed, f.failed, true);
        return;
      }
      ok := service.SetStatus(id, AwaitingApproval, f.awaiting, true);
      drafted := if ok then Succeeded else Refused;
    }

    /** The second half of both handlers. */
    method Offer(id: string, yaml: string, requireApproval: bool, f: Fate)
      returns (result: Result, ghost uids: seq<string>)
      modifies this, service
      ensures (Current(), result) == Offering(old(Current()), id, yaml, requireApproval, uids, f)
      ensures Lists(uids, old(view.stored), TargetOf(old(Current()), id))
    {
      uids := Listing(Targets(view.stored, TargetOf(Current(), id)));
      if f.config && id in service.tasks {
        service.tasks := service.tasks[id := service.tasks[id].(generated := yaml)];
      }
      if !requireApproval {
        result, uids := DispatchApprove(id, "agent", f);
        return;
      }
      return Succeeded, uids;
    }

    method HandleGenerateConfig(id: string, target: string, description: string, llm: nat -> Option<string>,
                                valid: string -> bool, stillValid: bool, requireApproval: bool, f: Fate)
      returns (result: Result, ghost uids: seq<string>)
      modifies this, service
      ensures Lists(uids, old(view.stored), target)
      ensures target == "" || description == "" ==> Current() == old(Current()) && result == Refused
      ensures target != "" && description != "" ==>
                (Current(), result) == Generated(old(Current()), id, Generate, target, FirstUsable(llm, valid, 0),
                                                 stillValid, requireApproval, uids, f)
    {
      uids := Listing(Targets(view.stored, target));
      if target == "" || description == "" {
        return Refused, uids;
      }
      var yaml, drafted := DraftConfig(id, Generate, target, llm, valid, stillValid, f);
      if drafted == Refused {
        return Refused, uids;
      }
      assert TargetOf(Current(), id) == target;
      result, uids := Offer(id, yaml.value, requireApproval, f);
    }

    /** handleOptimizeConfig: the same for one known collector, without the second validation. */
    method HandleOptimizeConfig(id: string, uid: string, llm: nat -> Option<string>, valid: string -> bool,
                                requireApproval: bool, f: Fate)
      returns (result: Result, ghost uids: seq<string>)
      modifies this, service
      ensures Lists(uids, old(view.stored), uid)
      ensures uid == "" || uid !in old(view.stored) ==> Current() == old(Current()) && result == Refused
      ensures uid != "" && uid in old(view.stored) ==>
                (Current(), result) == Generated(old(Current()), id, Optimize, uid, FirstUsable(llm, valid, 0), true,
                                                 requireApproval, uids, f)
    {
      uids := Listing(Targets(view.stored, uid));
      if uid == "" || uid !in view.stored {
        return Refused, uids;
      }
      var yaml, drafted := DraftConfig(id, Optimize, uid, llm, valid, true, f);
      if drafted == Refused {
        return Refused, uids;
      }
      assert TargetOf(Current(), id) == uid;
      result, uids := Offer(id, yaml.value, requireApproval, f);
    }

    /** handleApplyConfig: only with approval switched off; a row for every target even when its push fails. */
    method HandleApplyConfig(target: string, yaml: string, valid: string -> bool, requireApproval: bool, f: Fate)
      returns (result: Result, ghost uids: seq<string>)
      modifies this
      ensures Lists(uids, old(view.stored), target)
      ensures result == Succeeded <==>
              !requireApproval && yaml != "" && valid(yaml) && Targets(old(view.stored), target) != {}
      ensures Current() ==
              if result == Succeeded then Applied(old(Current()), uids, |uids|, yaml, f) else old(Current())
    {
      uids := Listing(Targets(view.stored, target));
      if requireApproval || target == "" || yaml == "" || !valid(yaml) {
        return Refused, uids;
      }
      var collectors := TargetCollectors(target);
      uids := collectors;
      if |collectors| == 0 {
        assert Targets(view.stored, target) == {};
        return Refused, uids;
      }
      assert uids[0] in Targets(view.stored, target);
      for i := 0 to |collectors|
        invariant Current() == Applied(old(Current()), uids, i, yaml, f)
      {
        ApplyOne(collectors[i], yaml, f);
      }
      result := Succeeded;
    }

    /** The loop body of handleApplyConfig. */
    method ApplyOne(uid: string, yaml: string, f: Fate)
      modifies this
      ensures Current() == Recorded(Sent(old(Current()), uid, yaml, PushOnly(f, uid)), uid, yaml, f)
    {
      pushed := pushed + [PushCall(uid, yaml, PushOnly(f, uid))];
      RecordConfigVersion(uid, yaml, f);
    }
  }
}
