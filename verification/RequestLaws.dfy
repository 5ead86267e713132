/** What the requests that bring their own config do: apply_config, an applied config, and a rollback. */
module RequestLaws {
  import opened ConfigApi
  import opened ConfigRuns
  import opened Dispatch
  import opened DispatchLaws
  import opened RunLaws
  import opened TaskLifecycle
  import opened Wrappers
  import Confirm

  // ---- apply_config ----

  /** The outcome of a push that nobody waits for. */
  function Handed(outcome: Confirm.Outcome): Confirm.Outcome {
    if outcome == Confirm.Failed then Confirm.Failed else Confirm.Accepted
  }

  /** The loop of apply_config pushes to every collector in order and does nothing else to tasks or earlier pushes. */
  lemma {:induction false} AppliedPushesAll(w: World, uids: seq<string>, n: nat, yaml: string, f: Fate)
    requires n <= |uids|
    ensures var v := Applied(w, uids, n, yaml, f);
            && v.store == w.store && |v.pushed| == |w.pushed| + n && w.pushed <= v.pushed
            && forall i :: 0 <= i < n ==>
                 v.pushed[|w.pushed| + i] == PushCall(uids[i], yaml, Handed(f.pushes(uids[i])))
  {
    if n > 0 {
      AppliedPushesAll(w, uids, n - 1, yaml, f);
    }
  }

  /** Every collector among the first n whose row can be written has the config as its newest version. */
  lemma {:induction false} AppliedRecordsAll(w: World, uids: seq<string>, n: nat, yaml: string, f: Fate, u: string)
    requires n <= |uids| && f.row(u)
    ensures Among(uids, n, u) ==> Newest(Applied(w, uids, n, yaml, f).versions, u) == Some(yaml)
  {
    if n > 0 {
      AppliedRecordsAll(w, uids, n - 1, yaml, f, u);
      AmongNext(uids, n - 1, u);
      var last := uids[n - 1];
      var v := Sent(Applied(w, uids, n - 1, yaml, f), last, yaml, PushOnly(f, last));
      RecordedVersions(v, last, yaml, f, u);
    }
  }

  /**
    With approval switched off, a valid config given to apply_config is pushed to exactly the stored collectors
    whose uid or group is the target, and becomes the newest version of each whose row can be written; otherwise
    nothing happens.
   */
  lemma ApplyConfigMeans(r: Run, n: nat, u: string)
    requires IsRun(r) && n < |r.steps| && r.steps[n].op.ApplyConfig?
    ensures var w, v, step := r.worlds[n], r.worlds[n + 1], r.steps[n];
            var target, yaml := step.op.target, step.op.yaml;
            && v.store == w.store
            && (r.env.requireApproval || yaml == "" || !r.env.valid(yaml) ==> v == w)
            && (!r.env.requireApproval && yaml != "" && r.env.valid(yaml) ==>
                  && (PushedTo(w, v, u, yaml) <==>
                      target != "" && u in w.view.stored && (u == target || w.view.stored[u].groupId == target))
                  && (PushedTo(w, v, u, yaml) && step.fate.row(u) ==> Newest(v.versions, u) == Some(yaml)))
  {
    var w, v, step := r.worlds[n], r.worlds[n + 1], r.steps[n];
    if !r.env.requireApproval && step.op.yaml != "" && r.env.valid(step.op.yaml) {
      var uids, yaml, f := step.uids, step.op.yaml, step.fate;
      assert v == Applied(w, uids, |uids|, yaml, f);
      AppliedPushesAll(w, uids, |uids|, yaml, f);
      ListedArePushed(w, v, uids, yaml, f, u);
      if u in uids && f.row(u) {
        AppliedRecordsAll(w, uids, |uids|, yaml, f, u);
        assert Among(uids, |uids|, u);
      }
    }
  }

  lemma ListedArePushed(w: World, v: World, uids: seq<string>, yaml: string, f: Fate, u: string)
    requires |v.pushed| == |w.pushed| + |uids|
    requires forall i :: 0 <= i < |uids| ==>
               v.pushed[|w.pushed| + i] == PushCall(uids[i], yaml, Handed(f.pushes(uids[i])))
    ensures PushedTo(w, v, u, yaml) <==> u in uids
  {
    if PushedTo(w, v, u, yaml) {
      var i :| |w.pushed| <= i < |v.pushed| && v.pushed[i].uid == u && v.pushed[i].yaml == yaml;
      assert v.pushed[|w.pushed| + (i - |w.pushed|)].uid == uids[i - |w.pushed|];
    }
    if u in uids {
      var i :| 0 <= i < |uids| && uids[i] == u;
      assert v.pushed[|w.pushed| + i].uid == u && v.pushed[|w.pushed| + i].yaml == yaml;
    }
  }

  // ---- the config of a request ----

  /** The request comes with config yaml, in its body or in a git file that can be read. */
  predicate Carries(source: Source, yaml: string) {
    source == Body(yaml) || source == Git(Some(yaml))
  }

  /** A new task that awaits its approval, and its first event. */
  function Waiting(w: World, id: string, t: Task): World {
    w.(store := Store(w.store.tasks[id := t], w.store.events + [Event(id, None, AwaitingApproval)]))
  }

  /**
    A request to apply a config: one that is not empty and valid, for a known collector, becomes a task that awaits
    its approval. With approval switched off that task is dispatched at once. Every other request changes nothing.
   */
  lemma SubmissionMeans(w: World, id: string, uid: string, source: Source, approver: string, valid: string -> bool,
                        requireApproval: bool, uids: seq<string>, f: Fate, yaml: string)
    ensures var (v, result) := Submitted(w, id, uid, source, approver, valid, requireApproval, uids, f);
            var row := Task(Apply, AwaitingApproval, yaml, uid, uid, 0, "", "", "");
            var fits := uid != "" && uid in w.view.stored && id !in w.store.tasks && f.created;
            && (!fits || source == Git(None) ==> v == w && result == Refused)
            && (Carries(source, yaml) && (yaml == "" || !valid(yaml)) ==> v == w && result == Refused)
            && (Carries(source, yaml) && fits && yaml != "" && valid(yaml) ==>
                  if requireApproval then v == Waiting(w, id, row) && result == Succeeded
                  else (v, result) == Dispatched(Waiting(w, id, row), id, approver, uids, f))
  {
  }

  /** A row of the collector with that id and config. */
  predicate HasRow(versions: seq<Version>, uid: string, id: int, yaml: string) {
    exists i :: 0 <= i < |versions| && versions[i].uid == uid && versions[i].id == id && versions[i].yaml == yaml
  }

  lemma {:induction false} FoundIsRow(versions: seq<Version>, n: nat, uid: string, id: nat)
    requires n <= |versions| && FindBelow(versions, n, uid, id).Some?
    ensures HasRow(versions, uid, id, FindBelow(versions, n, uid, id).value)
  {
    if !(versions[n - 1].uid == uid && versions[n - 1].id == id) {
      FoundIsRow(versions, n - 1, uid, id);
    }
  }

  /** The search for a version finds the row of that collector with that id, and only that. */
  lemma FindMeans(versions: seq<Version>, uid: string, id: nat, yaml: string)
    requires Ascending(versions)
    ensures Find(versions, uid, id) == Some(yaml) <==> HasRow(versions, uid, id, yaml)
  {
    if Find(versions, uid, id).Some? {
      FoundIsRow(versions, |versions|, uid, id);
    }
    if HasRow(versions, uid, id, yaml) {
      var i :| 0 <= i < |versions| && versions[i].uid == uid && versions[i].id == id && versions[i].yaml == yaml;
      FindRow(versions, |versions|, i);
    }
  }

  /** What the request is to go back to, and the task for it: a row of the collector, or a git file with its config. */
  predicate GoesBackTo(w: World, uid: string, goal: ConfigApi.Target, yaml: string, t: Task) {
    match goal
    case Row(version) =>
      version > 0 && HasRow(w.versions, uid, version, yaml)
      && t == Task(Rollback, AwaitingApproval, "", "", uid, version, "", "", "")
    case Commit(file) => file == Some(yaml) && t == Task(Rollback, AwaitingApproval, yaml, "", uid, 0, "", "", "")
  }

  /** A request to roll back: a valid goal becomes a task that awaits its approval; all else changes nothing. */
  lemma RollbackRequestMeans(w: World, id: string, uid: string, goal: ConfigApi.Target, valid: string -> bool, f: Fate,
                             yaml: string, t: Task)
    requires Ascending(w.versions)
    ensures var (v, result) := RollbackRequested(w, id, uid, goal, valid, f);
            var fits := uid != "" && id !in w.store.tasks && f.created;
            && (GoesBackTo(w, uid, goal, yaml, t) && fits && valid(yaml) ==>
                  v == Waiting(w, id, t) && result == Succeeded)
            && (GoesBackTo(w, uid, goal, yaml, t) && !valid(yaml) ==> v == w && result == Refused)
            && (!fits || (forall y, x :: !GoesBackTo(w, uid, goal, y, x)) ==> v == w && result == Refused)
  {
    match goal
    case Commit(file) =>
      if file.Some? {
        assert GoesBackTo(w, uid, goal, file.value, RollbackRow(uid, file.value, 0));
      }
    case Row(version) =>
      if version > 0 {
        FindMeans(w.versions, uid, version, yaml);
        if Find(w.versions, uid, version).Some? {
          var y := Find(w.versions, uid, version).value;
          FindMeans(w.versions, uid, version, y);
          assert GoesBackTo(w, uid, goal, y, RollbackRow(uid, "", version));
        }
      }
  }
}
