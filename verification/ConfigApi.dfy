/**
  The two requests of internal/api that create tasks with a config: ApplyTask of apply.go and RollbackTask
  of handlers.go.
 */
module ConfigApi {
  import opened Dispatch
  import opened TaskLifecycle
  import opened Wrappers

  function ApplyRow(uid: string, yaml: string): Task {
    Task(Apply, AwaitingApproval, yaml, uid, uid, 0, "", "", "")
  }

  function RollbackRow(uid: string, yaml: string, version: nat): Task {
    Task(Rollback, AwaitingApproval, yaml, "", uid, version, "", "", "")
  }

  /** Where a config comes from: the request itself, or a file of the git repository, if it can be read. */
  datatype Source = Body(yaml: string) | Git(file: Option<string>)

  function Content(source: Source): Option<string> {
    match source
    case Body(yaml) => Some(yaml)
    case Git(file) => file
  }

  /** ApplyTask; with approval switched off the new task is dispatched at once. */
  function Submitted(w: World, id: string, uid: string, source: Source, approver: string, valid: string -> bool,
                     requireApproval: bool, uids: seq<string>, f: Fate): (World, Result)
  {
    var yaml := Content(source);
    if uid == "" || yaml.None? || yaml.value == "" || uid !in w.view.stored || !valid(yaml.value)
       || id in w.store.tasks || !f.created
    then (w, Refused)
    else
      var w1 := Created(w, id, ApplyRow(uid, yaml.value), AwaitingApproval, f.created);
      if requireApproval then (w1, Succeeded) else Dispatched(w1, id, approver, uids, f)
  }

  /** What a rollback goes back to: a version row, or the file of a git commit. */
  datatype Target = Row(version: int) | Commit(file: Option<string>)

  /** The content of the target when the request is made, and the task that is to restore it. */
  function Wanted(w: World, uid: string, target: Target): Option<(string, Task)> {
    match target
    case Commit(file) => if file.None? then None else Some((file.value, RollbackRow(uid, file.value, 0)))
    case Row(version) =>
      if version <= 0 || Find(w.versions, uid, version).None? then None
      else Some((Find(w.versions, uid, version).value, RollbackRow(uid, "", version)))
  }

  /** RollbackTask: the task always waits for an approval. */
  function RollbackRequested(w: World, id: string, uid: string, target: Target, valid: string -> bool,
                             f: Fate): (World, Result) {
    var wanted := Wanted(w, uid, target);
    if uid == "" || wanted.None? || !valid(wanted.value.0) || id in w.store.tasks || !f.created then (w, Refused)
    else (Created(w, id, wanted.value.1, AwaitingApproval, f.created), Succeeded)
  }

  class Handlers {
    const deps: Deps

    constructor (deps: Deps)
      ensures this.deps == deps
    {
      this.deps := deps;
    }

    method ApplyTask(id: string, uid: string, source: Source, approver: string, valid: string -> bool,
                     requireApproval: bool, f: Fate) returns (result: Result, ghost uids: seq<string>)
      modifies deps, deps.service
      ensures Lists(uids, old(deps.view.stored), uid)
      ensures (deps.Current(), result) ==
              Submitted(old(deps.Current()), id, uid, source, approver, valid, requireApproval, uids, f)
    {
      uids := Listing(Targets(deps.view.stored, uid));
      if uid == "" {
        return Refused, uids;
      }
      var yaml := "";
      match source {
        case Body(body) => yaml := body;
        case Git(file) =>
          if file.None? {
            return Refused, uids;
          }
          yaml := file.value;
      }
      if yaml == "" {
        return Refused, uids;
      }
      if uid !in deps.view.stored {
        return Refused, uids;
      }
      if !valid(yaml) {
        return Refused, uids;
      }
      var created := deps.service.Create(id, ApplyRow(uid, yaml), Some(AwaitingApproval), f.created, true);
      if !created {
        return Refused, uids;
      }
      if requireApproval {
        return Succeeded, uids;
      }
      result, uids := deps.DispatchApprove(id, approver, f);
    }

    method RollbackTask(id: string, uid: string, target: Target, valid: string -> bool, f: Fate)
      returns (result: Result)
      modifies deps.service
      ensures (deps.Current(), result) == RollbackRequested(old(deps.Current()), id, uid, target, valid, f)
    {
      if uid == "" {
        return Refused;
      }
      var task;
      match target {
        case Commit(file) =>
          if file.None? || !valid(file.value) {
            return Refused;
          }
          task := RollbackRow(uid, file.value, 0);
        case Row(version) =>
          if version <= 0 {
            return Refused;
          }
          var found := deps.FindVersion(uid, version);
          if found.None? || !valid(found.value) {
            return Refused;
          }
          task := RollbackRow(uid, "", version);
      }
      var created := deps.service.Create(id, task, Some(AwaitingApproval), f.created, true);
      result := if created then Succeeded else Refused;
    }
  }
}
