/**
  Whole runs of the configuration workflow: every way internal/agent/tools.go and internal/api create,
  approve, reject and dispatch tasks, in any order, with any answers from outside and any writes failing.
  One request is one step.
 */
module ConfigRuns {
  import opened ConfigApi
  import opened Dispatch
  import opened DispatchLaws
  import opened TaskLifecycle
  import opened CollectorRegistry
  import opened Wrappers

  /** REQUIRE_APPROVAL, and what the validator accepts. */
  datatype Env = Env(requireApproval: bool, valid: string -> bool)

  /** The tools and requests, and what collectors report in between. */
  datatype Op =
    | GenerateConfig(id: string, target: string, description: string, llm: nat -> Option<string>, stillValid: bool)
    | OptimizeConfig(id: string, uid: string, llm: nat -> Option<string>)
    | ApplyConfig(target: string, yaml: string)
    | UpgradeCollector(id: string, target: string)
    | Approval(id: string, approver: string)
    | Rejection(id: string, approver: string, reason: string)
    | Submission(id: string, uid: string, source: Source, approver: string)
    | RollbackRequest(id: string, uid: string, goal: ConfigApi.Target)
    | Observation(view: View)

  /** An operation, the collectors of its target as the store lists them, and what the outside decides. */
  datatype Step = Step(op: Op, uids: seq<string>, fate: Fate)

  function AfterStep(env: Env, w: World, step: Step): World {
    var f, uids := step.fate, step.uids;
    match step.op
    case GenerateConfig(id, target, description, llm, stillValid) =>
      if target == "" || description == "" then w
      else Generated(w, id, Generate, target, FirstUsable(llm, env.valid, 0), stillValid, env.requireApproval, uids,
                     f).0
    case OptimizeConfig(id, uid, llm) =>
      if uid == "" || uid !in w.view.stored then w
      else Generated(w, id, Optimize, uid, FirstUsable(llm, env.valid, 0), true, env.requireApproval, uids, f).0
    case ApplyConfig(target, yaml) =>
      if env.requireApproval || yaml == "" || !env.valid(yaml) then w else Applied(w, uids, |uids|, yaml, f)
    case UpgradeCollector(id, target) =>
      if target == "" then w else Created(w, id, NewTask(Upgrade, target), AwaitingApproval, f.created)
    case Approval(id, approver) => Dispatched(w, id, approver, uids, f).0
    case Rejection(id, approver, reason) =>
      w.(store := After(w.store, RejectTask(id, approver, reason), f.approved, true))
    case Submission(id, uid, source, approver) =>
      Submitted(w, id, uid, source, approver, env.valid, env.requireApproval, uids, f).0
    case RollbackRequest(id, uid, goal) => RollbackRequested(w, id, uid, goal, env.valid, f).0
    case Observation(view) => w.(view := view)
  }

  /** The target whose collectors an operation may serve. */
  function TargetFor(w: World, op: Op): string {
    match op
    case GenerateConfig(_, target, _, _, _) => target
    case OptimizeConfig(_, uid, _) => uid
    case ApplyConfig(target, _) => target
    case Approval(id, _) => TargetOf(w, id)
    case Submission(_, uid, _, _) => uid
    case _ => ""
  }

  /** The step lists the collectors of its own target. */
  ghost predicate Legal(w: World, step: Step) {
    Lists(step.uids, w.view.stored, TargetFor(w, step.op))
  }

  /** The worlds a run passes through, and the step from each to the next. */
  datatype Run = Run(env: Env, worlds: seq<World>, steps: seq<Step>)

  ghost predicate Linked(env: Env, w: World, step: Step, v: World) {
    Legal(w, step) && v == AfterStep(env, w, step)
  }

  /** The ids of version rows ascend from the start, and each step is legal and leads to the next world. */
  ghost predicate IsRun(r: Run) {
    && |r.worlds| == |r.steps| + 1 && Ascending(r.worlds[0].versions)
    && forall k {:trigger r.steps[k]} :: 0 <= k < |r.steps| ==> Linked(r.env, r.worlds[k], r.steps[k], r.worlds[k + 1])
  }

  // ---- every step: a change to the tasks, then perhaps a dispatch ----

  /** The draft and, when it succeeds, the config on its task. */
  function Prepare(w: World, id: string, kind: Kind, target: string, yaml: Option<string>, stillValid: bool,
                   f: Fate): World {
    var (v, drafted) := Drafted(w, id, kind, target, yaml, stillValid, f);
    if drafted == Refused || yaml.None? then v else WithConfig(v, id, yaml.value, f.config)
  }

  predicate Accepts(env: Env, w: World, id: string, uid: string, source: Source, f: Fate) {
    var yaml := Content(source);
    && uid != "" && yaml.Some? && yaml.value != "" && uid in w.view.stored && env.valid(yaml.value)
    && id !in w.store.tasks && f.created
  }

  /** The world before the dispatch of a step, or after the step if it dispatches nothing. */
  function Prepared(env: Env, w: World, step: Step): World {
    var f := step.fate;
    match step.op
    case GenerateConfig(id, target, description, llm, stillValid) =>
      if target == "" || description == "" then w
      else Prepare(w, id, Generate, target, FirstUsable(llm, env.valid, 0), stillValid, f)
    case OptimizeConfig(id, uid, llm) =>
      if uid == "" || uid !in w.view.stored then w
      else Prepare(w, id, Optimize, uid, FirstUsable(llm, env.valid, 0), true, f)
    case Submission(id, uid, source, _) =>
      if Accepts(env, w, id, uid, source, f)
      then Created(w, id, ApplyRow(uid, Content(source).value), AwaitingApproval, true) else w
    case UpgradeCollector(id, target) =>
      if target == "" then w else Created(w, id, NewTask(Upgrade, target), AwaitingApproval, f.created)
    case Rejection(id, approver, reason) =>
      w.(store := After(w.store, RejectTask(id, approver, reason), f.approved, true))
    case RollbackRequest(id, uid, goal) => RollbackRequested(w, id, uid, goal, env.valid, f).0
    case Observation(view) => w.(view := view)
    case _ => w
  }

  /** The task a step dispatches, and in whose name. */
  function Dispatching(env: Env, w: World, step: Step): Option<(string, string)> {
    var f := step.fate;
    match step.op
    case Approval(id, approver) => Some((id, approver))
    case GenerateConfig(id, target, description, llm, stillValid) =>
      var yaml := FirstUsable(llm, env.valid, 0);
      if target == "" || description == "" || env.requireApproval || yaml.None?
         || Drafted(w, id, Generate, target, yaml, stillValid, f).1 == Refused then None
      else Some((id, "agent"))
    case OptimizeConfig(id, uid, llm) =>
      var yaml := FirstUsable(llm, env.valid, 0);
      if uid == "" || uid !in w.view.stored || env.requireApproval || yaml.None?
         || Drafted(w, id, Optimize, uid, yaml, true, f).1 == Refused then None
      else Some((id, "agent"))
    case Submission(id, uid, source, approver) =>
      if env.requireApproval || !Accepts(env, w, id, uid, source, f) then None else Some((id, approver))
    case _ => None
  }

  lemma {:induction false} StepSplits(env: Env, w: World, step: Step)
    ensures var v, d := Prepared(env, w, step), Dispatching(env, w, step);
            AfterStep(env, w, step) ==
            if step.op.ApplyConfig? then
              (if env.requireApproval || step.op.yaml == "" || !env.valid(step.op.yaml) then w
               else Applied(w, step.uids, |step.uids|, step.op.yaml, step.fate))
            else if d.Some? then Dispatched(v, d.value.0, d.value.1, step.uids, step.fate).0
            else v
  {
  }

  /** The first half of a step changes no row, no push and, but for an observation, no collector. */
  lemma PreparedKeeps(env: Env, w: World, step: Step)
    ensures var v := Prepared(env, w, step);
            v.versions == w.versions && v.pushed == w.pushed && (!step.op.Observation? ==> v.view == w.view)
  {
  }

  /** A task that a request creates: where it can be, what it carries, and whether it is ready to be approved. */
  predicate FreshTask(env: Env, w: World, t: Task, config: bool) {
    && t.status in {Pending, Generating, Validating, AwaitingApproval, Failed}
    && (t.generated == "" || env.valid(t.generated))
    && (t.status == AwaitingApproval && config && !env.valid("") && t.kind != Upgrade ==> Offered(w, t).Some?)
    && (t.kind == Rollback ==> t.rollbackVersion == 0 || Find(w.versions, t.targetInstance, t.rollbackVersion).Some?)
  }

  /** The first half of a step leaves the tasks alone, adds a fresh one, or rejects one. */
  ghost predicate Touched(env: Env, w: World, v: World, step: Step) {
    || v.store.tasks == w.store.tasks
    || (exists id :: id !in w.store.tasks && id in v.store.tasks
                     && v.store.tasks == w.store.tasks[id := v.store.tasks[id]]
                     && FreshTask(env, w, v.store.tasks[id], step.fate.config))
    || (exists id :: id in w.store.tasks && w.store.tasks[id].status == AwaitingApproval && id in v.store.tasks
                     && v.store.tasks == w.store.tasks[id := v.store.tasks[id]] && v.store.tasks[id].status == Rejected
                     && SameOffers(w.store.tasks[id], v.store.tasks[id]))
  }

  /** The parts of a task that decide what it pushes and where. */
  predicate SameOffers(t: Task, u: Task) {
    && t.kind == u.kind && t.generated == u.generated && t.targetGroup == u.targetGroup
    && t.targetInstance == u.targetInstance && t.rollbackVersion == u.rollbackVersion
  }

  lemma AddsFresh(env: Env, w: World, v: World, step: Step, id: string, t: Task)
    requires id !in w.store.tasks && v.store.tasks == w.store.tasks[id := t] && FreshTask(env, w, t, step.fate.config)
    ensures Touched(env, w, v, step)
  {
  }

  lemma CreateTouches(env: Env, w: World, id: string, row: Task, saved: bool, step: Step)
    requires FreshTask(env, w, row.(status := AwaitingApproval), step.fate.config)
    ensures Touched(env, w, Created(w, id, row, AwaitingApproval, saved), step)
  {
    if saved && id !in w.store.tasks {
      AddsFresh(env, w, Created(w, id, row, AwaitingApproval, saved), step, id, row.(status := AwaitingApproval));
    }
  }

  /** The task a draft leaves, with its config if that could be written. */
  function DraftTask(kind: Kind, target: string, yaml: Option<string>, stillValid: bool, f: Fate): Task {
    var t := NewTask(kind, target).(status := DraftEnd(yaml, stillValid, f));
    if t.status == AwaitingApproval && yaml.Some? && f.config then t.(generated := yaml.value) else t
  }

  lemma DraftIsFresh(env: Env, w: World, kind: Kind, target: string, yaml: Option<string>, stillValid: bool, f: Fate)
    requires (kind == Generate || kind == Optimize) && (yaml.Some? ==> yaml.value != "" && env.valid(yaml.value))
    ensures FreshTask(env, w, DraftTask(kind, target, yaml, stillValid, f), f.config)
  {
  }

  lemma PrepareLeaves(w: World, id: string, kind: Kind, target: string, yaml: Option<string>, stillValid: bool, f: Fate)
    ensures Prepare(w, id, kind, target, yaml, stillValid, f).store.tasks ==
            if id in w.store.tasks || !f.created then w.store.tasks
            else w.store.tasks[id := DraftTask(kind, target, yaml, stillValid, f)]
  {
    if id !in w.store.tasks && f.created {
      DraftLeaves(w, id, kind, target, yaml, stillValid, f);
    }
  }

  lemma PrepareTouches(env: Env, w: World, id: string, kind: Kind, target: string, llm: nat -> Option<string>,
                       stillValid: bool, step: Step)
    requires kind == Generate || kind == Optimize
    ensures Touched(env, w, Prepare(w, id, kind, target, FirstUsable(llm, env.valid, 0), stillValid, step.fate), step)
  {
    var yaml, f := FirstUsable(llm, env.valid, 0), step.fate;
    FirstUsableMeans(llm, env.valid, 0);
    PrepareLeaves(w, id, kind, target, yaml, stillValid, f);
    if id !in w.store.tasks && f.created {
      DraftIsFresh(env, w, kind, target, yaml, stillValid, f);
      AddsFresh(env, w, Prepare(w, id, kind, target, yaml, stillValid, f), step, id,
                DraftTask(kind, target, yaml, stillValid, f));
    }
  }

  lemma RequestTouches(env: Env, w: World, id: string, uid: string, goal: ConfigApi.Target, step: Step)
    ensures Touched(env, w, RollbackRequested(w, id, uid, goal, env.valid, step.fate).0, step)
  {
    var wanted := Wanted(w, uid, goal);
    if wanted.Some? && uid != "" && env.valid(wanted.value.0) {
      CreateTouches(env, w, id, wanted.value.1, step.fate.created, step);
    }
  }

  lemma DraftingTouches(env: Env, w: World, step: Step)
    requires step.op.GenerateConfig? || step.op.OptimizeConfig?
    ensures Touched(env, w, Prepared(env, w, step), step)
  {
    match step.op
    case GenerateConfig(id, target, _, llm, stillValid) =>
      PrepareTouches(env, w, id, Generate, target, llm, stillValid, step);
    case OptimizeConfig(id, uid, llm) => PrepareTouches(env, w, id, Optimize, uid, llm, true, step);
  }

  lemma SubmissionTouches(env: Env, w: World, id: string, uid: string, yaml: string, step: Step)
    requires yaml != "" && env.valid(yaml)
    ensures Touched(env, w, Created(w, id, ApplyRow(uid, yaml), AwaitingApproval, true), step)
  {
    CreateTouches(env, w, id, ApplyRow(uid, yaml), true, step);
  }

  lemma PreparedTouches(env: Env, w: World, step: Step)
    ensures Touched(env, w, Prepared(env, w, step), step)
  {
    match step.op
    case GenerateConfig(_, _, _, _, _) => DraftingTouches(env, w, step);
    case OptimizeConfig(_, _, _) => DraftingTouches(env, w, step);
    case UpgradeCollector(id, target) => CreateTouches(env, w, id, NewTask(Upgrade, target), step.fate.created, step);
    case Submission(id, uid, source, _) =>
      if Accepts(env, w, id, uid, source, step.fate) {
        SubmissionTouches(env, w, id, uid, Content(source).value, step);
      }
    case RollbackRequest(id, uid, goal) => RequestTouches(env, w, id, uid, goal, step);
    case Rejection(id, approver, reason) => RejectTouches(env, w, id, approver, reason, step);
    case _ =>
  }

  lemma RejectTouches(env: Env, w: World, id: string, approver: string, reason: string, step: Step)
    ensures Touched(env, w, w.(store := After(w.store, RejectTask(id, approver, reason), step.fate.approved, true)),
                    step)
  {
    if Succeeds(w.store, RejectTask(id, approver, reason), step.fate.approved) {
      assert id in w.store.tasks && w.store.tasks[id].status == AwaitingApproval;
    }
  }
}
