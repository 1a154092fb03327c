/** What every engine operation does, as a function from the state before to the state after. */
module Steps {
  // A state is the live projection together with the journal. Each operation commits a run of entries:
  // committing folds the entry into the projection and appends it, unless its idempotency key is already
  // in the journal, in which case the journal keeps the earlier entry.

  import opened Values
  import opened Model
  import opened Journal
  import opened Projection
  import opened Environment
  import opened Permissions
  import opened Records
  import Serial

  datatype State = State(view: View, log: seq<Entry>)

  /** The state after a call, and why it was refused, if it was. */
  datatype Outcome = Outcome(state: State, error: Option<Error>)

  function Refuse(s: State, e: Error): Outcome { Outcome(s, Some(e)) }

  function Done(s: State): Outcome { Outcome(s, None) }

  function StateOf(v: View, rid: Rid): string {
    if rid in v.records && rid.entity in v.model.workflows
    then AsString(Get(v.records[rid], v.model.workflows[rid.entity].field))
    else ""
  }

  predicate GuardHolds(env: Env, v: View, when: string, rid: Rid, actor: Actor, now: int) {
    when == "" || env.holds(when, v.records, rid.id, actor, env.computed(v.model, v.records, rid, now), now)
  }

  // ---- committing -----------------------------------------------------------------

  /** Folds and appends an entry whose key is absent or new. */
  function Commit(env: Env, s: State, e: Entry): State {
    State(Apply(env.compile, s.view, e), s.log + [e])
  }

  /** The live projection moves although the journal already holds an entry under the key. */
  function Shadow(env: Env, s: State, e: Entry): State {
    State(Apply(env.compile, s.view, e), s.log)
  }

  function RecordSubject(rid: Rid): Subject { NO_SUBJECT.(entity := rid.entity, recordId := rid.id) }

  function TransitionEntry(s: State, actor: Actor, rid: Rid, tr: Transition, from: string, basis: Option<Basis>,
                           key: Key, now: int): Entry
  {
    Entry(actor, RecordSubject(rid), RecordAction(tr.action, from, tr.to, tr.when), basis, s.view.defVersion, key, now)
  }

  /** applyTransition: on a repeated key the record still moves, stamped with the earlier entry's time. */
  function CommitTransition(env: Env, s: State, actor: Actor, rid: Rid, tr: Transition, from: string,
                            basis: Option<Basis>, key: Key, now: int): State
  {
    var e := TransitionEntry(s, actor, rid, tr, from, basis, key, now);
    var prior := Prior(s.log, key);
    if prior.None? then Commit(env, s, e) else Shadow(env, s, e.(ts := prior.value.ts))
  }

  datatype TaskSpec = TaskSpec(kind: TaskKind, role: string, entity: string, recordId: string, action: string,
                               args: string)

  function TaskEntry(s: State, id: string, t: TaskSpec, basis: Basis, key: Key, now: int): Entry {
    Entry(WORKFLOW_ENGINE, NO_SUBJECT.(taskId := id, entity := t.entity, recordId := t.recordId),
          TaskCreated(t.kind, t.role, t.entity, t.recordId, t.action, t.args), Some(basis), s.view.defVersion, key, now)
  }

  /** createTask: a repeated key yields the task created under it, and a known task is left alone. */
  function CommitTask(env: Env, s: State, t: TaskSpec, basis: Basis, key: Key, now: int): State {
    var prior := Prior(s.log, key);
    var id := if prior.None? then env.ids(|s.log|) else prior.value.subject.taskId;
    var e := TaskEntry(s, id, t, basis, key, now);
    State(if id in s.view.tasks then s.view else Apply(env.compile, s.view, e),
          if prior.None? then s.log + [e] else s.log)
  }

  // ---- auto transitions and workflow tasks -------------------------------------------

  const MAX_HOPS: nat := 10

  predicate AutoEnabled(env: Env, v: View, rid: Rid, tr: Transition, current: string, now: int) {
    tr.auto && Leaves(tr, current) && tr.to != current && GuardHolds(env, v, tr.when, rid, NOBODY, now)
  }

  /** The first auto transition whose guard holds. */
  function NextAuto(env: Env, v: View, rid: Rid, transitions: seq<Transition>, now: int): (r: Option<Transition>)
    ensures r.Some? ==> r.value in transitions && AutoEnabled(env, v, rid, r.value, StateOf(v, rid), now)
    ensures r.None? ==> forall tr <- transitions :: !AutoEnabled(env, v, rid, tr, StateOf(v, rid), now)
    decreases |transitions|
  {
    if transitions == [] then None
    else if AutoEnabled(env, v, rid, transitions[0], StateOf(v, rid), now) then Some(transitions[0])
    else NextAuto(env, v, rid, transitions[1..], now)
  }

  function AutoBasis(tr: Transition): Basis {
    Basis("rule", "auto:" + tr.from + "->" + tr.to)
  }

  function AutoHop(env: Env, s: State, rid: Rid, tr: Transition, now: int): State {
    CommitTransition(env, s, WORKFLOW_ENGINE, rid, tr, StateOf(s.view, rid), Some(AutoBasis(tr)), NoKey, now)
  }

  /** Fires enabled auto transitions one after another, at most `hops` times. */
  function AutoRun(env: Env, s: State, rid: Rid, transitions: seq<Transition>, now: int, hops: nat): State
    decreases hops
  {
    if hops == 0 then s
    else
      var tr := NextAuto(env, s.view, rid, transitions, now);
      if tr.None? then s else AutoRun(env, AutoHop(env, s, rid, tr.value, now), rid, transitions, now, hops - 1)
  }

  predicate NeedsTask(tr: Transition, current: string) {
    tr.assigneeRole != "" && !tr.auto && Leaves(tr, current)
  }

  const ASSIGNEE_BASIS := Basis("rule", "workflow-assignee")

  function WorkflowTaskSpec(rid: Rid, tr: Transition): TaskSpec {
    TaskSpec(WorkflowTask, tr.assigneeRole, rid.entity, rid.id, tr.action, "")
  }

  /** Queues work for the assignees of the transitions out of a state, once per state entry. */
  function EnsureTasks(env: Env, s: State, rid: Rid, transitions: seq<Transition>, current: string, since: int,
                       now: int): State
    decreases |transitions|
  {
    if transitions == [] then s
    else
      var tr := transitions[0];
      var next :=
        if NeedsTask(tr, current)
        then CommitTask(env, s, WorkflowTaskSpec(rid, tr), ASSIGNEE_BASIS,
          StateKey(rid.entity, rid.id, tr.action, since), now)
        else s;
      EnsureTasks(env, next, rid, transitions[1..], current, since, now)
  }

  function SinceOf(v: View, rid: Rid): int {
    if rid in v.since then v.since[rid] else 0
  }

  /** runAutoTransitions: let the record settle, then queue the work its state calls for. */
  function Settle(env: Env, s: State, rid: Rid, now: int): State {
    if rid.entity !in s.view.model.workflows || rid !in s.view.records then s
    else
      var transitions := s.view.model.workflows[rid.entity].transitions;
      var t := AutoRun(env, s, rid, transitions, now, MAX_HOPS);
      EnsureTasks(env, t, rid, transitions, StateOf(t.view, rid), SinceOf(t.view, rid), now)
  }

  // ---- rules --------------------------------------------------------------------------

  function RuleBasis(rule: Rule): Basis {
    Basis("rule", rule.id.file + ":" + Serial.PrintInt(rule.id.line, 0))
  }

  /** The task an action asks for; unknown action kinds ask for none. */
  function ActionTask(a: Action, entity: string, id: string): Option<TaskSpec> {
    match a.kind
    case "agent" => Some(TaskSpec(AgentTask, a.role, entity, id, a.task, a.args))
    case "escalate" => Some(TaskSpec(Escalation, a.role, entity, id, "escalation", ""))
    case "notify" => Some(TaskSpec(Notification, "", entity, id, "", a.args))
    case "webhook" => Some(TaskSpec(Webhook, "", entity, id, "", a.args))
    case _ => None
  }

  /** What a rule's firing is deduplicated by. */
  datatype Firing = Unkeyed | Daily(day: int) | PerStateEntry(since: int)

  function FiringKey(rule: Rule, id: string, firing: Firing, index: nat): Key {
    match firing
    case Unkeyed => NoKey
    case Daily(day) => ScheduleKey(rule.id, id, day, index)
    case PerStateEntry(since) => StuckKey(rule.id, id, since, index)
  }

  /** fireActions, from the given action on. */
  function Fire(env: Env, s: State, rule: Rule, entity: string, id: string, firing: Firing, index: nat, now: int): State
    requires index <= |rule.actions|
    decreases |rule.actions| - index
  {
    if index == |rule.actions| then s
    else
      var t := ActionTask(rule.actions[index], entity, id);
      var next := if t.Some? then CommitTask(env, s, t.value, RuleBasis(rule), FiringKey(rule, id, firing, index), now)
        else s;
      Fire(env, next, rule, entity, id, firing, index + 1, now)
  }

  /** runEventTriggers: the create or update rules of the record's entity, in declaration order. */
  function Triggers(env: Env, s: State, trigger: string, rid: Rid, rules: seq<Rule>, now: int): State
    decreases |rules|
  {
    if rules == [] then s
    else
      var rule := rules[0];
      var next :=
        if rule.trigger == trigger && rule.entity == rid.entity && rid in s.view.records
           && GuardHolds(env, s.view, rule.when, rid, NOBODY, now)
        then Fire(env, s, rule, rid.entity, rid.id, Unkeyed, 0, now)
        else s;
      Triggers(env, next, trigger, rid, rules[1..], now)
  }

  /** What follows every write to a record. */
  function After(env: Env, s: State, trigger: string, rid: Rid, now: int): State {
    var t := Settle(env, s, rid, now);
    Triggers(env, t, trigger, rid, t.view.model.automations, now)
  }

  // ---- records ------------------------------------------------------------------------

  function CreatedEntry(s: State, actor: Actor, rid: Rid, values: Fields, basis: Option<Basis>, key: Key,
                        now: int): Entry
  {
    Entry(actor, RecordSubject(rid), RecordCreated(values), basis, s.view.defVersion, key, now)
  }

  /** The projection and journal after the creation entry: a known record is left alone. */
  function CommitCreation(env: Env, s: State, e: Entry): State {
    var prior := Prior(s.log, e.key);
    var stored := if prior.None? then e
                  else e.(subject := e.subject.(recordId := prior.value.subject.recordId), ts := prior.value.ts);
    State(if RidOf(stored.subject) in s.view.records then s.view else Apply(env.compile, s.view, stored),
          if prior.None? then s.log + [e] else s.log)
  }

  function Create(env: Env, s: State, actor: Actor, entity: string, values: Fields, basis: Option<Basis>, key: Key,
                  now: int): Outcome
  {
    var prior := Prior(s.log, key);
    if basis.None? then Refuse(s, BasisRequired)
    else if prior.Some? && RidOf(prior.value.subject) in s.view.records then Done(s)
    else
      var checked := CreateCheck(env, s.view, actor, entity, values, now);
      if checked.Failure? then Refuse(s, checked.error)
      else if actor.id == "" then Refuse(s, EmptyActor)
      else
        var rid := Rid(entity, if prior.None? then env.ids(|s.log|) else prior.value.subject.recordId);
        var t := CommitCreation(env, s,
          CreatedEntry(s, actor, Rid(entity, env.ids(|s.log|)), checked.value, basis, key, now));
        Done(if rid in s.view.records then t else After(env, t, "create", rid, now))
  }

  function UpdatedEntry(s: State, actor: Actor, rid: Rid, changes: map<string, Change>, basis: Option<Basis>, key: Key,
                        now: int): Entry
  {
    Entry(actor, RecordSubject(rid), RecordUpdated(changes), basis, s.view.defVersion, key, now)
  }

  function Update(env: Env, s: State, actor: Actor, rid: Rid, values: Fields, basis: Option<Basis>, key: Key,
                  now: int): Outcome
  {
    if basis.None? then Refuse(s, BasisRequired)
    else
      var checked := UpdateCheck(env, s.view, actor, rid, values, now);
      if checked.Failure? then Refuse(s, checked.error)
      else if checked.value == map[] then Done(s)
      else if actor.id == "" then Refuse(s, EmptyActor)
      else
        var e := UpdatedEntry(s, actor, rid, checked.value, basis, key, now);
        var t := if Prior(s.log, key).None? then Commit(env, s, e) else Shadow(env, s, e);
        Done(After(env, t, "update", rid, now))
  }

  // ---- workflow -----------------------------------------------------------------------

  function RequestEntry(s: State, id: string, actor: Actor, rid: Rid, tr: Transition, from: string,
                        basis: Option<Basis>, key: Key, now: int): Entry
  {
    Entry(actor, NO_SUBJECT.(approvalId := id),
          ApprovalRequested(rid.entity, rid.id, tr.action, from, tr.to, tr.approvalRole), basis, s.view.defVersion, key,
            now)
  }

  /** The transition an action would take, or why it may not. */
  function ActCheck(env: Env, v: View, actor: Actor, rid: Rid, action: string, now: int): Result<Transition, Error> {
    if rid.entity !in v.model.entities then Failure(NotFound)
    else if rid.entity !in v.model.workflows then Failure(ValidationError)
    else if rid !in v.records then Failure(NotFound)
    else if !CanNamed(v.model.perms, actor.role, "act", action) then Failure(PermissionDenied)
    else
      var tr := FindTransition(v.model.workflows[rid.entity].transitions, action, StateOf(v, rid));
      if tr.None? then Failure(ValidationError)
      else if !GuardHolds(env, v, tr.value.when, rid, actor, now) then Failure(GuardFailed)
      else Success(tr.value)
  }

  function Act(env: Env, s: State, actor: Actor, rid: Rid, action: string, basis: Option<Basis>, key: Key,
               now: int): Outcome
  {
    if basis.None? then Refuse(s, BasisRequired)
    else
      var checked := ActCheck(env, s.view, actor, rid, action, now);
      if checked.Failure? then Refuse(s, checked.error)
      else if actor.id == "" then Refuse(s, EmptyActor)
      else
        var tr, from := checked.value, StateOf(s.view, rid);
        if tr.approvalRole != "" then
          var e := RequestEntry(s, env.ids(|s.log|), actor, rid, tr, from, basis, key, now);
          Done(if Prior(s.log, key).None? then Commit(env, s, e) else Shadow(env, s, e))
        else
          Done(Settle(env, CommitTransition(env, s, actor, rid, tr, from, basis, key, now), rid, now))
  }

  function SignatureOk(env: Env, actorId: string, message: string, signature: Option<Bytes>): bool {
    if signature.Some? && env.verify.Some? then env.verify.value(actorId, message, signature.value)
    else !env.requireSignatures
  }

  function ApprovalMessage(id: string, grant: bool): string {
    "kalita-approval-v1|" + id + "|" + (if grant then "granted" else "rejected")
  }

  function DecisionEntry(s: State, actor: Actor, id: string, a: Approval, grant: bool, basis: Option<Basis>,
                         now: int): Entry
  {
    Entry(actor, NO_SUBJECT.(approvalId := id),
          if grant then ApprovalGranted(a.entity, a.recordId, a.action, a.from, a.to, a.role)
          else ApprovalRejected(a.entity, a.recordId, a.action, a.from, a.to, a.role),
          basis, s.view.defVersion, NoKey, now)
  }

  function ApprovedTransition(a: Approval): Transition {
    Transition(a.from, a.to, a.action, false, "", "", "")
  }

  /** Moves the record a granted approval is about, if it is still where the request found it. */
  function MoveApproved(env: Env, s: State, actor: Actor, id: string, a: Approval, now: int): Outcome {
    var rid := Rid(a.entity, a.recordId);
    if rid !in s.view.records then Refuse(s, NotFound)
    else if rid.entity !in s.view.model.workflows then Refuse(s, Panicked)
    else if StateOf(s.view, rid) != a.from then Refuse(s, Conflict)
    else
      Done(Settle(env, CommitTransition(env, s, actor, rid, ApprovedTransition(a), a.from, Some(Basis("approval", id)),
        NoKey, now), rid, now))
  }

  function DecideCheck(env: Env, v: View, actor: Actor, id: string, grant: bool,
                       signature: Option<Bytes>): Option<Error>
  {
    if id !in v.approvals then Some(NotFound)
    else if v.approvals[id].status != Pending then Some(Conflict)
    else if !CanNamed(v.model.perms, actor.role, "approve", v.approvals[id].action) then Some(PermissionDenied)
    else if !SignatureOk(env, actor.id, ApprovalMessage(id, grant), signature) then Some(PermissionDenied)
    else None
  }

  function Decide(env: Env, s: State, actor: Actor, id: string, grant: bool, signature: Option<Bytes>,
                  basis: Option<Basis>, now: int): Outcome
  {
    if basis.None? then Refuse(s, BasisRequired)
    else
      var refused := DecideCheck(env, s.view, actor, id, grant, signature);
      if refused.Some? then Refuse(s, refused.value)
      else if actor.id == "" then Refuse(s, EmptyActor)
      else
        var a := s.view.approvals[id];
        var t := Commit(env, s, DecisionEntry(s, actor, id, a, grant, basis, now));
        if grant then MoveApproved(env, t, actor, id, a, now) else Done(t)
  }

  // ---- tasks --------------------------------------------------------------------------

  function TaskEvent(s: State, actor: Actor, id: string, body: Body, basis: Basis, now: int): Entry {
    Entry(actor, NO_SUBJECT.(taskId := id), body, Some(basis), s.view.defVersion, NoKey, now)
  }

  predicate LeaseOver(t: Task, now: int) {
    t.status == Taken && now >= t.leaseUntil
  }

  /** expireIfDue */
  function Expire(env: Env, s: State, id: string, now: int): State {
    if id in s.view.tasks && LeaseOver(s.view.tasks[id], now)
    then Commit(env, s, TaskEvent(s, WORKFLOW_ENGINE, id, TaskExpired, Basis("rule", "lease-ttl"), now))
    else s
  }

  function TakeTask(env: Env, s: State, actor: Actor, id: string, now: int): Outcome {
    if id !in s.view.tasks then Refuse(s, NotFound)
    else
      var t := Expire(env, s, id, now);
      var task := t.view.tasks[id];
      if task.status != Open then Refuse(t, Conflict)
      else if task.role != actor.role then Refuse(t, PermissionDenied)
      else if actor.id == "" then Refuse(t, EmptyActor)
      else Done(Commit(env, t, TaskEvent(t, actor, id, TaskTaken(now + env.taskTTL), Basis("task", id), now)))
  }

  /** Events by the actor on the task's record, over the whole journal. */
  function FactsBy(log: seq<Entry>, actorId: string, entity: string, recordId: string): nat {
    if log == [] then 0
    else
      var e := log[|log| - 1];
      FactsBy(log[..|log| - 1], actorId, entity, recordId) +
      if e.actor.id == actorId && e.subject.entity == entity && e.subject.recordId == recordId
         && (e.body.RecordCreated? || e.body.RecordUpdated? || e.body.RecordAction?)
      then 1 else 0
  }

  function ReportProgress(env: Env, s: State, actor: Actor, id: string, note: string, now: int): Outcome {
    if id !in s.view.tasks || s.view.tasks[id].takenBy != actor.id
      || s.view.tasks[id].status != Taken then Refuse(s, Conflict)
    else if actor.id == "" then Refuse(s, EmptyActor)
    else
      var task := s.view.tasks[id];
      var body := TaskProgress(note, FactsBy(s.log, actor.id, task.entity, task.recordId));
      Done(Commit(env, s, TaskEvent(s, actor, id, body, Basis("task", id), now)))
  }

  function FinishTask(env: Env, s: State, actor: Actor, id: string, success: bool, text: string, now: int): Outcome {
    if id !in s.view.tasks then Refuse(s, NotFound)
    else
      var t := Expire(env, s, id, now);
      var task := t.view.tasks[id];
      if task.status != Taken || task.takenBy != actor.id then Refuse(t, Conflict)
      else if actor.id == "" then Refuse(t, EmptyActor)
      else
        Done(Commit(env, t, TaskEvent(t, actor, id, if success then TaskCompleted(text) else TaskFailed(text),
          Basis("task", id), now)))
  }

  // ---- the clock tick -----------------------------------------------------------------

  const DAY: int := 86400

  predicate ScheduleDue(env: Env, v: View, rule: Rule, id: string, now: int) {
    Rid(rule.entity, id) in v.records && GuardHolds(env, v, rule.when, Rid(rule.entity, id), NOBODY, now)
  }

  /** One schedule rule over the records of its entity, in id order. */
  function Schedule(env: Env, s: State, rule: Rule, ids: seq<string>, now: int): State
    decreases |ids|
  {
    if ids == [] then s
    else
      var next :=
        if ScheduleDue(env, s.view, rule, ids[0], now)
        then Fire(env, s, rule, rule.entity, ids[0], Daily(now / DAY), 0, now)
        else s;
      Schedule(env, next, rule, ids[1..], now)
  }

  predicate StuckDue(v: View, rule: Rule, id: string, duration: int, now: int) {
    var rid := Rid(rule.entity, id);
    rid in v.records && StateOf(v, rid) == rule.stuckState && rid in v.since && now - v.since[rid] >= duration
  }

  function Stuck(env: Env, s: State, rule: Rule, duration: int, ids: seq<string>, now: int): State
    decreases |ids|
  {
    if ids == [] then s
    else
      var next :=
        if StuckDue(s.view, rule, ids[0], duration, now)
        then Fire(env, s, rule, rule.entity, ids[0], PerStateEntry(SinceOf(s.view, Rid(rule.entity, ids[0]))), 0, now)
        else s;
      Stuck(env, next, rule, duration, ids[1..], now)
  }

  /** Seconds in 10d / 48h / 30m; None for anything else. */
  function ParseDuration(s: string): Option<int> {
    if s == "" then None
    else
      var digits, unit := s[..|s| - 1], s[|s| - 1];
      if digits == "" || !Serial.AllDigits(digits) then None
      else if unit == 'd' then Some(Serial.Number(digits) * 86400)
      else if unit == 'h' then Some(Serial.Number(digits) * 3600)
      else if unit == 'm' then Some(Serial.Number(digits) * 60)
      else None
  }

  function RunRule(env: Env, s: State, rule: Rule, now: int): State {
    var ids := SortedIds(IdsOf(s.view.records, rule.entity));
    match rule.trigger
    case "schedule" =>
      if rule.entity == "" then Fire(env, s, rule, "", "", Daily(now / DAY), 0, now)
      else Schedule(env, s, rule, ids, now)
    case "stuck" =>
      var d := ParseDuration(rule.stuckFor);
      if d.None? || rule.entity !in s.view.model.workflows then s else Stuck(env, s, rule, d.value, ids, now)
    case _ => s
  }

  function RunRules(env: Env, s: State, rules: seq<Rule>, now: int): State
    decreases |rules|
  {
    if rules == [] then s else RunRules(env, RunRule(env, s, rules[0], now), rules[1..], now)
  }

  function ExpireAll(env: Env, s: State, ids: seq<string>, now: int): State
    decreases |ids|
  {
    if ids == [] then s else ExpireAll(env, Expire(env, s, ids[0], now), ids[1..], now)
  }

  function Tick(env: Env, s: State, now: int): State {
    var t := RunRules(env, s, s.view.model.automations, now);
    ExpireAll(env, t, SortedIds(t.view.tasks.Keys), now)
  }

  // ---- the definition pipeline ----------------------------------------------------------

  predicate SameType(old_: FieldType, next: FieldType) {
    match old_
    case Scalar(s) => next.Scalar? && next.scalar == s
    case Enum(values) => next.Enum? && values <= next.values
    case Ref(t) => next.Ref? && next.target == t
    case ArrayRef(t) => next.ArrayRef? && next.targets == t
    case Tags => next.Tags?
    case MultiEnum(_) => next.MultiEnum?
    case ArrayFile => next.ArrayFile?
  }

  /** validateAdditive: nothing disappears or changes type, enum values are only appended. */
  predicate Additive(old_: Model, next: Model) {
    forall name :: name in old_.entities ==>
      && name in next.entities
      && forall f <- old_.entities[name].fields ::
           var g := FindField(next.entities[name].fields, f.name);
           g.Some? && SameType(f.ty, g.value.ty)
  }

  function ProposeCheck(env: Env, v: View, files: map<string, string>, base: nat): Option<Error> {
    if base != v.defVersion then Some(StaleBase)
    else
      var next := env.compile(files);
      if next.None? || !Additive(v.model, next.value) then Some(ValidationError) else None
  }

  function ProposedEntry(s: State, actor: Actor, id: string, files: map<string, string>, base: nat, description: string,
                         basis: Option<Basis>, now: int): Entry
  {
    Entry(actor, NO_SUBJECT.(proposalId := id), DefinitionProposed(description, base, files), basis, s.view.defVersion,
      NoKey, now)
  }

  function ProposeChange(env: Env, s: State, actor: Actor, files: map<string, string>, base: nat, description: string,
                         basis: Option<Basis>, now: int): Outcome
  {
    if basis.None? then Refuse(s, BasisRequired)
    else
      var refused := ProposeCheck(env, s.view, files, base);
      if refused.Some? then Refuse(s, refused.value)
      else if actor.id == "" then Refuse(s, EmptyActor)
      else Done(Commit(env, s, ProposedEntry(s, actor, env.ids(|s.log|), files, base, description, basis, now)))
  }

  function DefinitionMessage(id: string, grant: bool): string {
    "kalita-definition-v1|" + id + "|" + (if grant then "granted" else "rejected")
  }

  function ProposalCheck(env: Env, v: View, actor: Actor, id: string, grant: bool,
                         signature: Option<Bytes>): Option<Error>
  {
    if id !in v.proposals then Some(NotFound)
    else if v.proposals[id].status != Parked then Some(Conflict)
    else if !actor.kind.Human? || actor.role != env.approver then Some(PermissionDenied)
    else if v.proposals[id].base != v.defVersion then Some(StaleBase)
    else if !SignatureOk(env, actor.id, DefinitionMessage(id, grant), signature) then Some(PermissionDenied)
    else None
  }

  function ProposalEntry(s: State, actor: Actor, id: string, body: Body, basis: Option<Basis>, now: int): Entry {
    Entry(actor, NO_SUBJECT.(proposalId := id), body, basis, s.view.defVersion, NoKey, now)
  }

  /** The live swap: the new model runs, whatever replay would make of the applied event. */
  function Swap(v: View, next: Model, id: string): View {
    v.(model := next, defVersion := v.defVersion + 1, proposals := SetProposal(v.proposals, id, Applied))
  }

  function DecideProposal(env: Env, s: State, actor: Actor, id: string, grant: bool, signature: Option<Bytes>,
                          basis: Option<Basis>, now: int): Outcome
  {
    if basis.None? then Refuse(s, BasisRequired)
    else
      var refused := ProposalCheck(env, s.view, actor, id, grant, signature);
      if refused.Some? then Refuse(s, refused.value)
      else if actor.id == "" then Refuse(s, EmptyActor)
      else if !grant then Done(Commit(env, s, ProposalEntry(s, actor, id, DefinitionRejected(id), basis, now)))
      else
        var t := Commit(env, s, ProposalEntry(s, actor, id, DefinitionApproved(id), basis, now));
        var next := env.compile(s.view.proposals[id].files);
        if next.None? then Refuse(t, ValidationError)
        else
          var e := ProposalEntry(t, actor, id, DefinitionApplied(id), Some(Basis("approval", id)), now);
          Done(State(Swap(t.view, next.value, id), t.log + [e]))
  }

  /** The prototype path: swaps the model in directly and journals no sources. */
  function ApplyAdditive(s: State, actor: Actor, next: Model, basis: Option<Basis>, now: int): Outcome {
    if !Additive(s.view.model, next) then Refuse(s, ValidationError)
    else if actor.id == "" then Refuse(s, EmptyActor)
    else
      var e := ProposalEntry(s, actor, "", DefinitionApplied(""), basis, now);
      Done(State(s.view.(model := next, defVersion := s.view.defVersion + 1), s.log + [e]))
  }

  // ---- links --------------------------------------------------------------------------

  function LinkEntry(s: State, actor: Actor, rid: Rid, body: Body, basis: Option<Basis>, now: int): Entry {
    Entry(actor, RecordSubject(rid), body, basis, s.view.defVersion, NoKey, now)
  }

  /** The canonical fact behind a named link between two records, or why it may not be touched. */
  function LinkCheck(env: Env, v: View, actor: Actor, rid: Rid, name: string, other: string,
                     now: int): Result<(LinkDecl, LinkFact), Error>
  {
    var found := LinkByName(v.model.links, rid.entity, name);
    if found.None? then Failure(ValidationError)
    else if !Can(env, v, actor, "update", rid.entity, "", None, now) then Failure(PermissionDenied)
    else
      var (decl, forward) := found.value;
      Success((decl, if forward then LinkFact(decl.forward, rid.id, other) else LinkFact(decl.forward, other, rid.id)))
  }

  function Link(env: Env, s: State, actor: Actor, rid: Rid, name: string, other: string, basis: Option<Basis>,
                now: int): Outcome
  {
    if basis.None? then Refuse(s, BasisRequired)
    else
      var checked := LinkCheck(env, s.view, actor, rid, name, other, now);
      if checked.Failure? then Refuse(s, checked.error)
      else
        var (decl, fact) := checked.value;
        if Rid(decl.from, fact.from) !in s.view.records
          || Rid(decl.to, fact.to) !in s.view.records then Refuse(s, NotFound)
        else if LinkKey(fact) in s.view.links then Done(s)
        else if actor.id == "" then Refuse(s, EmptyActor)
        else Done(Commit(env, s, LinkEntry(s, actor, rid, LinkAdded(fact), basis, now)))
  }

  function Unlink(env: Env, s: State, actor: Actor, rid: Rid, name: string, other: string, basis: Option<Basis>,
                  now: int): Outcome
  {
    if basis.None? then Refuse(s, BasisRequired)
    else
      var checked := LinkCheck(env, s.view, actor, rid, name, other, now);
      if checked.Failure? then Refuse(s, checked.error)
      else
        var (_, fact) := checked.value;
        if LinkKey(fact) !in s.view.links then Refuse(s, NotFound)
        else if actor.id == "" then Refuse(s, EmptyActor)
        else Done(Commit(env, s, LinkEntry(s, actor, rid, LinkRemoved(fact), basis, now)))
  }

  // ---- calls --------------------------------------------------------------------------

  /** The key a client passes; the empty string is no key. */
  function KeyOf(key: string): Key {
    if key == "" then NoKey else Client(key)
  }

  datatype Call =
    | CreateCall(actor: Actor, entity: string, values: Fields, basis: Option<Basis>, key: string)
    | UpdateCall(actor: Actor, rid: Rid, values: Fields, basis: Option<Basis>, key: string)
    | ActCall(actor: Actor, rid: Rid, action: string, basis: Option<Basis>, key: string)
    | DecideCall(actor: Actor, id: string, grant: bool, signature: Option<Bytes>, basis: Option<Basis>)
    | TakeCall(actor: Actor, id: string)
    | ProgressCall(actor: Actor, id: string, note: string)
    | FinishCall(actor: Actor, id: string, success: bool, text: string)
    | TickCall
    | ProposeCall(actor: Actor, files: map<string, string>, base: nat, description: string, basis: Option<Basis>)
    | DecideProposalCall(actor: Actor, id: string, grant: bool, signature: Option<Bytes>, basis: Option<Basis>)
    | ApplyAdditiveCall(actor: Actor, next: Model, basis: Option<Basis>)
    | LinkCall(actor: Actor, rid: Rid, name: string, other: string, basis: Option<Basis>)
    | UnlinkCall(actor: Actor, rid: Rid, name: string, other: string, basis: Option<Basis>)

  /** One call, made at one instant. */
  function Step(env: Env, s: State, call: Call, now: int): Outcome {
    match call
    case CreateCall(actor, entity, values, basis, key) => Create(env, s, actor, entity, values, basis, KeyOf(key), now)
    case UpdateCall(actor, rid, values, basis, key) => Update(env, s, actor, rid, values, basis, KeyOf(key), now)
    case ActCall(actor, rid, action, basis, key) => Act(env, s, actor, rid, action, basis, KeyOf(key), now)
    case DecideCall(actor, id, grant, signature, basis) => Decide(env, s, actor, id, grant, signature, basis, now)
    case TakeCall(actor, id) => TakeTask(env, s, actor, id, now)
    case ProgressCall(actor, id, note) => ReportProgress(env, s, actor, id, note, now)
    case FinishCall(actor, id, success, text) => FinishTask(env, s, actor, id, success, text, now)
    case TickCall => Done(Tick(env, s, now))
    case ProposeCall(actor, files, base, description, basis) =>
      ProposeChange(env, s, actor, files, base, description, basis, now)
    case DecideProposalCall(actor, id, grant, signature, basis) =>
      DecideProposal(env, s, actor, id, grant, signature, basis, now)
    case ApplyAdditiveCall(actor, next, basis) => ApplyAdditive(s, actor, next, basis, now)
    case LinkCall(actor, rid, name, other, basis) => Link(env, s, actor, rid, name, other, basis, now)
    case UnlinkCall(actor, rid, name, other, basis) => Unlink(env, s, actor, rid, name, other, basis, now)
  }

  datatype TimedCall = TimedCall(call: Call, now: int)

  /** The state after a run of calls; refused calls are part of a run too. */
  function Run(env: Env, s: State, calls: seq<TimedCall>): State
    decreases |calls|
  {
    if calls == [] then s
    else
      var before := Run(env, s, calls[..|calls| - 1]);
      Step(env, before, calls[|calls| - 1].call, calls[|calls| - 1].now).state
  }

  function Start(model: Model): State {
    State(Genesis(model), [])
  }
}
