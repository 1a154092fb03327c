/** Which entry may follow which state. */
module Protocol {
  // Every operation is a run of such commits, so a property that every commit keeps is kept by every
  // operation and every run.

  import opened Values
  import opened Model
  import opened Journal
  import opened Projection
  import opened Environment
  import opened Permissions
  import opened Records
  import opened Steps

  predicate EngineKey(key: Key) {
    key.ScheduleKey? || key.StuckKey? || key.StateKey?
  }

  // ---- what each kind of entry requires of the state before it ---------------------

  ghost predicate CreationLegal(env: Env, s: State, e: Entry, values: Fields) {
    && !EngineKey(e.key)
    && e.subject == RecordSubject(Rid(e.subject.entity, env.ids(|s.log|)))
    && exists given :: CreateCheck(env, s.view, e.actor, e.subject.entity, given, e.ts) == Success(values)
  }

  ghost predicate UpdateLegal(env: Env, s: State, e: Entry, changes: map<string, Change>) {
    && !EngineKey(e.key)
    && e.subject == RecordSubject(RidOf(e.subject))
    && exists given :: UpdateCheck(env, s.view, e.actor, RidOf(e.subject), given, e.ts) == Success(changes)
  }

  /** A named transition that needs no approval, taken by an actor allowed to act it. */
  ghost predicate NamedLegal(env: Env, s: State, e: Entry) {
    var b := e.body;
    && b.RecordAction? && !EngineKey(e.key)
    && exists tr :: && ActCheck(env, s.view, e.actor, RidOf(e.subject), b.action, e.ts) == Success(tr)
                    && tr.approvalRole == "" && b.to == tr.to && b.guard == tr.when
  }

  /** The move a grant makes, directly after the grant itself. */
  ghost predicate ApprovedLegal(s: State, e: Entry) {
    var b := e.body;
    && b.RecordAction? && e.key == NoKey && e.basis.Some? && e.basis.value.kind == "approval"
    && var id := e.basis.value.id;
       && id in s.view.approvals && s.view.approvals[id].status == Granted
       && MatchesApproval(b, RidOf(e.subject), s.view.approvals[id])
       && s.log != [] && s.log[|s.log| - 1].body.ApprovalGranted? && s.log[|s.log| - 1].subject.approvalId == id
  }

  predicate MatchesApproval(b: Body, rid: Rid, a: Approval) {
    b.RecordAction? && rid == Rid(a.entity, a.recordId) && b.action == a.action && b.from == a.from && b.to == a.to
  }

  ghost predicate AutoLegal(env: Env, s: State, e: Entry) {
    var b := e.body;
    && b.RecordAction? && e.key == NoKey && e.actor == WORKFLOW_ENGINE
    && RidOf(e.subject).entity in s.view.model.workflows
    && exists tr :: && tr in s.view.model.workflows[RidOf(e.subject).entity].transitions
                    && AutoEnabled(env, s.view, RidOf(e.subject), tr, b.from, e.ts)
                    && b.action == tr.action && b.to == tr.to && b.guard == tr.when && e.basis == Some(AutoBasis(tr))
  }

  ghost predicate ActionLegal(env: Env, s: State, e: Entry) {
    var rid := RidOf(e.subject);
    && e.body.RecordAction? && e.subject == RecordSubject(rid)
    && rid in s.view.records && rid.entity in s.view.model.workflows
    && e.body.from == StateOf(s.view, rid)
    && (NamedLegal(env, s, e) || ApprovedLegal(s, e) || AutoLegal(env, s, e))
  }

  ghost predicate RequestLegal(env: Env, s: State, e: Entry) {
    var b := e.body;
    && b.ApprovalRequested? && !EngineKey(e.key)
    && e.subject == NO_SUBJECT.(approvalId := env.ids(|s.log|))
    && exists tr :: && ActCheck(env, s.view, e.actor, Rid(b.entity, b.recordId), b.action, e.ts) == Success(tr)
                    && tr.approvalRole != "" && b.role == tr.approvalRole && b.to == tr.to
                    && b.from == StateOf(s.view, Rid(b.entity, b.recordId))
  }

  predicate DecidesOn(b: Body, a: Approval) {
    match b
    case ApprovalGranted(entity, recordId, action, from, to, role) =>
      entity == a.entity && recordId == a.recordId && action == a.action && from == a.from && to == a.to
        && role == a.role
    case ApprovalRejected(entity, recordId, action, from, to, role) =>
      entity == a.entity && recordId == a.recordId && action == a.action && from == a.from && to == a.to
        && role == a.role
    case _ => false
  }

  ghost predicate DecisionLegal(s: State, e: Entry) {
    var id := e.subject.approvalId;
    && e.key == NoKey && e.subject == NO_SUBJECT.(approvalId := id)
    && id in s.view.approvals && s.view.approvals[id].status == Pending
    && DecidesOn(e.body, s.view.approvals[id])
    && CanNamed(s.view.model.perms, e.actor.role, "approve", s.view.approvals[id].action)
  }

  /** What lets a rule fire for a record: a create or update trigger, or a condition that holds now. */
  ghost predicate MayFire(env: Env, v: View, rule: Rule, entity: string, id: string, firing: Firing, now: int) {
    match firing
    case Unkeyed =>
      && rule in v.model.automations && (rule.trigger == "create" || rule.trigger == "update") && entity == rule.entity
      && Rid(entity, id) in v.records && GuardHolds(env, v, rule.when, Rid(entity, id), NOBODY, now)
    case Daily(day) =>
      && rule in v.model.automations && rule.trigger == "schedule" && entity == rule.entity && day == now / DAY
      && (if rule.entity == "" then id == ""
          else Rid(entity, id) in v.records && GuardHolds(env, v, rule.when, Rid(entity, id), NOBODY, now))
    case PerStateEntry(since) =>
      && entity in v.model.workflows
      && rule in v.model.automations && rule.trigger == "stuck" && entity == rule.entity
      && var rid := Rid(entity, id);
         && rid in v.records && StateOf(v, rid) == rule.stuckState
         && rid in v.since && since == v.since[rid]
         && ParseDuration(rule.stuckFor).Some? && now - since >= ParseDuration(rule.stuckFor).value
  }

  /** The task is the one this action of this rule asks for, under this firing's key. */
  ghost predicate FiredBy(env: Env, v: View, e: Entry, rule: Rule, firing: Firing, index: nat) {
    && e.body.TaskCreated? && index < |rule.actions| && e.basis == Some(RuleBasis(rule))
    && MayFire(env, v, rule, e.body.entity, e.body.recordId, firing, e.ts)
    && e.key == FiringKey(rule, e.body.recordId, firing, index)
    && ActionTask(rule.actions[index], e.body.entity, e.body.recordId)
       == Some(TaskSpec(e.body.kind, e.body.role, e.body.entity, e.body.recordId, e.body.action, e.body.args))
  }

  /** The task is work for the assignee of a transition out of the record's state. */
  ghost predicate AssignedBy(v: View, e: Entry, tr: Transition) {
    && e.body.TaskCreated? && e.basis == Some(ASSIGNEE_BASIS)
    && var rid := Rid(e.body.entity, e.body.recordId);
       && rid in v.records && rid.entity in v.model.workflows && tr in v.model.workflows[rid.entity].transitions
       && NeedsTask(tr, StateOf(v, rid))
       && e.key == StateKey(rid.entity, rid.id, tr.action, SinceOf(v, rid))
       && e.body.kind == WorkflowTask && e.body.role == tr.assigneeRole && e.body.action == tr.action
       && e.body.args == ""
  }

  ghost predicate TaskCreationLegal(env: Env, s: State, e: Entry) {
    && e.body.TaskCreated? && e.actor == WORKFLOW_ENGINE
    && e.subject.taskId == env.ids(|s.log|)
    && e.subject.entity == e.body.entity && e.subject.recordId == e.body.recordId
    && ((exists rule, firing, index :: FiredBy(env, s.view, e, rule, firing, index))
      || (exists tr :: AssignedBy(s.view, e, tr)))
  }

  ghost predicate TaskStepLegal(env: Env, s: State, e: Entry) {
    var id := e.subject.taskId;
    && e.key == NoKey && id in s.view.tasks && e.subject == NO_SUBJECT.(taskId := id)
    && e.basis == Some(if e.body.TaskExpired? then Basis("rule", "lease-ttl") else Basis("task", id))
    && var t := s.view.tasks[id];
       match e.body
       case TaskTaken(lease) => t.status == Open && t.role == e.actor.role && lease == e.ts + env.taskTTL
       case TaskProgress(_, facts) =>
         t.status == Taken && t.takenBy == e.actor.id && facts == FactsBy(s.log, e.actor.id, t.entity, t.recordId)
       case TaskCompleted(_) => t.status == Taken && t.takenBy == e.actor.id && e.ts < t.leaseUntil
       case TaskFailed(_) => t.status == Taken && t.takenBy == e.actor.id && e.ts < t.leaseUntil
       case TaskExpired => LeaseOver(t, e.ts) && e.actor == WORKFLOW_ENGINE
       case _ => false
  }

  ghost predicate ProposalLegal(env: Env, s: State, e: Entry) {
    var id := e.subject.proposalId;
    e.key == NoKey && e.subject == NO_SUBJECT.(proposalId := id) &&
    match e.body
    case DefinitionProposed(_, base, files) =>
      id == env.ids(|s.log|) && files != map[] && ProposeCheck(env, s.view, files, base).None?
    case DefinitionApproved(_) => Decidable(env, s.view, e.actor, id)
    case DefinitionRejected(_) => Decidable(env, s.view, e.actor, id)
    case DefinitionApplied(_) =>
      && id in s.view.proposals && s.view.proposals[id].status == Approved
      && s.view.proposals[id].base == s.view.defVersion && e.basis == Some(Basis("approval", id))
      && s.log != [] && s.log[|s.log| - 1].body.DefinitionApproved? && s.log[|s.log| - 1].subject.proposalId == id
    case _ => false
  }

  predicate Decidable(env: Env, v: View, actor: Actor, id: string) {
    && id in v.proposals && v.proposals[id].status == Parked && v.proposals[id].base == v.defVersion
    && actor.kind.Human? && actor.role == env.approver
  }

  /** A link the actor may touch, by a declared name out of the record the entry is about. */
  ghost predicate LinkAllowed(env: Env, s: State, e: Entry, f: LinkFact, name: string, other: string, decl: LinkDecl) {
    && e.subject == RecordSubject(RidOf(e.subject))
    && LinkCheck(env, s.view, e.actor, RidOf(e.subject), name, other, e.ts) == Success((decl, f))
  }

  ghost predicate LinkLegal(env: Env, s: State, e: Entry) {
    e.key == NoKey &&
    match e.body
    case LinkAdded(f) =>
      && LinkKey(f) !in s.view.links
      && exists name, other, decl :: LinkAllowed(env, s, e, f, name, other, decl)
           && Rid(decl.from, f.from) in s.view.records && Rid(decl.to, f.to) in s.view.records
    case LinkRemoved(f) =>
      LinkKey(f) in s.view.links && exists name, other, decl :: LinkAllowed(env, s, e, f, name, other, decl)
    case _ => false
  }

  /** The entry may be committed in this state. */
  ghost predicate Legal(env: Env, s: State, e: Entry) {
    && e.actor.id != "" && e.basis.Some?
    && e.defVersion == s.view.defVersion
    && Prior(s.log, e.key).None?
    && match e.body
       case RecordCreated(values) => CreationLegal(env, s, e, values)
       case RecordUpdated(changes) => UpdateLegal(env, s, e, changes)
       case RecordAction(_, _, _, _) => ActionLegal(env, s, e)
       case ApprovalRequested(_, _, _, _, _, _) => RequestLegal(env, s, e)
       case ApprovalGranted(_, _, _, _, _, _) => DecisionLegal(s, e)
       case ApprovalRejected(_, _, _, _, _, _) => DecisionLegal(s, e)
       case TaskCreated(_, _, _, _, _, _) => TaskCreationLegal(env, s, e)
       case TaskTaken(_) => TaskStepLegal(env, s, e)
       case TaskProgress(_, _) => TaskStepLegal(env, s, e)
       case TaskCompleted(_) => TaskStepLegal(env, s, e)
       case TaskFailed(_) => TaskStepLegal(env, s, e)
       case TaskExpired => TaskStepLegal(env, s, e)
       case DefinitionProposed(_, _, _) => ProposalLegal(env, s, e)
       case DefinitionApproved(_) => ProposalLegal(env, s, e)
       case DefinitionRejected(_) => ProposalLegal(env, s, e)
       case DefinitionApplied(_) => ProposalLegal(env, s, e)
       case LinkAdded(_) => LinkLegal(env, s, e)
       case LinkRemoved(_) => LinkLegal(env, s, e)
       case _ => false
  }

  /** No definition change was applied. */
  predicate FixedDefinition(log: seq<Entry>) {
    forall e <- log :: !e.body.DefinitionApplied?
  }

  // ---- runs of legal commits ---------------------------------------------------------

  ghost predicate LegalRun(env: Env, s: State, es: seq<Entry>)
    decreases |es|
  {
    es != [] ==> Legal(env, s, es[0]) && LegalRun(env, Commit(env, s, es[0]), es[1..])
  }

  function CommitAll(env: Env, s: State, es: seq<Entry>): State
    decreases |es|
  {
    if es == [] then s else CommitAll(env, Commit(env, s, es[0]), es[1..])
  }

  ghost predicate Reaches(env: Env, s: State, t: State) {
    exists es :: LegalRun(env, s, es) && CommitAll(env, s, es) == t
  }

  lemma ReachesSelf(env: Env, s: State)
    ensures Reaches(env, s, s)
  {
    assert LegalRun(env, s, []) && CommitAll(env, s, []) == s;
  }

  lemma ReachesOne(env: Env, s: State, e: Entry)
    requires Legal(env, s, e)
    ensures Reaches(env, s, Commit(env, s, e))
  {
    var t := Commit(env, s, e);
    assert [e][1..] == [];
    assert LegalRun(env, t, []) && CommitAll(env, t, []) == t;
    assert LegalRun(env, s, [e]) && CommitAll(env, s, [e]) == t;
  }

  lemma {:induction false} RunThenRun(env: Env, s: State, es: seq<Entry>, fs: seq<Entry>)
    requires LegalRun(env, s, es) && LegalRun(env, CommitAll(env, s, es), fs)
    ensures LegalRun(env, s, es + fs) && CommitAll(env, s, es + fs) == CommitAll(env, CommitAll(env, s, es), fs)
    decreases |es|
  {
    hide Legal, Commit;
    if es == [] {
      assert es + fs == fs;
    } else {
      RunThenRun(env, Commit(env, s, es[0]), es[1..], fs);
      assert (es + fs)[1..] == es[1..] + fs;
    }
  }

  lemma ReachesTransitive(env: Env, s: State, t: State, u: State)
    requires Reaches(env, s, t) && Reaches(env, t, u)
    ensures Reaches(env, s, u)
  {
    var es :| LegalRun(env, s, es) && CommitAll(env, s, es) == t;
    var fs :| LegalRun(env, t, fs) && CommitAll(env, t, fs) == u;
    RunThenRun(env, s, es, fs);
  }

  lemma {:induction false} CommitAllLog(env: Env, s: State, es: seq<Entry>)
    ensures CommitAll(env, s, es).log == s.log + es
    decreases |es|
  {
    if es != [] {
      CommitAllLog(env, Commit(env, s, es[0]), es[1..]);
      assert s.log + es == (s.log + [es[0]]) + es[1..];
    }
  }
}
