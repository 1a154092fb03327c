/** Every entry of a journal was written by someone the rules of its time entitled. */
module Authority {
  import opened Values
  import opened Model
  import opened Journal
  import opened Projection
  import opened Environment
  import opened Permissions
  import opened Records
  import opened Steps
  import opened Protocol
  import opened Conformance
  import opened Replay
  import opened Rights

  /** The move is the grant's that stands right before it. */
  ghost predicate OnApproval(before: seq<Entry>, e: Entry) {
    && before != [] && before[|before| - 1].body.ApprovalGranted?
    && e.basis == Some(Basis("approval", before[|before| - 1].subject.approvalId))
  }

  /** The engine takes an auto transition out of the state the record is in. */
  ghost predicate ByItself(v: View, e: Entry) {
    && e.actor == WORKFLOW_ENGINE && e.body.RecordAction? && e.subject.entity in v.model.workflows
    && exists tr <- v.model.workflows[e.subject.entity].transitions ::
         tr.auto && tr.action == e.body.action && tr.to == e.body.to && Leaves(tr, e.body.from)
  }

  /** Read off the definition of its time: whoever wrote the entry was entitled to. */
  ghost predicate Authorised(env: Env, v: View, before: seq<Entry>, e: Entry) {
    var rid := Rid(e.subject.entity, e.subject.recordId);
    match e.body
    case RecordCreated(values) =>
      forall field <- values.Keys + {""} :: Entitled(env, v, e.actor, "create", rid.entity, field, None, e.ts)
    case RecordUpdated(changes) =>
      && rid in v.records
      && forall field <- changes.Keys + {""} ::
           Entitled(env, v, e.actor, "update", rid.entity, field, Some(v.records[rid]), e.ts)
    case RecordAction(action, _, _, _) =>
      Licensed(v.model.perms, e.actor.role, "act", action) || OnApproval(before, e) || ByItself(v, e)
    case ApprovalRequested(_, _, action, _, _, _) => Licensed(v.model.perms, e.actor.role, "act", action)
    case ApprovalGranted(_, _, action, _, _, _) => Licensed(v.model.perms, e.actor.role, "approve", action)
    case ApprovalRejected(_, _, action, _, _, _) => Licensed(v.model.perms, e.actor.role, "approve", action)
    case DefinitionApproved(_) => e.actor.kind.Human? && e.actor.role == env.approver
    case DefinitionRejected(_) => e.actor.kind.Human? && e.actor.role == env.approver
    case LinkAdded(_) => Entitled(env, v, e.actor, "update", rid.entity, "", None, e.ts)
    case LinkRemoved(_) => Entitled(env, v, e.actor, "update", rid.entity, "", None, e.ts)
    case TaskCreated(_, _, _, _, _, _) => e.actor == WORKFLOW_ENGINE
    case TaskTaken(_) => e.subject.taskId in v.tasks && e.actor.role == v.tasks[e.subject.taskId].role
    case _ => true
  }

  lemma CheckedCreation(env: Env, v: View, actor: Actor, entity: string, given: Fields, now: int)
    requires CreateCheck(env, v, actor, entity, given, now).Success?
    ensures Can(env, v, actor, "create", entity, "", None, now)
    ensures forall k <- CreateCheck(env, v, actor, entity, given, now).value ::
      Can(env, v, actor, "create", entity, k, None, now)
  {
    hide Can, GivenOk, RequiredPresent, RefsExist, UniqueCheck, AssignSerials, WithDefaults, TouchesState;
  }

  lemma CheckedUpdate(env: Env, v: View, actor: Actor, rid: Rid, given: Fields, now: int)
    requires UpdateCheck(env, v, actor, rid, given, now).Success?
    ensures rid in v.records && Can(env, v, actor, "update", rid.entity, "", Some(v.records[rid]), now)
    ensures forall k <- UpdateCheck(env, v, actor, rid, given, now).value ::
      Can(env, v, actor, "update", rid.entity, k, Some(v.records[rid]), now)
  {
    hide Can, GivenOk, RefsExist, UniqueCheck, TouchesState;
  }

  lemma CreationAuthorised(env: Env, s: State, e: Entry)
    requires Legal(env, s, e) && e.body.RecordCreated?
    ensures Authorised(env, s.view, s.log, e)
  {
    hide CreateCheck, Can, Entitled;
    var given :| CreateCheck(env, s.view, e.actor, e.subject.entity, given, e.ts) == Success(e.body.values);
    CheckedCreation(env, s.view, e.actor, e.subject.entity, given, e.ts);
    forall field | field in e.body.values.Keys + {""}
      ensures Entitled(env, s.view, e.actor, "create", e.subject.entity, field, None, e.ts)
    {
      CanIsEntitled(env, s.view, e.actor, "create", e.subject.entity, field, None, e.ts);
    }
  }

  lemma UpdateAuthorised(env: Env, s: State, e: Entry)
    requires Legal(env, s, e) && e.body.RecordUpdated?
    ensures Authorised(env, s.view, s.log, e)
  {
    hide UpdateCheck, Can, Entitled;
    var rid := RidOf(e.subject);
    var given :| UpdateCheck(env, s.view, e.actor, rid, given, e.ts) == Success(e.body.changes);
    CheckedUpdate(env, s.view, e.actor, rid, given, e.ts);
    forall field | field in e.body.changes.Keys + {""}
      ensures Entitled(env, s.view, e.actor, "update", rid.entity, field, Some(s.view.records[rid]), e.ts)
    {
      CanIsEntitled(env, s.view, e.actor, "update", rid.entity, field, Some(s.view.records[rid]), e.ts);
    }
  }

  lemma ActionAuthorised(env: Env, s: State, e: Entry)
    requires Legal(env, s, e) && e.body.RecordAction?
    ensures Authorised(env, s.view, s.log, e)
  {
    hide CanNamed, Licensed;
    CanNamedIsLicensed(s.view.model.perms, e.actor.role, "act", e.body.action);
    assert ActionLegal(env, s, e);
    hide Legal;
  }

  lemma ApprovalAuthorised(env: Env, s: State, e: Entry)
    requires Legal(env, s, e) && (e.body.ApprovalRequested? || e.body.ApprovalGranted? || e.body.ApprovalRejected?)
    ensures Authorised(env, s.view, s.log, e)
  {
    hide CanNamed, Licensed;
    CanNamedIsLicensed(s.view.model.perms, e.actor.role, "act", e.body.action);
    CanNamedIsLicensed(s.view.model.perms, e.actor.role, "approve", e.body.action);
  }

  lemma LinkAuthorised(env: Env, s: State, e: Entry)
    requires Legal(env, s, e) && (e.body.LinkAdded? || e.body.LinkRemoved?)
    ensures Authorised(env, s.view, s.log, e)
  {
    hide Can, Entitled;
    CanIsEntitled(env, s.view, e.actor, "update", e.subject.entity, "", None, e.ts);
  }

  lemma LegalIsAuthorised(env: Env, s: State, e: Entry)
    requires Legal(env, s, e)
    ensures Authorised(env, s.view, s.log, e)
  {
    if e.body.RecordCreated? {
      CreationAuthorised(env, s, e);
    } else if e.body.RecordUpdated? {
      UpdateAuthorised(env, s, e);
    } else if e.body.RecordAction? {
      ActionAuthorised(env, s, e);
    } else if e.body.ApprovalRequested? || e.body.ApprovalGranted? || e.body.ApprovalRejected? {
      ApprovalAuthorised(env, s, e);
    } else if e.body.LinkAdded? || e.body.LinkRemoved? {
      LinkAuthorised(env, s, e);
    } else {
      hide Can, CanNamed, CreateCheck, UpdateCheck, ActCheck;
    }
  }

  /** In every admissible run, whoever wrote an entry was entitled to, by the rules of the definition in force:
      no creation, update or link touches a field a deny item forbids or no item permits, no named move, request,
      grant or rejection is by a role that a deny item bars or no item licenses, and a definition change is
      decided by a human approver. */
  lemma EveryEntryIsAuthorised(env: Env, genesis: Model, calls: seq<TimedCall>, j: nat)
    requires FreshIds(env) && AdmissibleRun(env, Start(genesis), calls)
    requires j < |Run(env, Start(genesis), calls).log|
    ensures var log := Run(env, Start(genesis), calls).log;
      Authorised(env, Fold(env.compile, Genesis(genesis), log[..j]), log[..j], log[j])
  {
    StartIsGood(env, genesis);
    RunConforms(env, Start(genesis), calls);
    var t := Run(env, Start(genesis), calls);
    hide Run, AdmissibleRun, Good;
    LegalHistory(env, genesis, t);
    var v := Fold(env.compile, Genesis(genesis), t.log[..j]);
    assert Legal(env, State(v, t.log[..j]), t.log[j]);
    LegalIsAuthorised(env, State(v, t.log[..j]), t.log[j]);
  }
}
