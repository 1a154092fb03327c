/** Human approval over whole runs: every gated move is backed, every approval used once. */
module Approvals {
  // A transition declared `requires approval` happens only on the strength of a request and a grant for
  // exactly that move, and each approval is decided once and used once.

  import opened Values
  import opened Model
  import opened Journal
  import opened Projection
  import opened Environment
  import opened Permissions
  import opened Rights
  import opened Steps
  import opened Protocol
  import opened Conformance

  /** What the compiler guarantees of a workflow: named actions are unique and never called "auto". */
  ghost predicate CompiledWorkflows(m: Model) {
    forall entity <- m.workflows ::
      && DistinctActions(m.workflows[entity])
      && forall tr <- m.workflows[entity].transitions :: tr.auto <==> tr.action == "auto"
  }

  /** The entry takes a named transition that is declared to require approval. */
  ghost predicate TakesGatedTransition(m: Model, e: Entry) {
    && e.body.RecordAction? && e.subject.entity in m.workflows
    && exists tr <- m.workflows[e.subject.entity].transitions ::
         !tr.auto && tr.approvalRole != "" && tr.action == e.body.action
  }

  predicate IsDecision(e: Entry) {
    e.body.ApprovalGranted? || e.body.ApprovalRejected?
  }

  /** The entry requests this move under this approval id. */
  predicate Requests(e: Entry, id: string, entity: string, recordId: string, action: string, from: string, to: string) {
    e.subject.approvalId == id && e.body.ApprovalRequested? && e.body.entity == entity && e.body.recordId == recordId
    && e.body.action == action && e.body.from == from && e.body.to == to
  }

  predicate RequestsApproval(e: Entry, id: string, a: Approval) {
    Requests(e, id, a.entity, a.recordId, a.action, a.from, a.to)
  }

  predicate Grants(m: Model, e: Entry, id: string, action: string) {
    e.body.ApprovalGranted? && e.subject.approvalId == id && Licensed(m.perms, e.actor.role, "approve", action)
  }

  /** The entry at j rests on an approval requested earlier for the same move, and granted just before it by
      an actor whose role may approve the action. */
  ghost predicate Backed(m: Model, log: seq<Entry>, j: nat)
    requires j < |log| && log[j].body.RecordAction?
  {
    var e := log[j];
    && e.basis.Some? && e.basis.value.kind == "approval"
    && var id := e.basis.value.id;
       && j > 0 && Grants(m, log[j - 1], id, e.body.action)
       && exists i :: 0 <= i < j - 1 &&
            Requests(log[i], id, e.subject.entity, e.subject.recordId, e.body.action, e.body.from, e.body.to)
  }

  ghost predicate GatedMovesBacked(m: Model, log: seq<Entry>) {
    forall j :: 0 <= j < |log| && TakesGatedTransition(m, log[j]) ==> Backed(m, log, j)
  }

  /** No approval is decided twice. */
  predicate DecidedOnce(log: seq<Entry>) {
    forall i, j :: 0 <= i < j < |log| && IsDecision(log[i]) && IsDecision(log[j]) ==>
      log[i].subject.approvalId != log[j].subject.approvalId
  }

  // ---- the invariant -----------------------------------------------------------------

  ghost predicate RequestsKnown(s: State) {
    forall id <- s.view.approvals ::
      exists i :: 0 <= i < |s.log| && RequestsApproval(s.log[i], id, s.view.approvals[id])
  }

  ghost predicate DecisionsKnown(m: Model, s: State) {
    forall e <- s.log :: IsDecision(e) ==>
      && e.subject.approvalId in s.view.approvals
      && s.view.approvals[e.subject.approvalId].status != Pending
      && DecidesOn(e.body, s.view.approvals[e.subject.approvalId])
      && CanNamed(m.perms, e.actor.role, "approve", s.view.approvals[e.subject.approvalId].action)
  }

  ghost predicate Inv(env: Env, m: Model, s: State) {
    && Good(env, s) && s.view.model == m
    && RequestsKnown(s) && DecisionsKnown(m, s) && DecidedOnce(s.log) && GatedMovesBacked(m, s.log)
  }

  lemma RequestsStayKnown(env: Env, s: State, e: Entry)
    requires Good(env, s) && Legal(env, s, e) && RequestsKnown(s)
    ensures RequestsKnown(Commit(env, s, e))
  {
    hide Good, Legal;
    var t := Commit(env, s, e);
    forall id | id in t.view.approvals
      ensures exists i :: 0 <= i < |t.log| && RequestsApproval(t.log[i], id, t.view.approvals[id])
    {
      if id in s.view.approvals && !(e.body.ApprovalRequested? && e.subject.approvalId == id) {
        var i :| 0 <= i < |s.log| && RequestsApproval(s.log[i], id, s.view.approvals[id]);
        assert t.log[i] == s.log[i];
        assert RequestsApproval(t.log[i], id, t.view.approvals[id]);
      } else {
        assert t.log[|s.log|] == e;
        assert RequestsApproval(t.log[|s.log|], id, t.view.approvals[id]);
      }
    }
  }

  lemma ApplyKeepsApproval(compile: Compiler, v: View, e: Entry, id: string)
    requires id in v.approvals && (e.body.ApprovalRequested? ==> e.subject.approvalId != id)
    ensures var w := Apply(compile, v, e);
      && id in w.approvals
      && w.approvals[id] == v.approvals[id].(status := w.approvals[id].status)
      && (v.approvals[id].status != Pending ==> w.approvals[id].status != Pending)
  {
    var w := Apply(compile, v, e);
    match e.body
    case ApprovalRequested(_, _, _, _, _, _) =>
    case ApprovalGranted(_, _, _, _, _, _) =>
    case ApprovalRejected(_, _, _, _, _, _) =>
    case _ => assert w.approvals == v.approvals;
  }

  lemma ApprovalsKept(env: Env, s: State, e: Entry, id: string)
    requires Good(env, s) && Legal(env, s, e) && id in s.view.approvals
    ensures var t := Commit(env, s, e);
      && id in t.view.approvals
      && t.view.approvals[id] == s.view.approvals[id].(status := t.view.approvals[id].status)
      && (s.view.approvals[id].status != Pending ==> t.view.approvals[id].status != Pending)
  {
    FreshNotDrawn(env, |s.log|);
    assert e.body.ApprovalRequested? ==> RequestLegal(env, s, e);
    hide Legal;
    ApplyKeepsApproval(env.compile, s.view, e, id);
    hide Apply;
  }

  lemma DecisionStaysKnown(env: Env, m: Model, s: State, e: Entry, d: Entry)
    requires Good(env, s) && s.view.model == m && Legal(env, s, e) && IsDecision(d)
    requires d == e || (DecisionsKnown(m, s) && d in s.log)
    ensures var t := Commit(env, s, e);
      && d.subject.approvalId in t.view.approvals
      && t.view.approvals[d.subject.approvalId].status != Pending
      && DecidesOn(d.body, t.view.approvals[d.subject.approvalId])
      && CanNamed(m.perms, d.actor.role, "approve", t.view.approvals[d.subject.approvalId].action)
  {
    ApprovalsKept(env, s, e, d.subject.approvalId);
    hide Good;
    hide CanNamed;
    if d == e {
      assert DecisionLegal(s, e);
      hide Legal;
    } else {
      hide Legal;
      hide Apply;
    }
  }

  lemma DecisionsStayKnown(env: Env, m: Model, s: State, e: Entry)
    requires Good(env, s) && s.view.model == m && Legal(env, s, e) && DecisionsKnown(m, s)
    ensures DecisionsKnown(m, Commit(env, s, e))
  {
    var t := Commit(env, s, e);
    forall d | d in t.log && IsDecision(d)
      ensures && d.subject.approvalId in t.view.approvals
              && t.view.approvals[d.subject.approvalId].status != Pending
              && DecidesOn(d.body, t.view.approvals[d.subject.approvalId])
              && CanNamed(m.perms, d.actor.role, "approve", t.view.approvals[d.subject.approvalId].action)
    {
      DecisionStaysKnown(env, m, s, e, d);
    }
  }

  lemma DecidedOnceStays(env: Env, m: Model, s: State, e: Entry)
    requires Legal(env, s, e) && DecisionsKnown(m, s) && DecidedOnce(s.log)
    ensures DecidedOnce(s.log + [e])
  {
    var log := s.log + [e];
    forall i, j | 0 <= i < j < |log| && IsDecision(log[i]) && IsDecision(log[j])
      ensures log[i].subject.approvalId != log[j].subject.approvalId
    {
      assert log[i] in s.log;
    }
  }

  lemma BackedStays(m: Model, log: seq<Entry>, e: Entry, j: nat)
    requires j < |log| && log[j].body.RecordAction? && Backed(m, log, j)
    ensures Backed(m, log + [e], j)
  {
    var more := log + [e];
    var d := log[j];
    var i :| 0 <= i < j - 1 &&
      Requests(log[i], d.basis.value.id, d.subject.entity, d.subject.recordId, d.body.action, d.body.from, d.body.to);
    assert more[i] == log[i] && more[j] == log[j] && more[j - 1] == log[j - 1];
  }

  /** A gated move is not a plain named transition, and not an auto transition. */
  lemma GatedMeansApproved(env: Env, m: Model, s: State, e: Entry)
    requires CompiledWorkflows(m) && s.view.model == m && ActionLegal(env, s, e) && TakesGatedTransition(m, e)
    ensures ApprovedLegal(s, e)
  {
  }

  lemma GatedMoveIsBacked(env: Env, m: Model, s: State, e: Entry)
    requires CompiledWorkflows(m) && Inv(env, m, s) && Legal(env, s, e) && TakesGatedTransition(m, e)
    ensures Backed(m, s.log + [e], |s.log|)
  {
    hide Good;
    GatedMeansApproved(env, m, s, e);
    var id := e.basis.value.id;
    var a := s.view.approvals[id];
    var n := |s.log| - 1;
    assert s.log[n] in s.log && IsDecision(s.log[n]);
    var i :| 0 <= i < |s.log| && RequestsApproval(s.log[i], id, a);
    var more := s.log + [e];
    assert more[i] == s.log[i] && more[n] == s.log[n] && more[n + 1] == e;
    assert i < n;
    CanNamedIsLicensed(m.perms, more[n].actor.role, "approve", e.body.action);
    assert Requests(more[i], id, e.subject.entity, e.subject.recordId, e.body.action, e.body.from, e.body.to);
  }

  lemma InvStays(env: Env, m: Model, s: State, e: Entry)
    requires CompiledWorkflows(m) && Inv(env, m, s) && Legal(env, s, e) && !e.body.DefinitionApplied?
    requires Good(env, Commit(env, s, e))
    ensures Inv(env, m, Commit(env, s, e))
  {
    hide Good, Legal, DecidedOnce, RequestsKnown, DecisionsKnown, GatedMovesBacked, CompiledWorkflows;
    RequestsStayKnown(env, s, e);
    DecisionsStayKnown(env, m, s, e);
    DecidedOnceStays(env, m, s, e);
    GatedMovesStayBacked(env, m, s, e);
  }

  lemma GatedMovesStayBacked(env: Env, m: Model, s: State, e: Entry)
    requires CompiledWorkflows(m) && Inv(env, m, s) && Legal(env, s, e)
    ensures GatedMovesBacked(m, s.log + [e])
  {
    hide Good, Legal, DecidedOnce, RequestsKnown, DecisionsKnown, CompiledWorkflows;
    var more := s.log + [e];
    forall j | 0 <= j < |more| && TakesGatedTransition(m, more[j]) ensures Backed(m, more, j) {
      if j < |s.log| {
        assert more[j] == s.log[j];
        BackedStays(m, s.log, e, j);
      } else {
        GatedMoveIsBacked(env, m, s, e);
      }
    }
  }

  lemma {:induction false} InvHolds(env: Env, m: Model, s: State, es: seq<Entry>)
    requires CompiledWorkflows(m) && Inv(env, m, s) && LegalRun(env, s, es) && FixedDefinition(es)
    ensures Inv(env, m, CommitAll(env, s, es))
    decreases |es|
  {
    if es != [] {
      CommitKeepsGood(env, s, es[0]);
      InvStays(env, m, s, es[0]);
      hide Inv;
      hide Legal;
      InvHolds(env, m, Commit(env, s, es[0]), es[1..]);
    }
  }

  /** In every admissible run under one definition: every gated move rests on its own request and grant,
      no approval is decided twice, and no two gated moves rest on one approval. */
  lemma HumanApproval(env: Env, m: Model, calls: seq<TimedCall>)
    requires FreshIds(env) && CompiledWorkflows(m) && AdmissibleRun(env, Start(m), calls)
    requires FixedDefinition(Run(env, Start(m), calls).log)
    ensures var log := Run(env, Start(m), calls).log;
      && GatedMovesBacked(m, log)
      && DecidedOnce(log)
      && forall j, k :: 0 <= j < k < |log| && TakesGatedTransition(m, log[j]) && TakesGatedTransition(m, log[k]) ==>
           log[j].basis != log[k].basis
  {
    var t := Run(env, Start(m), calls);
    var es := RunEntries(env, m, calls);
    hide Run;
    assert FixedDefinition(es);
    InvHolds(env, m, Start(m), es);
    EachApprovalMovesOnce(m, t.log);
  }

  lemma EachApprovalMovesOnce(m: Model, log: seq<Entry>)
    requires GatedMovesBacked(m, log) && DecidedOnce(log)
    ensures forall j, k :: 0 <= j < k < |log| && TakesGatedTransition(m, log[j]) && TakesGatedTransition(m, log[k]) ==>
      log[j].basis != log[k].basis
  {
    forall j, k | 0 <= j < k < |log| && TakesGatedTransition(m, log[j]) && TakesGatedTransition(m, log[k])
      ensures log[j].basis != log[k].basis
    {
      assert Backed(m, log, j) && Backed(m, log, k);
      assert IsDecision(log[j - 1]) && IsDecision(log[k - 1]);
    }
  }

  // ---- who grants ---------------------------------------------------------------------

  /** No other role than this may approve the action. */
  ghost predicate OnlyApprover(m: Model, action: string, role: string) {
    forall r :: Licensed(m.perms, r, "approve", action) ==> r == role
  }

  /** The actor has a signature the node takes; where it asks for none, that is none. */
  ghost predicate CanSign(env: Env, actorId: string, message: string) {
    exists signature :: SignatureOk(env, actorId, message, signature)
  }

  /** The role a transition declares is recorded and never compared: a pending approval can be granted by that
      role alone exactly when no other role may approve the action. */
  lemma GrantRoleIff(env: Env, s: State, id: string, x: string)
    requires id in s.view.approvals && s.view.approvals[id].status == Pending
    requires CanSign(env, x, ApprovalMessage(id, true))
    ensures var a := s.view.approvals[id];
      (forall actor, signature :: DecideCheck(env, s.view, actor, id, true, signature).None? ==> actor.role == a.role)
      <==> OnlyApprover(s.view.model, a.action, a.role)
  {
    hide CanNamed, Licensed, SignatureOk;
    var a := s.view.approvals[id];
    forall r ensures CanNamed(s.view.model.perms, r, "approve", a.action) <==>
      Licensed(s.view.model.perms, r, "approve", a.action) {
      CanNamedIsLicensed(s.view.model.perms, r, "approve", a.action);
    }
    var signature :| SignatureOk(env, x, ApprovalMessage(id, true), signature);
    forall r | CanNamed(s.view.model.perms, r, "approve", a.action)
      ensures DecideCheck(env, s.view, Actor(Human, x, r, map[]), id, true, signature).None?
    {
    }
  }

  /** In every admissible run under one definition: who grants may approve the action; so where only the declared
      role may, every grant is by that role. */
  lemma GrantedByItsRole(env: Env, m: Model, calls: seq<TimedCall>, j: nat)
    requires FreshIds(env) && CompiledWorkflows(m) && AdmissibleRun(env, Start(m), calls)
    requires FixedDefinition(Run(env, Start(m), calls).log)
    requires j < |Run(env, Start(m), calls).log| && Run(env, Start(m), calls).log[j].body.ApprovalGranted?
    ensures var e := Run(env, Start(m), calls).log[j];
      && Licensed(m.perms, e.actor.role, "approve", e.body.action)
      && (OnlyApprover(m, e.body.action, e.body.role) ==> e.actor.role == e.body.role)
  {
    var t := Run(env, Start(m), calls);
    var es := RunEntries(env, m, calls);
    hide Run, AdmissibleRun, CanNamed, LegalRun, CompiledWorkflows;
    assert FixedDefinition(es);
    InvHolds(env, m, Start(m), es);
    hide Good, RequestsKnown, DecidedOnce, GatedMovesBacked, Licensed;
    assert t.log[j] in t.log && IsDecision(t.log[j]);
    CanNamedIsLicensed(m.perms, t.log[j].actor.role, "approve", t.log[j].body.action);
  }

  /** The gate is on named transitions only: an enabled auto transition moves the record by itself, whatever
      approval role it is declared with. */
  lemma AutoIgnoresApproval(env: Env, s: State, rid: Rid, tr: Transition, role: string, now: int)
    requires rid in s.view.records && rid.entity in s.view.model.workflows
    requires tr.approvalRole == role && role != ""
    requires NextAuto(env, s.view, rid, s.view.model.workflows[rid.entity].transitions, now) == Some(tr)
    ensures var t := AutoRun(env, s, rid, s.view.model.workflows[rid.entity].transitions, now, 1);
      && |t.log| == |s.log| + 1 && t.log[|s.log|].actor == WORKFLOW_ENGINE
      && t.view.approvals == s.view.approvals && StateOf(t.view, rid) == tr.to
  {
  }
}
