/** The in-memory projection, and its reconstruction from the journal. */
module Projection {
  import opened Values
  import opened Model
  import opened Journal

  datatype Rid = Rid(entity: string, id: string)

  datatype ApprovalStatus = Pending | Granted | Rejected

  datatype Approval = Approval(
    entity: string, recordId: string, action: string, from: string, to: string, role: string,
    requestedBy: Actor, status: ApprovalStatus)

  datatype TaskStatus = Open | Taken | Completed | Failed

  datatype Task = Task(
    kind: TaskKind, role: string, entity: string, recordId: string, action: string, args: string,
    status: TaskStatus, takenBy: string, leaseUntil: int)

  datatype ProposalStatus = Parked | Approved | Refused | Applied

  datatype Proposal = Proposal(
    description: string, author: Actor, base: nat, files: map<string, string>, status: ProposalStatus)

  datatype View = View(
    model: Model,
    defVersion: nat,
    records: map<Rid, Fields>,
    since: map<Rid, int>,
    approvals: map<string, Approval>,
    tasks: map<string, Task>,
    proposals: map<string, Proposal>,
    links: map<string, LinkFact>)

  /** The compiler: a fixed function from pack sources to a model, or None on a compile error. */
  type Compiler = map<string, string> -> Option<Model>

  function Genesis(model: Model): View {
    View(model, 1, map[], map[], map[], map[], map[], map[])
  }

  function LinkKey(f: LinkFact): string {
    f.link + "|" + f.from + "|" + f.to
  }

  function RidOf(s: Subject): Rid {
    Rid(s.entity, s.recordId)
  }

  function ApplyChanges(values: Fields, changes: map<string, Change>): Fields {
    values + map f | f in changes :: changes[f].new_
  }

  /** The value the workflow moves to `to`; a record without a workflow keeps its values. */
  function MoveState(model: Model, entity: string, values: Fields, to: string): Fields {
    if entity in model.workflows then values[model.workflows[entity].field := Str(to)] else values
  }

  function SetStatus(tasks: map<string, Task>, id: string, status: TaskStatus): map<string, Task> {
    if id in tasks then tasks[id := tasks[id].(status := status)] else tasks
  }

  function SetDecision(approvals: map<string, Approval>, id: string, status: ApprovalStatus): map<string, Approval> {
    if id in approvals then approvals[id := approvals[id].(status := status)] else approvals
  }

  function SetProposal(proposals: map<string, Proposal>, id: string, status: ProposalStatus): map<string, Proposal> {
    if id in proposals then proposals[id := proposals[id].(status := status)] else proposals
  }

  function NextRecords(v: View, e: Entry): map<Rid, Fields> {
    var rid := RidOf(e.subject);
    match e.body
    case RecordCreated(values) => v.records[rid := values]
    case RecordUpdated(changes) =>
      if rid in v.records then v.records[rid := ApplyChanges(v.records[rid], changes)] else v.records
    case RecordAction(_, _, to, _) =>
      if rid in v.records then v.records[rid := MoveState(v.model, rid.entity, v.records[rid], to)] else v.records
    case _ => v.records
  }

  function NextSince(v: View, e: Entry): map<Rid, int> {
    if e.body.RecordCreated? || e.body.RecordAction? then v.since[RidOf(e.subject) := e.ts] else v.since
  }

  function NextApprovals(approvals: map<string, Approval>, e: Entry): map<string, Approval> {
    var id := e.subject.approvalId;
    match e.body
    case ApprovalRequested(entity, recordId, action, from, to, role) =>
      approvals[id := Approval(entity, recordId, action, from, to, role, e.actor, Pending)]
    case ApprovalGranted(_, _, _, _, _, _) => SetDecision(approvals, id, Granted)
    case ApprovalRejected(_, _, _, _, _, _) => SetDecision(approvals, id, Rejected)
    case _ => approvals
  }

  function NextTasks(tasks: map<string, Task>, e: Entry): map<string, Task> {
    var id := e.subject.taskId;
    match e.body
    case TaskCreated(kind, role, entity, recordId, action, args) =>
      tasks[id := Task(kind, role, entity, recordId, action, args, Open, "", 0)]
    case TaskTaken(lease) =>
      if id in tasks then tasks[id := tasks[id].(status := Taken, takenBy := e.actor.id, leaseUntil := lease)]
        else tasks
    case TaskCompleted(_) => SetStatus(tasks, id, Completed)
    case TaskFailed(_) => SetStatus(tasks, id, Failed)
    case TaskExpired => if id in tasks then tasks[id := tasks[id].(status := Open, takenBy := "")] else tasks
    case _ => tasks
  }

  /** The sources an applied event swaps in: those of a known proposal that carries any. */
  predicate SwapsIn(v: View, e: Entry) {
    e.body.DefinitionApplied? && e.subject.proposalId in v.proposals && v.proposals[e.subject.proposalId].files != map[]
  }

  function NextProposals(v: View, e: Entry): map<string, Proposal> {
    var id := e.subject.proposalId;
    match e.body
    case DefinitionProposed(description, base, files) =>
      v.proposals[id := Proposal(description, e.actor, base, files, Parked)]
    case DefinitionApproved(_) => SetProposal(v.proposals, id, Approved)
    case DefinitionRejected(_) => SetProposal(v.proposals, id, Refused)
    case DefinitionApplied(_) => if SwapsIn(v, e) then SetProposal(v.proposals, id, Applied) else v.proposals
    case _ => v.proposals
  }

  function NextModel(compile: Compiler, v: View, e: Entry): Model {
    if SwapsIn(v, e) then
      var compiled := compile(v.proposals[e.subject.proposalId].files);
      if compiled.Some? then compiled.value else v.model
    else v.model
  }

  function NextVersion(v: View, e: Entry): nat {
    if e.body.DefinitionApplied? then v.defVersion + 1 else v.defVersion
  }

  function NextLinks(links: map<string, LinkFact>, e: Entry): map<string, LinkFact> {
    match e.body
    case LinkAdded(fact) => links[LinkKey(fact) := fact]
    case LinkRemoved(fact) => links - {LinkKey(fact)}
    case _ => links
  }

  /** Folds one journal entry into the projection, component by component. */
  function Apply(compile: Compiler, v: View, e: Entry): View {
    View(NextModel(compile, v, e), NextVersion(v, e), NextRecords(v, e), NextSince(v, e),
         NextApprovals(v.approvals, e), NextTasks(v.tasks, e), NextProposals(v, e), NextLinks(v.links, e))
  }

  /** Rebuilds the projection by folding the journal from a starting view. */
  function Fold(compile: Compiler, v: View, log: seq<Entry>): View
    decreases |log|
  {
    if log == [] then v
    else Apply(compile, Fold(compile, v, log[..|log| - 1]), log[|log| - 1])
  }

  lemma FoldAppend(compile: Compiler, v: View, log: seq<Entry>, e: Entry)
    ensures Fold(compile, v, log + [e]) == Apply(compile, Fold(compile, v, log), e)
  {
    assert (log + [e])[..|log|] == log;
  }

  lemma {:induction false} FoldSplit(compile: Compiler, v: View, a: seq<Entry>, b: seq<Entry>)
    ensures Fold(compile, v, a + b) == Fold(compile, Fold(compile, v, a), b)
    decreases |b|
  {
    if b == [] {
      assert a + b == a;
    } else {
      var n := |b| - 1;
      assert a + b == (a + b[..n]) + [b[n]];
      assert (a + b)[..|a + b| - 1] == a + b[..n];
      FoldSplit(compile, v, a, b[..n]);
    }
  }

  /** The restart path: the projection starts from the genesis model and replays every event in order. */
  method Rebuild(compile: Compiler, model: Model, log: seq<Entry>) returns (v: View)
    ensures v == Fold(compile, Genesis(model), log)
  {
    v := Genesis(model);
    for i := 0 to |log|
      invariant v == Fold(compile, Genesis(model), log[..i])
    {
      assert log[..i + 1] == log[..i] + [log[i]];
      FoldAppend(compile, Genesis(model), log[..i], log[i]);
      v := Apply(compile, v, log[i]);
    }
    assert log[..|log|] == log;
  }
}
