/** Journal entries: who did what to which subject, on what basis, when. */
module Journal {
  import opened Values
  import opened Model

  datatype ActorKind = Human | Agent | System

  datatype Actor = Actor(kind: ActorKind, id: string, role: string, attrs: Fields)

  /** The actor behind auto transitions, rule firings and lease expiry. */
  const WORKFLOW_ENGINE := Actor(System, "workflow-engine", "", map[])

  /** Guards of rules and auto transitions are evaluated for nobody in particular. */
  const NOBODY := Actor(System, "", "", map[])

  datatype Basis = Basis(kind: string, id: string)

  datatype Subject = Subject(
    entity: string, recordId: string, proposalId: string, taskId: string, approvalId: string, actorId: string)

  const NO_SUBJECT := Subject("", "", "", "", "", "")

  datatype Change = Change(old_: Value, new_: Value)

  datatype TaskKind = WorkflowTask | AgentTask | Escalation | Notification | Webhook

  datatype LinkFact = LinkFact(link: string, from: string, to: string)

  /** Actor directory payload; None fields are absent from the payload. */
  datatype ActorFacts = ActorFacts(
    kind: ActorKind, role: string, publicKey: string, tokenHash: Option<string>, meta: Option<Fields>)

  /** The event kind together with its typed payload. */
  datatype Body =
    | RecordCreated(values: Fields)
    | RecordUpdated(changes: map<string, Change>)
    | RecordAction(action: string, from: string, to: string, guard: string)
    | ApprovalRequested(entity: string, recordId: string, action: string, from: string, to: string, role: string)
    | ApprovalGranted(entity: string, recordId: string, action: string, from: string, to: string, role: string)
    | ApprovalRejected(entity: string, recordId: string, action: string, from: string, to: string, role: string)
    | TaskCreated(kind: TaskKind, role: string, entity: string, recordId: string, action: string, args: string)
    | TaskTaken(lease: int)
    | TaskProgress(note: string, facts: nat)
    | TaskCompleted(text: string)
    | TaskFailed(text: string)
    | TaskExpired
    | DefinitionProposed(description: string, base: nat, files: map<string, string>)
    | DefinitionApproved(proposalId: string)
    | DefinitionRejected(proposalId: string)
    | DefinitionApplied(proposalId: string)
    | LinkAdded(fact: LinkFact)
    | LinkRemoved(fact: LinkFact)
    | ActorRegistered(facts_: ActorFacts)
    | ActorKeyRotated(facts_: ActorFacts)
    | ActorDisabled
    | CheckpointSealed(sealedSeq: nat, sealedHash: Bytes)
    | Other(name: string)

  /** Idempotency keys. The engine's own keys never coincide with a client's. */
  datatype Key =
    | NoKey
    | Client(key: string)
    | ScheduleKey(rule: RuleId, recordId: string, day: int, index: nat)
    | StuckKey(rule: RuleId, recordId: string, since: int, index: nat)
    | StateKey(entity: string, recordId: string, action: string, since: int)

  /** What a caller hands to the journal, stamped with the store's clock. */
  datatype Entry = Entry(
    actor: Actor, subject: Subject, body: Body, basis: Option<Basis>, defVersion: nat, key: Key, ts: int)

  /** The entry stored under a key, if any: keys are looked up from the first entry on. */
  function Prior(log: seq<Entry>, key: Key): (r: Option<Entry>)
    ensures r.Some? ==> key != NoKey && r.value in log && r.value.key == key
    ensures r.None? ==> key == NoKey || forall e <- log :: e.key != key
  {
    if log == [] || key == NoKey then None
    else if log[0].key == key then Some(log[0])
    else Prior(log[1..], key)
  }

  /** Each key is stored at most once. */
  predicate UniqueKeys(log: seq<Entry>) {
    forall i, j :: 0 <= i < j < |log| ==> log[i].key == NoKey || log[i].key != log[j].key
  }

  lemma {:induction false} PriorIs(log: seq<Entry>, i: nat)
    requires UniqueKeys(log) && i < |log| && log[i].key != NoKey
    ensures Prior(log, log[i].key) == Some(log[i])
  {
    if i > 0 {
      assert log[0].key != log[i].key;
      PriorIs(log[1..], i - 1);
    }
  }
}
