/** The engine as it runs: fields updated in place, a store it appends to, and loops over rules and records.

    Every method is proved against the step function of the same name: the live fields together with the
    journal (S) move exactly as the function says. The lemmas after the class say what the loops and calls
    need of those functions. */
module Engine {
  import opened Values
  import opened Model
  import opened Journal
  import opened EventStore
  import opened Projection
  import opened Environment
  import opened Permissions
  import opened Records
  import opened Index
  import Conditions
  import Queries
  import Scope
  import opened Steps
  import Serial

  class Engine {
    const env: Env
    const store: MemStore
    /** How a value is written as an index key. */
    const render: Value -> string

    var model: Model
    var defVersion: nat
    var records: map<Rid, Fields>
    var since: map<Rid, int>
    var approvals: map<string, Approval>
    var tasks: map<string, Task>
    var proposals: map<string, Proposal>
    var links: map<string, LinkFact>
    var idxCache: map<string, EntityIndex>

    function Projected(): View
      reads this
    {
      View(model, defVersion, records, since, approvals, tasks, proposals, links)
    }

    /** The live projection together with the journal. */
    ghost function S(): State
      reads this, store
    {
      State(Projected(), Log(store.events))
    }

    ghost predicate Valid()
      reads this, store
    {
      store.Valid() && Coherent(idxCache, records, render)
    }

    // ---- replay -------------------------------------------------------------------

    constructor (env: Env, genesis: Model, store: MemStore, render: Value -> string)
      requires store.Valid()
      ensures Valid() && this.env == env && this.store == store && this.render == render
      ensures Projected() == Fold(env.compile, Genesis(genesis), Log(store.events))
    {
      this.env, this.store, this.render := env, store, render;
      model, defVersion := genesis, 1;
      records, since, approvals, tasks, proposals, links := map[], map[], map[], map[], map[], map[];
      idxCache := map[];
      new;
      ghost var start, log := Genesis(genesis), Log(store.events);
      for i := 0 to |store.events|
        invariant Projected() == Fold(env.compile, start, log[..i])
        invariant idxCache == map[] && store.Valid()
      {
        assert log[..i + 1] == log[..i] + [log[i]];
        FoldAppend(env.compile, start, log[..i], log[i]);
        ApplyEvent(store.events[i].entry);
      }
      assert log[..|log|] == log;
    }

    method SetStateSince(rid: Rid, ts: int)
      modifies this`since
      ensures since == old(since)[rid := ts]
    {
      since := since[rid := ts];
    }

    /** Folds one journal entry into the projection. */
    method ApplyEvent(e: Entry)
      modifies this
      ensures Projected() == Apply(env.compile, old(Projected()), e)
      ensures idxCache == old(idxCache)
    {
      ghost var v := Projected();
      ApplyRecordEvent(e);
      ApplyApprovalEvent(e);
      ApplyTaskEvent(e);
      ApplyLinkEvent(e);
      ApplyDefinitionEvent(v, e);
    }

    method ApplyRecordEvent(e: Entry)
      modifies this`records, this`since
      ensures records == NextRecords(old(Projected()), e) && since == NextSince(old(Projected()), e)
    {
      var rid := RidOf(e.subject);
      match e.body {
        case RecordCreated(values) =>
          records := records[rid := values];
          SetStateSince(rid, e.ts);
        case RecordUpdated(changes) =>
          if rid in records {
            records := records[rid := ApplyChanges(records[rid], changes)];
          }
        case RecordAction(_, _, to, _) =>
          if rid in records {
            if rid.entity in model.workflows {
              records := records[rid := records[rid][model.workflows[rid.entity].field := Str(to)]];
            } else {
              assert records[rid := records[rid]] == records;
            }
          }
          SetStateSince(rid, e.ts);
        case _ =>
      }
    }

    method ApplyApprovalEvent(e: Entry)
      modifies this`approvals
      ensures approvals == NextApprovals(old(approvals), e)
    {
      var id := e.subject.approvalId;
      match e.body {
        case ApprovalRequested(entity, recordId, action, from, to, role) =>
          approvals := approvals[id := Approval(entity, recordId, action, from, to, role, e.actor, Pending)];
        case ApprovalGranted(_, _, _, _, _, _) =>
          if id in approvals {
            approvals := approvals[id := approvals[id].(status := Granted)];
          }
        case ApprovalRejected(_, _, _, _, _, _) =>
          if id in approvals {
            approvals := approvals[id := approvals[id].(status := Rejected)];
          }
        case _ =>
      }
    }

    method ApplyTaskEvent(e: Entry)
      modifies this`tasks
      ensures tasks == NextTasks(old(tasks), e)
    {
      var id := e.subject.taskId;
      match e.body {
        case TaskCreated(kind, role, entity, recordId, action, args) =>
          tasks := tasks[id := Task(kind, role, entity, recordId, action, args, Open, "", 0)];
        case TaskTaken(lease) =>
          if id in tasks {
            tasks := tasks[id := tasks[id].(status := Taken, takenBy := e.actor.id, leaseUntil := lease)];
          }
        case TaskCompleted(_) =>
          if id in tasks {
            tasks := tasks[id := tasks[id].(status := Completed)];
          }
        case TaskFailed(_) =>
          if id in tasks {
            tasks := tasks[id := tasks[id].(status := Failed)];
          }
        case TaskExpired =>
          if id in tasks {
            tasks := tasks[id := tasks[id].(status := Open, takenBy := "")];
          }
        case _ =>
      }
    }

    method ApplyLinkEvent(e: Entry)
      modifies this`links
      ensures links == NextLinks(old(links), e)
    {
      match e.body {
        case LinkAdded(fact) => links := links[LinkKey(fact) := fact];
        case LinkRemoved(fact) => links := links - {LinkKey(fact)};
        case _ =>
      }
    }

    /** Definitions replay from the journal: the genesis model is only the seed. */
    method ApplyDefinitionEvent(ghost v: View, e: Entry)
      requires v.proposals == proposals && v.model == model && v.defVersion == defVersion
      modifies this`proposals, this`model, this`defVersion
      ensures proposals == NextProposals(v, e) && model == NextModel(env.compile, v, e)
        && defVersion == NextVersion(v, e)
    {
      var id := e.subject.proposalId;
      match e.body {
        case DefinitionProposed(description, base, files) =>
          proposals := proposals[id := Proposal(description, e.actor, base, files, Parked)];
        case DefinitionApproved(_) =>
          if id in proposals {
            proposals := proposals[id := proposals[id].(status := Approved)];
          }
        case DefinitionRejected(_) =>
          if id in proposals {
            proposals := proposals[id := proposals[id].(status := Refused)];
          }
        case DefinitionApplied(_) =>
          if id in proposals && proposals[id].files != map[] {
            var next := env.compile(proposals[id].files);
            if next.Some? {
              model := next.value;
            }
            proposals := proposals[id := proposals[id].(status := Applied)];
          }
          defVersion := defVersion + 1;
        case _ =>
      }
    }

    // ---- appending ------------------------------------------------------------------

    /** Appends an entry; under a repeated key the journal answers with the entry it already holds. */
    method Append(e: Entry, signature: Option<Bytes>) returns (stored: Option<Entry>)
      requires Valid()
      modifies store
      ensures Valid()
      ensures stored.None? <==> e.actor.id == ""
      ensures stored.None? ==> Log(store.events) == old(Log(store.events))
      ensures stored.Some? ==>
        var prior := Prior(old(Log(store.events)), e.key);
        && stored.value == (if prior.Some? then prior.value else e)
        && Log(store.events) == old(Log(store.events)) + (if prior.Some? then [] else [e])
    {
      var ev := store.Append(e, signature, env.eventIds(|store.events|));
      if ev.None? {
        return None;
      }
      return Some(ev.value.entry);
    }

    method DropIndex(entity: string)
      modifies this`idxCache
      ensures idxCache == old(idxCache) - {entity}
    {
      idxCache := idxCache - {entity};
    }

    // ---- transitions -----------------------------------------------------------------

    /** Appends record.action and moves the record. */
    method ApplyTransition(actor: Actor, rid: Rid, tr: Transition, from: string, basis: Option<Basis>, key: Key,
                           now: int)
      returns (ok: bool)
      requires Valid() && rid in records && rid.entity in model.workflows
      modifies this, store
      ensures Valid()
      ensures ok <==> actor.id != ""
      ensures ok ==> S() == CommitTransition(env, old(S()), actor, rid, tr, from, basis, key, now)
      ensures !ok ==> S() == old(S())
    {
      hide Coherent;
      TransitionIs(env, S(), actor, rid, tr, from, basis, key, now);
      hide CommitTransition;
      var e := Entry(actor, RecordSubject(rid), RecordAction(tr.action, from, tr.to, tr.when), basis, defVersion, key,
        now);
      var stored := Append(e, None);
      if stored.None? {
        return false;
      }
      ProjectMove(rid, tr.to, stored.value.ts);
      return true;
    }

    method ProjectMove(rid: Rid, to: string, ts: int)
      requires Valid() && rid in records && rid.entity in model.workflows
      modifies this`records, this`since, this`idxCache
      ensures Valid()
      ensures records == old(records)[rid := old(records)[rid][model.workflows[rid.entity].field := Str(to)]]
      ensures since == old(since)[rid := ts]
    {
      records := records[rid := records[rid][model.workflows[rid.entity].field := Str(to)]];
      DropIndex(rid.entity);
      DropKeepsCoherent(old(idxCache), old(records), records, render, rid.entity);
      SetStateSince(rid, ts);
    }

    /** Whether a rule's or a transition's condition holds of a stored record, for nobody in particular. */
    predicate Enabled(when: string, rid: Rid, actor: Actor, now: int)
      reads this
    {
      GuardHolds(env, Projected(), when, rid, actor, now)
    }

    /** The first auto transition out of the current state whose guard holds. */
    method FirstAuto(rid: Rid, transitions: seq<Transition>, current: string, now: int) returns (r: Option<Transition>)
      requires current == StateOf(Projected(), rid)
      ensures r == NextAuto(env, Projected(), rid, transitions, now)
    {
      hide GuardHolds;
      var i := 0;
      while i < |transitions|
        invariant 0 <= i <= |transitions|
        invariant NextAuto(env, Projected(), rid, transitions, now) ==
          NextAuto(env, Projected(), rid, transitions[i..], now)
      {
        var tr := transitions[i];
        assert transitions[i..][0] == tr && transitions[i..][1..] == transitions[i + 1..];
        if !tr.auto || (tr.from != current && tr.from != "any") || tr.to == current
          || !Enabled(tr.when, rid, NOBODY, now) {
          i := i + 1;
          continue;
        }
        return Some(tr);
      }
      return None;
    }

    /** Fires enabled auto transitions, at most ten, then queues the work the settled state calls for. */
    method RunAutoTransitions(rid: Rid, now: int)
      requires Valid()
      modifies this, store
      ensures Valid() && S() == Settle(env, old(S()), rid, now)
    {
      if rid.entity !in model.workflows || rid !in records {
        return;
      }
      var transitions := model.workflows[rid.entity].transitions;
      ghost var start := S();
      var hops := 0;
      while hops < MAX_HOPS
        invariant Valid() && 0 <= hops <= MAX_HOPS && model == old(model) && rid in records
        invariant AutoRun(env, S(), rid, transitions, now, MAX_HOPS - hops) ==
          AutoRun(env, start, rid, transitions, now, MAX_HOPS)
        decreases MAX_HOPS - hops
      {
        hide AutoRun, CommitTransition;
        var current := AsString(Get(records[rid], model.workflows[rid.entity].field));
        var tr := FirstAuto(rid, transitions, current, now);
        AutoRunStep(env, S(), rid, transitions, now, MAX_HOPS - hops);
        if tr.None? {
          break;
        }
        ghost var before := S();
        var ok := ApplyTransition(WORKFLOW_ENGINE, rid, tr.value, current, Some(AutoBasis(tr.value)), NoKey, now);
        MoveKeepsModel(env, before, WORKFLOW_ENGINE, rid, tr.value, current, Some(AutoBasis(tr.value)), NoKey, now);
        hops := hops + 1;
      }
      AutoRunStep(env, S(), rid, transitions, now, MAX_HOPS - hops);
      EnsureWorkflowTasks(rid, now);
    }

    // ---- tasks ---------------------------------------------------------------------------

    /** Appends task.created, idempotent under the key, and projects the task unless it is known. */
    method CreateTask(t: TaskSpec, basis: Basis, key: Key, now: int)
      requires Valid()
      modifies this, store
      ensures Valid() && S() == CommitTask(env, old(S()), t, basis, key, now)
    {
      LogLength(store.events);
      TaskIs(env, S(), t, basis, key, now);
      hide CommitTask, Coherent;
      var id := env.ids(|store.events|);
      var e := Entry(WORKFLOW_ENGINE, NO_SUBJECT.(taskId := id, entity := t.entity, recordId := t.recordId),
                     TaskCreated(t.kind, t.role, t.entity, t.recordId, t.action, t.args), Some(basis), defVersion, key,
                       now);
      var stored := Append(e, None);
      var taskId := stored.value.subject.taskId;
      if taskId !in tasks {
        tasks := tasks[taskId := Task(t.kind, t.role, t.entity, t.recordId, t.action, t.args, Open, "", 0)];
      }
    }

    /** Queues work for the assignees of the transitions out of the current state. */
    method EnsureWorkflowTasks(rid: Rid, now: int)
      requires Valid()
      modifies this, store
      ensures Valid()
      ensures S() == if rid.entity !in old(model).workflows || rid !in old(records) then old(S())
                     else var v := old(Projected());
                          EnsureTasks(env, old(S()), rid, v.model.workflows[rid.entity].transitions, StateOf(v, rid),
                            SinceOf(v, rid), now)
    {
      if rid.entity !in model.workflows || rid !in records {
        return;
      }
      var transitions := model.workflows[rid.entity].transitions;
      var current := AsString(Get(records[rid], model.workflows[rid.entity].field));
      var entered := SinceOf(Projected(), rid);
      ghost var start := S();
      assert transitions[0..] == transitions;
      for i := 0 to |transitions|
        invariant Valid()
        invariant EnsureTasks(env, S(), rid, transitions[i..], current, entered, now) ==
                  EnsureTasks(env, start, rid, transitions, current, entered, now)
      {
        hide CommitTask;
        var tr := transitions[i];
        assert transitions[i..][0] == tr && transitions[i..][1..] == transitions[i + 1..];
        if tr.assigneeRole == "" || tr.auto || (tr.from != current && tr.from != "any") {
          continue;
        }
        CreateTask(WorkflowTaskSpec(rid, tr), ASSIGNEE_BASIS, StateKey(rid.entity, rid.id, tr.action, entered), now);
      }
      assert transitions[|transitions|..] == [];
    }

    // ---- rules ------------------------------------------------------------------------------

    /** Executes a rule's actions; periodic firings are deduplicated by key. */
    method FireActions(rule: Rule, entity: string, id: string, firing: Firing, now: int)
      requires Valid()
      modifies this, store
      ensures Valid() && S() == Fire(env, old(S()), rule, entity, id, firing, 0, now)
    {
      ghost var start := S();
      for i := 0 to |rule.actions|
        invariant Valid()
        invariant Fire(env, S(), rule, entity, id, firing, i, now) == Fire(env, start, rule, entity, id, firing, 0, now)
      {
        hide CommitTask, ActionTask, RuleBasis, FiringKey;
        var t := TaskFor(rule.actions[i], entity, id);
        if t.Some? {
          CreateTask(t.value, RuleBasis(rule), FiringKey(rule, id, firing, i), now);
        }
      }
    }

    /** The task an action asks for. */
    method TaskFor(a: Action, entity: string, id: string) returns (t: Option<TaskSpec>)
      ensures t == ActionTask(a, entity, id)
    {
      if a.kind == "agent" {
        return Some(TaskSpec(AgentTask, a.role, entity, id, a.task, a.args));
      } else if a.kind == "escalate" {
        return Some(TaskSpec(Escalation, a.role, entity, id, "escalation", ""));
      } else if a.kind == "notify" {
        return Some(TaskSpec(Notification, "", entity, id, "", a.args));
      } else if a.kind == "webhook" {
        return Some(TaskSpec(Webhook, "", entity, id, "", a.args));
      }
      return None;
    }

    /** Fires the create or update rules of a record's entity. */
    method RunEventTriggers(trigger: string, rid: Rid, now: int)
      requires Valid() && rid in records
      modifies this, store
      ensures Valid() && S() == Triggers(env, old(S()), trigger, rid, old(model).automations, now)
    {
      var rules := model.automations;
      ghost var start := S();
      assert rules[0..] == rules;
      for i := 0 to |rules|
        invariant Valid() && rid in records
        invariant Triggers(env, S(), trigger, rid, rules[i..], now) == Triggers(env, start, trigger, rid, rules, now)
      {
        hide Fire, GuardHolds;
        var rule := rules[i];
        assert rules[i..][0] == rule && rules[i..][1..] == rules[i + 1..];
        if rule.trigger != trigger || rule.entity != rid.entity || !Enabled(rule.when, rid, NOBODY, now) {
          continue;
        }
        ghost var before := S();
        FireActions(rule, rid.entity, rid.id, Unkeyed, now);
        FireKeepsRecords(env, before, rule, rid.entity, rid.id, Unkeyed, 0, now);
      }
      assert rules[|rules|..] == [];
    }

    // ---- records ----------------------------------------------------------------------------

    /** Unset serial fields take the number after the largest one stored. */
    method FillSerials(entity: string, fields: seq<Field>, values: Fields, now: int) returns (out: Fields)
      ensures out == AssignSerials(env, Projected(), entity, fields, values, now)
    {
      out := values;
      assert fields[0..] == fields;
      for i := 0 to |fields|
        invariant AssignSerials(env, Projected(), entity, fields[i..], out, now) ==
                  AssignSerials(env, Projected(), entity, fields, values, now)
      {
        var f := fields[i];
        assert fields[i..][0] == f && fields[i..][1..] == fields[i + 1..];
        if f.ty != Scalar("serial") || Get(out, f.name) !in {Null, Str("")} {
          continue;
        }
        var next := Serial.NextSerial(Column(Projected(), entity, f.name), f.format);
        out := out[f.name := Str(Serial.FormatSerial(f.format, next, env.year(now)))];
      }
      assert fields[|fields|..] == [];
    }

    /** Absent fields take their defaults, which may read the values filled so far. */
    method FillDefaults(fields: seq<Field>, values: Fields, actorId: string, now: int) returns (out: Fields)
      ensures out == WithDefaults(env, Projected(), fields, values, actorId, now)
    {
      out := values;
      assert fields[0..] == fields;
      for i := 0 to |fields|
        invariant WithDefaults(env, Projected(), fields[i..], out, actorId, now) ==
                  WithDefaults(env, Projected(), fields, values, actorId, now)
      {
        var f := fields[i];
        assert fields[i..][0] == f && fields[i..][1..] == fields[i + 1..];
        if f.name in out || f.default == "" || f.computed != "" {
          continue;
        }
        var d := env.defaultValue(f.default, records, out, actorId, now);
        if d.Some? {
          out := out[f.name := d.value];
        }
      }
      assert fields[|fields|..] == [];
    }

    /** The checks of a creation, in the order they are made. */
    method CheckCreate(actor: Actor, entity: string, values: Fields, now: int) returns (r: Result<Fields, Error>)
      ensures r == CreateCheck(env, Projected(), actor, entity, values, now)
    {
      hide Can, AssignSerials, WithDefaults, GivenOk, RequiredPresent, RefsExist, UniqueCheck, IdsOf;
      if entity !in model.entities {
        return Failure(NotFound);
      }
      var decl := model.entities[entity];
      if !Can(env, Projected(), actor, "create", entity, "", None, now) {
        return Failure(PermissionDenied);
      }
      if decl.singleton && IdsOf(records, entity) != {} {
        return Failure(Conflict);
      }
      if TouchesState(model, entity, values) {
        return Failure(ValidationError);
      }
      var vals := FillSerials(entity, decl.fields, values, now);
      if !GivenOk(env, decl.fields, vals) {
        return Failure(ValidationError);
      }
      vals := FillDefaults(decl.fields, vals, actor.id, now);
      if !RequiredPresent(decl.fields, vals) {
        return Failure(ValidationError);
      }
      if !FieldWritesOk(env, Projected(), actor, "create", entity, vals, None, now) {
        return Failure(PermissionDenied);
      }
      if !RefsExist(records, decl.fields, vals) {
        return Failure(ValidationError);
      }
      var clash := UniqueCheck(records, decl, entity, vals, "");
      if clash.Some? {
        return Failure(clash.value);
      }
      return Success(vals);
    }

    /** Journals the creation and projects the record, unless the id the journal answers with is known. */
    method StoreNew(actor: Actor, entity: string, values: Fields, basis: Option<Basis>, key: Key, now: int)
      returns (rid: Rid, added: bool)
      requires Valid() && actor.id != ""
      modifies this, store
      ensures Valid()
      ensures var s, prior := old(S()), Prior(old(Log(store.events)), key);
        && rid == Rid(entity, if prior.None? then env.ids(|s.log|) else prior.value.subject.recordId)
        && added == (rid !in s.view.records)
        && (added ==> rid in records)
        && S() == CommitCreation(env, s, CreatedEntry(s, actor, Rid(entity, env.ids(|s.log|)), values, basis, key, now))
    {
      hide Coherent;
      LogLength(store.events);
      var e := Entry(actor, RecordSubject(Rid(entity, env.ids(|store.events|))), RecordCreated(values), basis,
        defVersion, key, now);
      ghost var s := S();
      assert e == CreatedEntry(s, actor, Rid(entity, env.ids(|s.log|)), values, basis, key, now);
      CreationIs(env, s, e, values);
      hide CommitCreation;
      var stored := Append(e, None);
      rid := Rid(entity, stored.value.subject.recordId);
      if rid in records {
        return rid, false;
      }
      ProjectNew(rid, values, stored.value.ts);
      return rid, true;
    }

    method ProjectNew(rid: Rid, values: Fields, ts: int)
      requires Valid()
      modifies this`records, this`since, this`idxCache
      ensures Valid()
      ensures records == old(records)[rid := values] && since == old(since)[rid := ts]
    {
      records := records[rid := values];
      DropIndex(rid.entity);
      DropKeepsCoherent(old(idxCache), old(records), records, render, rid.entity);
      SetStateSince(rid, ts);
    }

    method Create(actor: Actor, entity: string, values: Fields, basis: Option<Basis>, key: Key, now: int)
      returns (error: Option<Error>)
      requires Valid()
      modifies this, store
      ensures Valid()
      ensures Outcome(S(), error) == Steps.Create(env, old(S()), actor, entity, values, basis, key, now)
    {
      hide CreateCheck, After, CommitCreation, Coherent;
      if basis.None? {
        return Some(BasisRequired);
      }
      var prior := store.ByIdemKey(key);
      if prior.Some? && RidOf(prior.value.entry.subject) in records {
        return None;
      }
      var checked := CheckCreate(actor, entity, values, now);
      if checked.Failure? {
        return Some(checked.error);
      }
      if actor.id == "" {
        return Some(EmptyActor);
      }
      var rid, added := StoreNew(actor, entity, checked.value, basis, key, now);
      if added {
        AfterWrite("create", rid, now);
      }
      return None;
    }

    /** What follows every write to a record: it settles, then its rules fire. */
    method AfterWrite(trigger: string, rid: Rid, now: int)
      requires Valid() && rid in records
      modifies this, store
      ensures Valid() && S() == After(env, old(S()), trigger, rid, now)
    {
      hide Settle, Triggers;
      ghost var before := S();
      RunAutoTransitions(rid, now);
      SettleKeepsRecord(env, before, rid, now);
      RunEventTriggers(trigger, rid, now);
    }

    method CheckUpdate(actor: Actor, rid: Rid, values: Fields, now: int) returns (r: Result<map<string, Change>, Error>)
      ensures r == UpdateCheck(env, Projected(), actor, rid, values, now)
    {
      hide Can, GivenOk, RefsExist, UniqueCheck, Changes;
      if rid.entity !in model.entities || rid !in records {
        return Failure(NotFound);
      }
      var decl, record := model.entities[rid.entity], records[rid];
      if TouchesState(model, rid.entity, values) {
        return Failure(ValidationError);
      }
      if !Can(env, Projected(), actor, "update", rid.entity, "", Some(record), now) {
        return Failure(PermissionDenied);
      }
      if !FieldWritesOk(env, Projected(), actor, "update", rid.entity, values, Some(record), now) {
        return Failure(PermissionDenied);
      }
      if !GivenOk(env, decl.fields, values) || !RefsExist(records, decl.fields, values) {
        return Failure(ValidationError);
      }
      var clash := UniqueCheck(records, decl, rid.entity, record + values, rid.id);
      if clash.Some? {
        return Failure(clash.value);
      }
      if exists k :: k in values && Uncomparable(Get(record, k), values[k]) {
        return Failure(Panicked);
      }
      return Success(Changes(record, values));
    }

    /** Journals the changes and makes them on the live record, whatever the journal answers. */
    method StoreChanges(actor: Actor, rid: Rid, changes: map<string, Change>, basis: Option<Basis>, key: Key, now: int)
      requires Valid() && rid in records && actor.id != ""
      modifies this, store
      ensures Valid() && rid in records
      ensures var s := old(S());
        var e := UpdatedEntry(s, actor, rid, changes, basis, key, now);
        S() == if Prior(s.log, key).None? then Commit(env, s, e) else Shadow(env, s, e)
    {
      hide Coherent, ApplyChanges;
      var e := Entry(actor, RecordSubject(rid), RecordUpdated(changes), basis, defVersion, key, now);
      var stored := Append(e, None);
      ProjectChanges(rid, changes);
    }

    method ProjectChanges(rid: Rid, changes: map<string, Change>)
      requires Valid() && rid in records
      modifies this`records, this`idxCache
      ensures Valid() && records == old(records)[rid := ApplyChanges(old(records)[rid], changes)]
    {
      records := records[rid := ApplyChanges(records[rid], changes)];
      DropIndex(rid.entity);
      DropKeepsCoherent(old(idxCache), old(records), records, render, rid.entity);
    }

    method Update(actor: Actor, rid: Rid, values: Fields, basis: Option<Basis>, key: Key, now: int)
      returns (error: Option<Error>)
      requires Valid()
      modifies this, store
      ensures Valid()
      ensures Outcome(S(), error) == Steps.Update(env, old(S()), actor, rid, values, basis, key, now)
    {
      UpdateFindsRecord(env, Projected(), actor, rid, values, now);
      hide After, UpdateCheck, Coherent, Commit, Shadow;
      if basis.None? {
        return Some(BasisRequired);
      }
      var checked := CheckUpdate(actor, rid, values, now);
      if checked.Failure? {
        return Some(checked.error);
      }
      if checked.value == map[] {
        return None;
      }
      if actor.id == "" {
        return Some(EmptyActor);
      }
      StoreChanges(actor, rid, checked.value, basis, key, now);
      AfterWrite("update", rid, now);
      return None;
    }

    // ---- workflow -----------------------------------------------------------------------------

    /** The first named transition with this action out of the current state. */
    method FindNamed(transitions: seq<Transition>, action: string, current: string) returns (r: Option<Transition>)
      ensures r == FindTransition(transitions, action, current)
    {
      assert transitions[0..] == transitions;
      for i := 0 to |transitions|
        invariant FindTransition(transitions, action, current) == FindTransition(transitions[i..], action, current)
      {
        var tr := transitions[i];
        assert transitions[i..][0] == tr && transitions[i..][1..] == transitions[i + 1..];
        if tr.action == action && !tr.auto && (tr.from == current || tr.from == "any") {
          return Some(tr);
        }
      }
      return None;
    }

    method CheckAct(actor: Actor, rid: Rid, action: string, now: int) returns (r: Result<Transition, Error>)
      ensures r == ActCheck(env, Projected(), actor, rid, action, now)
    {
      hide GuardHolds, CanNamed;
      if rid.entity !in model.entities {
        return Failure(NotFound);
      }
      if rid.entity !in model.workflows {
        return Failure(ValidationError);
      }
      if rid !in records {
        return Failure(NotFound);
      }
      if !CanNamed(model.perms, actor.role, "act", action) {
        return Failure(PermissionDenied);
      }
      var wf := model.workflows[rid.entity];
      var tr := FindNamed(wf.transitions, action, AsString(Get(records[rid], wf.field)));
      if tr.None? {
        return Failure(ValidationError);
      }
      if !Enabled(tr.value.when, rid, actor, now) {
        return Failure(GuardFailed);
      }
      return Success(tr.value);
    }

    /** Parks a transition that requires approval. */
    method RequestApproval(actor: Actor, rid: Rid, tr: Transition, from: string, basis: Option<Basis>, key: Key,
                           now: int)
      requires Valid() && actor.id != ""
      modifies this, store
      ensures Valid()
      ensures var s := old(S());
        var e := RequestEntry(s, env.ids(|s.log|), actor, rid, tr, from, basis, key, now);
        S() == if Prior(s.log, key).None? then Commit(env, s, e) else Shadow(env, s, e)
    {
      LogLength(store.events);
      var id := env.ids(|store.events|);
      var e := Entry(actor, NO_SUBJECT.(approvalId := id),
                     ApprovalRequested(rid.entity, rid.id, tr.action, from, tr.to, tr.approvalRole), basis, defVersion,
                       key, now);
      var stored := Append(e, None);
      approvals := approvals[id :=
        Approval(rid.entity, rid.id, tr.action, from, tr.to, tr.approvalRole, actor, Pending)];
    }

    method Act(actor: Actor, rid: Rid, action: string, basis: Option<Basis>, key: Key, now: int)
      returns (error: Option<Error>)
      requires Valid()
      modifies this, store
      ensures Valid()
      ensures Outcome(S(), error) == Steps.Act(env, old(S()), actor, rid, action, basis, key, now)
    {
      ActFindsRecord(env, Projected(), actor, rid, action, now);
      hide Settle, CommitTransition, ActCheck, Coherent, Commit, Shadow;
      if basis.None? {
        return Some(BasisRequired);
      }
      var checked := CheckAct(actor, rid, action, now);
      if checked.Failure? {
        return Some(checked.error);
      }
      if actor.id == "" {
        return Some(EmptyActor);
      }
      var tr, current := checked.value, AsString(Get(records[rid], model.workflows[rid.entity].field));
      if tr.approvalRole != "" {
        RequestApproval(actor, rid, tr, current, basis, key, now);
        return None;
      }
      var ok := ApplyTransition(actor, rid, tr, current, basis, key, now);
      RunAutoTransitions(rid, now);
      return None;
    }

    method Decide(actor: Actor, id: string, grant: bool, signature: Option<Bytes>, basis: Option<Basis>, now: int)
      returns (error: Option<Error>)
      requires Valid()
      modifies this, store
      ensures Valid()
      ensures Outcome(S(), error) == Steps.Decide(env, old(S()), actor, id, grant, signature, basis, now)
    {
      hide Settle, CommitTransition, CanNamed;
      if basis.None? {
        return Some(BasisRequired);
      }
      if id !in approvals {
        return Some(NotFound);
      }
      var a := approvals[id];
      if a.status != Pending {
        return Some(Conflict);
      }
      if !CanNamed(model.perms, actor.role, "approve", a.action) {
        return Some(PermissionDenied);
      }
      if !SignatureOk(env, actor.id, ApprovalMessage(id, grant), signature) {
        return Some(PermissionDenied);
      }
      if actor.id == "" {
        return Some(EmptyActor);
      }
      JournalVerdict(actor, id, grant, signature, basis, now);
      if !grant {
        return None;
      }
      hide Commit, Coherent, SignatureOk;
      error := ExecuteApproved(actor, id, a, now);
    }

    /** Journals the decision and settles the approval. */
    method JournalVerdict(actor: Actor, id: string, grant: bool, signature: Option<Bytes>, basis: Option<Basis>,
                          now: int)
      requires Valid() && id in approvals && actor.id != ""
      modifies this`approvals, store
      ensures Valid()
      ensures S() == Commit(env, old(S()), DecisionEntry(old(S()), actor, id, old(approvals[id]), grant, basis, now))
    {
      hide Coherent;
      var a := approvals[id];
      var body := if grant then ApprovalGranted(a.entity, a.recordId, a.action, a.from, a.to, a.role)
                  else ApprovalRejected(a.entity, a.recordId, a.action, a.from, a.to, a.role);
      var stored := Append(Entry(actor, NO_SUBJECT.(approvalId := id), body, basis, defVersion, NoKey, now), signature);
      approvals := approvals[id := a.(status := if grant then Granted else Rejected)];
    }

    /** Moves the record a granted approval is about, if it is still where the request found it. */
    method ExecuteApproved(actor: Actor, id: string, a: Approval, now: int) returns (error: Option<Error>)
      requires Valid() && actor.id != ""
      modifies this, store
      ensures Valid()
      ensures Outcome(S(), error) == MoveApproved(env, old(S()), actor, id, a, now)
    {
      hide Settle, CommitTransition, Coherent;
      var rid := Rid(a.entity, a.recordId);
      if rid !in records {
        return Some(NotFound);
      }
      if rid.entity !in model.workflows {
        return Some(Panicked);
      }
      var current := AsString(Get(records[rid], model.workflows[rid.entity].field));
      if current != a.from {
        return Some(Conflict);
      }
      var tr := Transition(a.from, a.to, a.action, false, "", "", "");
      var moved := ApplyTransition(actor, rid, tr, current, Some(Basis("approval", id)), NoKey, now);
      RunAutoTransitions(rid, now);
      return None;
    }

    // ---- leases -------------------------------------------------------------------------------

    /** Appends an event about a task on an actor's behalf. */
    method AppendTaskEvent(actor: Actor, id: string, body: Body, basis: Basis, now: int) returns (ok: bool)
      requires Valid()
      modifies store
      ensures Valid()
      ensures ok <==> actor.id != ""
      ensures Log(store.events) == old(Log(store.events)) +
        if ok then [TaskEvent(old(S()), actor, id, body, basis, now)] else []
    {
      var stored := Append(Entry(actor, NO_SUBJECT.(taskId := id), body, Some(basis), defVersion, NoKey, now), None);
      ok := stored.Some?;
    }

    /** An overdue lease returns its task to the pool. */
    method ExpireIfDue(id: string, now: int)
      requires Valid() && id in tasks
      modifies this`tasks, store
      ensures Valid() && S() == Expire(env, old(S()), id, now) && tasks.Keys == old(tasks.Keys)
    {
      var t := tasks[id];
      if t.status != Taken || now < t.leaseUntil {
        return;
      }
      var ok := AppendTaskEvent(WORKFLOW_ENGINE, id, TaskExpired, Basis("rule", "lease-ttl"), now);
      tasks := tasks[id := t.(status := Open, takenBy := "")];
    }

    method TakeTask(actor: Actor, id: string, now: int) returns (error: Option<Error>)
      requires Valid()
      modifies this`tasks, store
      ensures Valid()
      ensures Outcome(S(), error) == Steps.TakeTask(env, old(S()), actor, id, now)
    {
      hide Expire, Coherent;
      if id !in tasks {
        return Some(NotFound);
      }
      ExpireIfDue(id, now);
      var t := tasks[id];
      if t.status != Open {
        return Some(Conflict);
      }
      if t.role != actor.role {
        return Some(PermissionDenied);
      }
      var lease := now + env.taskTTL;
      var ok := AppendTaskEvent(actor, id, TaskTaken(lease), Basis("task", id), now);
      if !ok {
        return Some(EmptyActor);
      }
      tasks := tasks[id := t.(status := Taken, takenBy := actor.id, leaseUntil := lease)];
      return None;
    }

    /** Counts the journal's events by an actor on a record. */
    method CountActorEvents(actorId: string, entity: string, recordId: string) returns (n: nat)
      requires Valid()
      ensures n == FactsBy(Log(store.events), actorId, entity, recordId)
    {
      n := 0;
      ghost var log := Log(store.events);
      for i := 0 to |store.events|
        invariant n == FactsBy(log[..i], actorId, entity, recordId)
      {
        var e := store.events[i].entry;
        assert log[..i + 1][..i] == log[..i] && log[i] == e;
        if e.actor.id == actorId && e.subject.entity == entity && e.subject.recordId == recordId
           && (e.body.RecordCreated? || e.body.RecordUpdated? || e.body.RecordAction?) {
          n := n + 1;
        }
      }
      assert log[..|log|] == log;
    }

    method ReportProgress(actor: Actor, id: string, note: string, now: int) returns (error: Option<Error>)
      requires Valid()
      modifies store
      ensures Valid()
      ensures Outcome(S(), error) == Steps.ReportProgress(env, old(S()), actor, id, note, now)
    {
      hide FactsBy, Coherent;
      if id !in tasks || tasks[id].takenBy != actor.id || tasks[id].status != Taken {
        return Some(Conflict);
      }
      var facts := CountActorEvents(actor.id, tasks[id].entity, tasks[id].recordId);
      var ok := AppendTaskEvent(actor, id, TaskProgress(note, facts), Basis("task", id), now);
      return if ok then None else Some(EmptyActor);
    }

    method FinishTask(actor: Actor, id: string, success: bool, text: string, now: int) returns (error: Option<Error>)
      requires Valid()
      modifies this`tasks, store
      ensures Valid()
      ensures Outcome(S(), error) == Steps.FinishTask(env, old(S()), actor, id, success, text, now)
    {
      hide Expire, Coherent, Commit;
      if id !in tasks {
        return Some(NotFound);
      }
      ExpireIfDue(id, now);
      if tasks[id].status != Taken || tasks[id].takenBy != actor.id {
        return Some(Conflict);
      }
      var ok := CloseTask(actor, id, success, text, now);
      return if ok then None else Some(EmptyActor);
    }

    /** Journals the end of a task and closes it. */
    method CloseTask(actor: Actor, id: string, success: bool, text: string, now: int) returns (ok: bool)
      requires Valid() && id in tasks
      modifies this`tasks, store
      ensures Valid() && (ok <==> actor.id != "")
      ensures var body := if success then TaskCompleted(text) else TaskFailed(text);
        S() == if ok then Commit(env, old(S()), TaskEvent(old(S()), actor, id, body, Basis("task", id), now))
          else old(S())
    {
      hide Coherent;
      ok := AppendTaskEvent(actor, id, if success then TaskCompleted(text) else TaskFailed(text), Basis("task", id),
        now);
      if ok {
        tasks := tasks[id := tasks[id].(status := if success then Completed else Failed)];
      }
    }

    // ---- the clock tick ---------------------------------------------------------------------------

    method RunSchedule(rule: Rule, now: int)
      requires Valid() && rule.trigger == "schedule"
      modifies this, store
      ensures Valid() && S() == RunRule(env, old(S()), rule, now)
    {
      if rule.entity == "" {
        FireActions(rule, "", "", Daily(now / DAY), now);
        return;
      }
      var ids := SortedIds(IdsOf(records, rule.entity));
      ghost var start := S();
      assert ids[0..] == ids;
      for i := 0 to |ids|
        invariant Valid() && Schedule(env, S(), rule, ids[i..], now) == Schedule(env, start, rule, ids, now)
      {
        hide Fire, GuardHolds;
        assert ids[i..][0] == ids[i] && ids[i..][1..] == ids[i + 1..];
        var rid := Rid(rule.entity, ids[i]);
        if rid !in records || !Enabled(rule.when, rid, NOBODY, now) {
          continue;
        }
        FireActions(rule, rule.entity, ids[i], Daily(now / DAY), now);
      }
      assert ids[|ids|..] == [];
    }

    method RunStuck(rule: Rule, now: int)
      requires Valid() && rule.trigger == "stuck"
      modifies this, store
      ensures Valid() && S() == RunRule(env, old(S()), rule, now)
    {
      var d := ParseDuration(rule.stuckFor);
      if d.None? || rule.entity !in model.workflows {
        return;
      }
      var ids := SortedIds(IdsOf(records, rule.entity));
      ghost var start := S();
      assert ids[0..] == ids;
      for i := 0 to |ids|
        invariant Valid() && Stuck(env, S(), rule, d.value, ids[i..], now) == Stuck(env, start, rule, d.value, ids, now)
      {
        hide Fire;
        assert ids[i..][0] == ids[i] && ids[i..][1..] == ids[i + 1..];
        var rid := Rid(rule.entity, ids[i]);
        if !StuckDue(Projected(), rule, ids[i], d.value, now) {
          continue;
        }
        FireActions(rule, rule.entity, ids[i], PerStateEntry(since[rid]), now);
      }
      assert ids[|ids|..] == [];
    }

    /** Runs schedule and stuck rules, then sweeps expired leases. */
    method Tick(now: int)
      requires Valid()
      modifies this, store
      ensures Valid() && S() == Steps.Tick(env, old(S()), now)
    {
      var rules := model.automations;
      ghost var start := S();
      assert rules[0..] == rules;
      for i := 0 to |rules|
        invariant Valid() && RunRules(env, S(), rules[i..], now) == RunRules(env, start, rules, now)
      {
        hide Fire, Schedule, Stuck;
        var rule := rules[i];
        assert rules[i..][0] == rule && rules[i..][1..] == rules[i + 1..];
        if rule.trigger == "schedule" {
          RunSchedule(rule, now);
        } else if rule.trigger == "stuck" {
          RunStuck(rule, now);
        }
      }
      assert rules[|rules|..] == [];
      SweepLeases(now);
    }

    method SweepLeases(now: int)
      requires Valid()
      modifies this`tasks, store
      ensures Valid() && S() == ExpireAll(env, old(S()), SortedIds(old(tasks.Keys)), now)
    {
      var ids := SortedIds(tasks.Keys);
      ghost var start := S();
      assert ids[0..] == ids;
      for i := 0 to |ids|
        invariant Valid() && tasks.Keys == old(tasks.Keys)
        invariant ExpireAll(env, S(), ids[i..], now) == ExpireAll(env, start, ids, now)
      {
        hide ExpireAll, Expire, Coherent, SortedIds;
        ExpireStep(env, S(), ids, i, now);
        ExpireIfDue(ids[i], now);
      }
      assert ids[|ids|..] == [];
    }

    // ---- the definition pipeline --------------------------------------------------------------------

    method ProposeChange(actor: Actor, files: map<string, string>, base: nat, description: string,
                         basis: Option<Basis>, now: int) returns (error: Option<Error>)
      requires Valid()
      modifies this`proposals, store
      ensures Valid()
      ensures Outcome(S(), error) == Steps.ProposeChange(env, old(S()), actor, files, base, description, basis, now)
    {
      hide Additive, Coherent;
      if basis.None? {
        return Some(BasisRequired);
      }
      if base != defVersion {
        return Some(StaleBase);
      }
      var next := env.compile(files);
      if next.None? || !Additive(model, next.value) {
        return Some(ValidationError);
      }
      if actor.id == "" {
        return Some(EmptyActor);
      }
      hide Commit;
      ParkProposal(actor, files, base, description, basis, now);
      return None;
    }

    method ParkProposal(actor: Actor, files: map<string, string>, base: nat, description: string, basis: Option<Basis>,
                        now: int)
      requires Valid() && actor.id != ""
      modifies this`proposals, store
      ensures Valid()
      ensures var s := old(S());
        S() == Commit(env, s, ProposedEntry(s, actor, env.ids(|s.log|), files, base, description, basis, now))
    {
      hide Coherent;
      LogLength(store.events);
      var id := env.ids(|store.events|);
      var e := Entry(actor, NO_SUBJECT.(proposalId := id), DefinitionProposed(description, base, files), basis,
        defVersion, NoKey, now);
      var stored := Append(e, None);
      proposals := proposals[id := Proposal(description, actor, base, files, Parked)];
    }

    method CheckDecision(actor: Actor, id: string, grant: bool, signature: Option<Bytes>)
      returns (refused: Option<Error>)
      ensures refused == ProposalCheck(env, Projected(), actor, id, grant, signature)
    {
      hide SignatureOk;
      if id !in proposals {
        return Some(NotFound);
      }
      if proposals[id].status != Parked {
        return Some(Conflict);
      }
      if !actor.kind.Human? || actor.role != env.approver {
        return Some(PermissionDenied);
      }
      if proposals[id].base != defVersion {
        return Some(StaleBase);
      }
      if !SignatureOk(env, actor.id, DefinitionMessage(id, grant), signature) {
        return Some(PermissionDenied);
      }
      return None;
    }

    method JournalDecision(actor: Actor, id: string, grant: bool, signature: Option<Bytes>, basis: Option<Basis>,
                           now: int)
      requires Valid() && id in proposals && actor.id != ""
      modifies this`proposals, store
      ensures Valid() && id in proposals && proposals[id].files == old(proposals[id].files)
      ensures var body := if grant then DefinitionApproved(id) else DefinitionRejected(id);
        S() == Commit(env, old(S()), ProposalEntry(old(S()), actor, id, body, basis, now))
    {
      hide Coherent;
      var body := if grant then DefinitionApproved(id) else DefinitionRejected(id);
      var stored := Append(Entry(actor, NO_SUBJECT.(proposalId := id), body, basis, defVersion, NoKey, now), signature);
      proposals := proposals[id := proposals[id].(status := if grant then Approved else Refused)];
    }

    /** Journals the application and swaps the model in. */
    method SwapIn(actor: Actor, id: string, next: Model, now: int)
      requires Valid() && id in proposals && actor.id != ""
      modifies this`proposals, this`model, this`defVersion, store
      ensures Valid()
      ensures var t := old(S());
        S() == State(Swap(t.view, next, id),
                     t.log + [ProposalEntry(t, actor, id, DefinitionApplied(id), Some(Basis("approval", id)), now)])
    {
      hide Coherent;
      var applied := Append(Entry(actor, NO_SUBJECT.(proposalId := id), DefinitionApplied(id),
                                  Some(Basis("approval", id)), defVersion, NoKey, now), None);
      model := next;
      defVersion := defVersion + 1;
      proposals := proposals[id := proposals[id].(status := Applied)];
    }

    method DecideProposal(actor: Actor, id: string, grant: bool, signature: Option<Bytes>, basis: Option<Basis>,
                          now: int)
      returns (error: Option<Error>)
      requires Valid()
      modifies this`proposals, this`model, this`defVersion, store
      ensures Valid()
      ensures Outcome(S(), error) == Steps.DecideProposal(env, old(S()), actor, id, grant, signature, basis, now)
    {
      DecisionFindsProposal(env, Projected(), actor, id, grant, signature);
      hide Coherent, ProposalCheck, Commit, Swap;
      if basis.None? {
        return Some(BasisRequired);
      }
      var refused := CheckDecision(actor, id, grant, signature);
      if refused.Some? {
        return refused;
      }
      if actor.id == "" {
        return Some(EmptyActor);
      }
      JournalDecision(actor, id, grant, signature, basis, now);
      if !grant {
        return None;
      }
      var next := env.compile(proposals[id].files);
      if next.None? {
        return Some(ValidationError);
      }
      SwapIn(actor, id, next.value, now);
      return None;
    }

    method ApplyAdditive(actor: Actor, next: Model, basis: Option<Basis>, now: int) returns (error: Option<Error>)
      requires Valid()
      modifies this`model, this`defVersion, store
      ensures Valid()
      ensures Outcome(S(), error) == Steps.ApplyAdditive(old(S()), actor, next, basis, now)
    {
      hide Additive, Coherent;
      if !Additive(model, next) {
        return Some(ValidationError);
      }
      var stored := Append(Entry(actor, NO_SUBJECT, DefinitionApplied(""), basis, defVersion, NoKey, now), None);
      if stored.None? {
        return Some(EmptyActor);
      }
      model := next;
      defVersion := defVersion + 1;
      return None;
    }

    // ---- links ----------------------------------------------------------------------------------------

    method Link(actor: Actor, rid: Rid, name: string, other: string, basis: Option<Basis>, now: int)
      returns (error: Option<Error>)
      requires Valid()
      modifies this`links, store
      ensures Valid()
      ensures Outcome(S(), error) == Steps.Link(env, old(S()), actor, rid, name, other, basis, now)
    {
      hide Can, Coherent;
      if basis.None? {
        return Some(BasisRequired);
      }
      var found := LinkByName(model.links, rid.entity, name);
      if found.None? {
        return Some(ValidationError);
      }
      if !Can(env, Projected(), actor, "update", rid.entity, "", None, now) {
        return Some(PermissionDenied);
      }
      var (decl, forward) := found.value;
      var from, to := rid.id, other;
      if !forward {
        from, to := other, rid.id;
      }
      if Rid(decl.from, from) !in records || Rid(decl.to, to) !in records {
        return Some(NotFound);
      }
      var fact := LinkFact(decl.forward, from, to);
      if LinkKey(fact) in links {
        return None;
      }
      hide Commit;
      var ok := StoreLink(actor, rid, fact, true, basis, now);
      return if ok then None else Some(EmptyActor);
    }

    /** Journals a link fact and adds it to, or takes it from, the live links. */
    method StoreLink(actor: Actor, rid: Rid, fact: LinkFact, added: bool, basis: Option<Basis>, now: int)
      returns (ok: bool)
      requires Valid()
      modifies this`links, store
      ensures Valid() && (ok <==> actor.id != "")
      ensures var body := if added then LinkAdded(fact) else LinkRemoved(fact);
        S() == if ok then Commit(env, old(S()), LinkEntry(old(S()), actor, rid, body, basis, now)) else old(S())
    {
      hide Coherent, LinkKey;
      var body := if added then LinkAdded(fact) else LinkRemoved(fact);
      var stored := Append(Entry(actor, RecordSubject(rid), body, basis, defVersion, NoKey, now), None);
      if stored.None? {
        return false;
      }
      links := if added then links[LinkKey(fact) := fact] else links - {LinkKey(fact)};
      return true;
    }

    method Unlink(actor: Actor, rid: Rid, name: string, other: string, basis: Option<Basis>, now: int)
      returns (error: Option<Error>)
      requires Valid()
      modifies this`links, store
      ensures Valid()
      ensures Outcome(S(), error) == Steps.Unlink(env, old(S()), actor, rid, name, other, basis, now)
    {
      hide Can, Coherent;
      if basis.None? {
        return Some(BasisRequired);
      }
      var found := LinkByName(model.links, rid.entity, name);
      if found.None? {
        return Some(ValidationError);
      }
      if !Can(env, Projected(), actor, "update", rid.entity, "", None, now) {
        return Some(PermissionDenied);
      }
      var (decl, forward) := found.value;
      var from, to := rid.id, other;
      if !forward {
        from, to := other, rid.id;
      }
      var fact := LinkFact(decl.forward, from, to);
      if LinkKey(fact) !in links {
        return Some(NotFound);
      }
      hide Commit;
      var ok := StoreLink(actor, rid, fact, false, basis, now);
      return if ok then None else Some(EmptyActor);
    }

    // ---- queries ---------------------------------------------------------------------------------------

    /** The entity's index, rebuilt when it is missing or its record count is stale. */
    method GetIndex(entity: string) returns (idx: EntityIndex)
      requires Valid()
      modifies this`idxCache
      ensures Valid() && Exact(idx, records, render, entity) && entity in idxCache && idxCache[entity] == idx
    {
      if entity in idxCache && idxCache[entity].count == |IdsOf(records, entity)| {
        return idxCache[entity];
      }
      idx := Build(records, render, entity, Queries.IndexedFields(model, entity));
      idxCache := idxCache[entity := idx];
    }

    /** The first term of a clause over an indexed field, and the key the actor gives it. */
    method ScopeValue(where: string, idx: EntityIndex, actor: Actor) returns (r: Option<(string, string)>)
      ensures var t := Queries.FirstIndexed(Scope.ScopeTerms(where), idx.byField.Keys);
        r == if t.None? then None else Some((t.value.field, Queries.ScopeKey(t.value, actor, render)))
    {
      var terms := Scope.ScopeTerms(where);
      assert terms[0..] == terms;
      for i := 0 to |terms|
        invariant Queries.FirstIndexed(terms, idx.byField.Keys) == Queries.FirstIndexed(terms[i..], idx.byField.Keys)
      {
        assert terms[i..][0] == terms[i] && terms[i..][1..] == terms[i + 1..];
        if terms[i].field !in idx.byField {
          continue;
        }
        return Some((terms[i].field, Queries.ScopeKey(terms[i], actor, render)));
      }
      return None;
    }

    /** The ids the actor's read rules could allow, or None when every row must be scanned. */
    method CandidateIds(entity: string, actor: Actor) returns (r: Option<set<string>>, ghost idx: EntityIndex)
      requires Valid()
      modifies this`idxCache
      ensures Valid() && Exact(idx, records, render, entity)
      ensures r == Queries.Candidates(idx, model, entity, actor, render)
    {
      var index := GetIndex(entity);
      idx := index;
      if actor.role !in model.perms {
        return None, idx;
      }
      var items := Queries.ReadItems(model.perms[actor.role], entity);
      if items == [] {
        return None, idx;
      }
      r := UnionOfBuckets(index, items, actor);
    }

    /** The loop over a role's read items. */
    method UnionOfBuckets(idx: EntityIndex, items: seq<PermItem>, actor: Actor) returns (r: Option<set<string>>)
      ensures r == Queries.Buckets(idx, items, actor, render)
    {
      var cand: set<string> := {};
      assert items[0..] == items;
      AddBuckets({}, Queries.Buckets(idx, items, actor, render));
      for i := 0 to |items|
        invariant Queries.Buckets(idx, items, actor, render) ==
          Joined(cand, Queries.Buckets(idx, items[i..], actor, render))
      {
        hide Joined, Bucket;
        assert items[i..][0] == items[i] && items[i..][1..] == items[i + 1..];
        var bucket := BucketFor(idx, items[i], actor);
        if bucket.None? {
          JoinedNone(cand);
          return None;
        }
        JoinedStep(cand, bucket.value, Queries.Buckets(idx, items[i + 1..], actor, render));
        cand := cand + bucket.value;
      }
      assert items[|items|..] == [];
      AddBuckets(cand, Some({}));
      return Some(cand);
    }

    method BucketFor(idx: EntityIndex, item: PermItem, actor: Actor) returns (r: Option<set<string>>)
      ensures r == Queries.ItemBucket(idx, item, actor, render)
    {
      hide Scope.ScopeTerms, Scope.HasPart;
      if item.where == "" || item.all || Scope.HasPart(Conditions.Collapse(item.where), " or ") {
        return None;
      }
      var scope := ScopeValue(item.where, idx, actor);
      return if scope.None? then None else Some(Bucket(idx, scope.value.0, scope.value.1));
    }

    /** The readable rows that match, among the given ids. */
    method SelectRows(actor: Actor, entity: string, opts: Queries.QueryOpts, ids: seq<string>, now: int)
      returns (out: seq<Queries.Row>)
      ensures out == Queries.Select(env, Projected(), actor, entity, opts, ids, now)
    {
      hide Queries.Readable, Queries.Wanted, Queries.RowOf;
      out := [];
      assert ids[0..] == ids;
      for i := 0 to |ids|
        invariant Queries.Select(env, Projected(), actor, entity, opts, ids, now) ==
                  out + Queries.Select(env, Projected(), actor, entity, opts, ids[i..], now)
      {
        hide Queries.Select;
        SelectStep(env, Projected(), actor, entity, opts, ids, i, now, out);
        if !Queries.Readable(env, Projected(), actor, entity, ids[i], now) {
          continue;
        }
        if !Queries.Wanted(env, Projected(), actor, entity, opts, ids[i], now) {
          continue;
        }
        out := out + [Queries.RowOf(env, Projected(), actor, entity, ids[i], now)];
      }
      assert ids[|ids|..] == [];
    }

    /** Lists the records the actor may read, by candidates where the index can narrow. */
    method Query(actor: Actor, entity: string, opts: Queries.QueryOpts, now: int)
      returns (rows: Result<seq<Queries.Row>, Error>)
      requires Valid()
      modifies this`idxCache
      ensures Valid()
      ensures rows.Failure? <==> entity !in model.entities
      ensures rows.Success? ==> exists ids ::
        rows.value == Queries.Page(opts.order(Queries.Select(env, Projected(), actor, entity, opts, ids, now)),
          opts.offset, opts.limit)
      ensures rows.Success? && (forall rs :: multiset(opts.order(rs)) == multiset(rs)) ==>
        forall row <- rows.value :: Queries.Shows(env, Projected(), actor, entity, row, now)
      ensures (rows.Success? && !IsCore(entity) &&
        Queries.TermsNecessary(env, Projected(), actor, entity, render, now)) ==>
        rows.value == Queries.Scan(env, Projected(), actor, entity, opts, now)
    {
      hide Exact, Coherent, Queries.TermsNecessary, Queries.Select, Queries.Page, Queries.Candidates, Queries.Shows;
      if entity !in model.entities {
        return Failure(NotFound);
      }
      var cand, idx := CandidateIds(entity, actor);
      var ids := SortedIds(if cand.Some? then cand.value else IdsOf(records, entity));
      NarrowedSelection(env, Projected(), actor, entity, idx, render, opts, now);
      var out := SelectRows(actor, entity, opts, ids, now);
      if forall rs :: multiset(opts.order(rs)) == multiset(rs) {
        Queries.PagedRowsShow(env, Projected(), actor, entity, opts, ids, now);
      }
      return Success(Queries.Page(opts.order(out), opts.offset, opts.limit));
    }
  }

  lemma LogLength(events: seq<Event>)
    ensures |Log(events)| == |events|
  {
  }

  lemma AutoRunStep(env: Env, s: State, rid: Rid, transitions: seq<Transition>, now: int, hops: nat)
    ensures AutoRun(env, s, rid, transitions, now, 0) == s
    ensures var tr := NextAuto(env, s.view, rid, transitions, now);
      hops > 0 ==>
        AutoRun(env, s, rid, transitions, now, hops) ==
        if tr.None? then s else AutoRun(env, AutoHop(env, s, rid, tr.value, now), rid, transitions, now, hops - 1)
  {
  }

  /** The effect of a task creation, field by field. */
  lemma TaskIs(env: Env, s: State, t: TaskSpec, basis: Basis, key: Key, now: int)
    ensures var prior := Prior(s.log, key);
      var id := if prior.None? then env.ids(|s.log|) else prior.value.subject.taskId;
      CommitTask(env, s, t, basis, key, now) ==
      State(if id in s.view.tasks then s.view
            else s.view.(tasks :=
              s.view.tasks[id := Task(t.kind, t.role, t.entity, t.recordId, t.action, t.args, Open, "", 0)]),
            if prior.None? then s.log + [TaskEntry(s, id, t, basis, key, now)] else s.log)
  {
  }

  /** The effect of a transition, field by field. */
  lemma TransitionIs(env: Env, s: State, actor: Actor, rid: Rid, tr: Transition, from: string,
                     basis: Option<Basis>, key: Key, now: int)
    requires rid in s.view.records && rid.entity in s.view.model.workflows
    ensures var prior := Prior(s.log, key);
      var field := s.view.model.workflows[rid.entity].field;
      CommitTransition(env, s, actor, rid, tr, from, basis, key, now) ==
      State(s.view.(records := s.view.records[rid := s.view.records[rid][field := Str(tr.to)]],
                    since := s.view.since[rid := if prior.None? then now else prior.value.ts]),
            if prior.None? then s.log + [TransitionEntry(s, actor, rid, tr, from, basis, key, now)] else s.log)
  {
  }

  lemma MoveKeepsModel(env: Env, s: State, actor: Actor, rid: Rid, tr: Transition, from: string,
                       basis: Option<Basis>, key: Key, now: int)
    ensures var t := CommitTransition(env, s, actor, rid, tr, from, basis, key, now);
      t.view.model == s.view.model && (rid in s.view.records ==> rid in t.view.records)
  {
  }

  lemma {:induction false} FireKeepsRecords(env: Env, s: State, rule: Rule, entity: string, id: string, firing: Firing,
                                            index: nat, now: int)
    requires index <= |rule.actions|
    ensures Fire(env, s, rule, entity, id, firing, index, now).view.records == s.view.records
    decreases |rule.actions| - index
  {
    if index < |rule.actions| {
      var t := ActionTask(rule.actions[index], entity, id);
      var next := if t.Some? then CommitTask(env, s, t.value, RuleBasis(rule), FiringKey(rule, id, firing, index), now)
        else s;
      FireKeepsRecords(env, next, rule, entity, id, firing, index + 1, now);
    }
  }

  lemma UpdateFindsRecord(env: Env, v: View, actor: Actor, rid: Rid, values: Fields, now: int)
    ensures UpdateCheck(env, v, actor, rid, values, now).Success? ==> rid in v.records
  {
  }

  lemma ActFindsRecord(env: Env, v: View, actor: Actor, rid: Rid, action: string, now: int)
    ensures ActCheck(env, v, actor, rid, action, now).Success? ==> rid in v.records && rid.entity in v.model.workflows
  {
  }

  lemma {:induction false} AutoRunKeepsRecord(env: Env, s: State, rid: Rid, transitions: seq<Transition>, now: int,
                                        hops: nat)
    ensures rid in s.view.records ==> rid in AutoRun(env, s, rid, transitions, now, hops).view.records
    ensures AutoRun(env, s, rid, transitions, now, hops).view.model == s.view.model
    decreases hops
  {
    hide NextAuto;
    var tr := NextAuto(env, s.view, rid, transitions, now);
    if hops > 0 && tr.Some? {
      MoveKeepsModel(env, s, WORKFLOW_ENGINE, rid, tr.value, StateOf(s.view, rid), Some(AutoBasis(tr.value)), NoKey,
        now);
      AutoRunKeepsRecord(env, AutoHop(env, s, rid, tr.value, now), rid, transitions, now, hops - 1);
    }
  }

  lemma {:induction false} EnsureTasksKeepRecords(env: Env, s: State, rid: Rid, transitions: seq<Transition>,
                                        current: string,
                                                  since: int, now: int)
    ensures var t := EnsureTasks(env, s, rid, transitions, current, since, now);
      t.view.records == s.view.records && t.view.model == s.view.model
    decreases |transitions|
  {
    if transitions != [] {
      var tr := transitions[0];
      var next := if NeedsTask(tr, current)
                  then CommitTask(env, s, WorkflowTaskSpec(rid, tr), ASSIGNEE_BASIS,
                    StateKey(rid.entity, rid.id, tr.action, since), now)
                  else s;
      EnsureTasksKeepRecords(env, next, rid, transitions[1..], current, since, now);
    }
  }

  lemma SettleKeepsRecord(env: Env, s: State, rid: Rid, now: int)
    requires rid in s.view.records
    ensures rid in Settle(env, s, rid, now).view.records && Settle(env, s, rid, now).view.model == s.view.model
  {
    hide AutoRun, EnsureTasks;
    if rid.entity in s.view.model.workflows {
      var transitions := s.view.model.workflows[rid.entity].transitions;
      AutoRunKeepsRecord(env, s, rid, transitions, now, MAX_HOPS);
      var t := AutoRun(env, s, rid, transitions, now, MAX_HOPS);
      EnsureTasksKeepRecords(env, t, rid, transitions, StateOf(t.view, rid), SinceOf(t.view, rid), now);
    }
  }

  /** The effect of a creation entry, field by field. */
  lemma CreationIs(env: Env, s: State, e: Entry, values: Fields)
    requires e.body == RecordCreated(values)
    ensures var prior := Prior(s.log, e.key);
      var rid := Rid(e.subject.entity, if prior.None? then e.subject.recordId else prior.value.subject.recordId);
      CommitCreation(env, s, e) ==
      State(if rid in s.view.records then s.view
            else s.view.(records := s.view.records[rid := values],
                         since := s.view.since[rid := if prior.None? then e.ts else prior.value.ts]),
            if prior.None? then s.log + [e] else s.log)
  {
  }

  lemma ExpireStep(env: Env, s: State, ids: seq<string>, i: nat, now: int)
    requires i < |ids|
    ensures ExpireAll(env, s, ids[i..], now) == ExpireAll(env, Expire(env, s, ids[i], now), ids[i + 1..], now)
  {
    assert ids[i..][0] == ids[i] && ids[i..][1..] == ids[i + 1..];
  }

  lemma DecisionFindsProposal(env: Env, v: View, actor: Actor, id: string, grant: bool, signature: Option<Bytes>)
    ensures ProposalCheck(env, v, actor, id, grant, signature).None? ==> id in v.proposals
  {
  }

  lemma SelectStep(env: Env, v: View, actor: Actor, entity: string, opts: Queries.QueryOpts, ids: seq<string>, i: nat,
                   now: int,
                   out: seq<Queries.Row>)
    requires i < |ids|
    ensures var id, rest := ids[i], Queries.Select(env, v, actor, entity, opts, ids[i + 1..], now);
      out + Queries.Select(env, v, actor, entity, opts, ids[i..], now) ==
      (if Queries.Readable(env, v, actor, entity, id, now) && Queries.Wanted(env, v, actor, entity, opts, id, now)
       then out + [Queries.RowOf(env, v, actor, entity, id, now)] else out) + rest
  {
    hide Queries.Readable, Queries.Wanted, Queries.RowOf;
    assert ids[i..][0] == ids[i] && ids[i..][1..] == ids[i + 1..];
  }

  function Joined(found: set<string>, rest: Option<set<string>>): Option<set<string>> {
    if rest.None? then None else Some(found + rest.value)
  }

  lemma AddBuckets(found: set<string>, rest: Option<set<string>>)
    ensures found == {} ==> Joined(found, rest) == rest
    ensures rest == Some({}) ==> Joined(found, rest) == Some(found)
  {
    if rest.Some? {
      assert {} + rest.value == rest.value && found + {} == found;
    }
  }

  lemma JoinedNone(found: set<string>)
    ensures Joined(found, None) == None
  {
  }

  lemma JoinedStep(found: set<string>, bucket: set<string>, rest: Option<set<string>>)
    ensures rest.Some? ==> Joined(found, Some(bucket + rest.value)) == Joined(found + bucket, rest)
    ensures rest.None? ==> Joined(found, None) == Joined(found + bucket, rest)
  {
    if rest.Some? {
      assert found + (bucket + rest.value) == (found + bucket) + rest.value;
    }
  }

  lemma NarrowedSelection(env: Env, v: View, actor: Actor, entity: string, idx: EntityIndex, render: Value -> string,
                          opts: Queries.QueryOpts, now: int)
    requires Exact(idx, v.records, render, entity)
    ensures var cand := Queries.Candidates(idx, v.model, entity, actor, render);
      cand.Some? && !IsCore(entity) && Queries.TermsNecessary(env, v, actor, entity, render, now) ==>
        Queries.Select(env, v, actor, entity, opts, SortedIds(cand.value), now) ==
        Queries.Select(env, v, actor, entity, opts, SortedIds(IdsOf(v.records, entity)), now)
  {
    hide Exact, Queries.TermsNecessary, Queries.Candidates, Queries.Select;
    if Queries.Candidates(idx, v.model, entity, actor, render).Some? && !IsCore(entity)
       && Queries.TermsNecessary(env, v, actor, entity, render, now) {
      Queries.IndexAgreesWithScan(env, v, actor, entity, idx, render, opts, now);
    }
  }
}
