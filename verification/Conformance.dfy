/** Every operation is a run of legal commits, as long as idempotency keys are used as the journal expects.

    One lemma per operation reads the entries its step commits off the step's definition and shows each of
    them legal where it is committed; most whole-run properties need nothing else about the steps. */
module Conformance {
  import opened Values
  import opened Model
  import opened Journal
  import opened Projection
  import opened Environment
  import opened Permissions
  import opened Records
  import opened Steps
  import opened Protocol

  // ---- what every reachable state satisfies --------------------------------------------

  /** The id was drawn before the journal held n entries. */
  ghost predicate Drawn(env: Env, id: string, n: nat) {
    exists i: nat :: i < n && env.ids(i) == id
  }

  ghost predicate IdsDrawn(env: Env, s: State) {
    && (forall r <- s.view.records :: Drawn(env, r.id, |s.log|))
    && (forall id <- s.view.approvals :: Drawn(env, id, |s.log|))
    && (forall id <- s.view.tasks :: Drawn(env, id, |s.log|))
    && (forall id <- s.view.proposals :: Drawn(env, id, |s.log|))
  }

  /** An entry under one of the engine's own keys created a task that is still known. */
  ghost predicate TaskKeys(s: State) {
    forall e <- s.log :: EngineKey(e.key) ==> e.body.TaskCreated? && e.subject.taskId in s.view.tasks
  }

  /** Proposals carry sources, and sources that compile. */
  ghost predicate SourcesCompile(env: Env, v: View) {
    forall id <- v.proposals :: v.proposals[id].files != map[] && env.compile(v.proposals[id].files).Some?
  }

  ghost predicate Good(env: Env, s: State) {
    FreshIds(env) && IdsDrawn(env, s) && TaskKeys(s) && UniqueKeys(s.log) && SourcesCompile(env, s.view)
  }

  /** Records stay, and the definition does not change. */
  predicate Onward(s: State, t: State) {
    s.view.model == t.view.model && s.view.records.Keys <= t.view.records.Keys && s.view.defVersion == t.view.defVersion
  }

  lemma StartIsGood(env: Env, m: Model)
    requires FreshIds(env)
    ensures Good(env, Start(m))
  {
  }

  lemma DrawnLater(env: Env, id: string, n: nat)
    requires Drawn(env, id, n)
    ensures Drawn(env, id, n + 1)
  {
    var i: nat :| i < n && env.ids(i) == id;
    assert i < n + 1 && env.ids(i) == id;
  }

  lemma FreshNotDrawn(env: Env, n: nat)
    requires FreshIds(env)
    ensures !Drawn(env, env.ids(n), n)
    ensures Drawn(env, env.ids(n), n + 1)
  {
    assert n < n + 1 && env.ids(n) == env.ids(n);
  }

  lemma AppendKeepsUniqueKeys(log: seq<Entry>, e: Entry)
    requires UniqueKeys(log) && Prior(log, e.key).None?
    ensures UniqueKeys(log + [e])
  {
  }

  lemma CommitKeepsIds(env: Env, s: State, e: Entry)
    requires FreshIds(env) && IdsDrawn(env, s) && Legal(env, s, e)
    ensures IdsDrawn(env, Commit(env, s, e))
  {
    var t := Commit(env, s, e);
    FreshNotDrawn(env, |s.log|);
    forall r | r in t.view.records ensures Drawn(env, r.id, |t.log|) {
      if r in s.view.records { DrawnLater(env, r.id, |s.log|); }
    }
    forall id | id in t.view.approvals ensures Drawn(env, id, |t.log|) {
      if id in s.view.approvals { DrawnLater(env, id, |s.log|); }
    }
    forall id | id in t.view.tasks ensures Drawn(env, id, |t.log|) {
      if id in s.view.tasks { DrawnLater(env, id, |s.log|); }
    }
    forall id | id in t.view.proposals ensures Drawn(env, id, |t.log|) {
      if id in s.view.proposals { DrawnLater(env, id, |s.log|); }
    }
  }

  lemma CommitKeepsTasks(env: Env, s: State, e: Entry)
    ensures forall id <- s.view.tasks :: id in Commit(env, s, e).view.tasks
    ensures e.body.TaskCreated? ==> e.subject.taskId in Commit(env, s, e).view.tasks
  {
    var t := Apply(env.compile, s.view, e).tasks;
    match e.body
    case TaskCreated(_, _, _, _, _, _) => assert t.Keys == s.view.tasks.Keys + {e.subject.taskId};
    case TaskTaken(_) => assert t.Keys == s.view.tasks.Keys;
    case TaskCompleted(_) => assert t.Keys == s.view.tasks.Keys;
    case TaskFailed(_) => assert t.Keys == s.view.tasks.Keys;
    case TaskExpired => assert t.Keys == s.view.tasks.Keys;
    case _ => assert t == s.view.tasks;
  }

  lemma CommitKeepsTaskKeys(env: Env, s: State, e: Entry)
    requires TaskKeys(s) && Legal(env, s, e)
    ensures TaskKeys(Commit(env, s, e))
  {
    var t := Commit(env, s, e);
    CommitKeepsTasks(env, s, e);
    forall d | d in t.log && EngineKey(d.key) ensures d.body.TaskCreated? && d.subject.taskId in t.view.tasks {
      if d !in s.log {
        assert d == e;
      }
    }
  }

  lemma CommitKeepsSources(env: Env, s: State, e: Entry)
    requires SourcesCompile(env, s.view) && Legal(env, s, e)
    ensures SourcesCompile(env, Commit(env, s, e).view)
  {
  }

  lemma CommitKeepsGood(env: Env, s: State, e: Entry)
    requires Good(env, s) && Legal(env, s, e)
    ensures Good(env, Commit(env, s, e))
  {
    CommitKeepsIds(env, s, e);
    CommitKeepsTaskKeys(env, s, e);
    CommitKeepsSources(env, s, e);
    AppendKeepsUniqueKeys(s.log, e);
  }

  /** One legal commit, from and to good states. */
  lemma Advance(env: Env, s: State, e: Entry)
    requires Good(env, s) && Legal(env, s, e)
    ensures Reaches(env, s, Commit(env, s, e)) && Good(env, Commit(env, s, e))
  {
    ReachesOne(env, s, e);
    CommitKeepsGood(env, s, e);
  }

  // ---- tasks and rules ------------------------------------------------------------------

  /** The data rules and guards look at. */
  predicate SameData(s: State, t: State) {
    s.view.model == t.view.model && s.view.records == t.view.records && s.view.since == t.view.since
  }

  lemma TaskConforms(env: Env, s: State, t: TaskSpec, basis: Basis, key: Key, now: int)
    requires Good(env, s) && !key.Client?
    requires Prior(s.log, key).None? ==> TaskCreationLegal(env, s, TaskEntry(s, env.ids(|s.log|), t, basis, key, now))
    ensures var u := CommitTask(env, s, t, basis, key, now);
      Reaches(env, s, u) && Good(env, u) && Onward(s, u) && SameData(s, u)
  {
    var prior := Prior(s.log, key);
    if prior.None? {
      FreshNotDrawn(env, |s.log|);
      Advance(env, s, TaskEntry(s, env.ids(|s.log|), t, basis, key, now));
    } else {
      ReachesSelf(env, s);
    }
  }

  lemma {:induction false} EnsureTasksConforms(env: Env, s: State, rid: Rid, transitions: seq<Transition>,
                                        current: string, since: int, now: int)
    requires Good(env, s) && rid in s.view.records && rid.entity in s.view.model.workflows
    requires forall tr <- transitions :: tr in s.view.model.workflows[rid.entity].transitions
    requires current == StateOf(s.view, rid) && since == SinceOf(s.view, rid)
    ensures var u := EnsureTasks(env, s, rid, transitions, current, since, now);
      Reaches(env, s, u) && Good(env, u) && Onward(s, u) && SameData(s, u)
    decreases |transitions|
  {
    ReachesSelf(env, s);
    if transitions != [] {
      var tr := transitions[0];
      var key := StateKey(rid.entity, rid.id, tr.action, since);
      var spec := WorkflowTaskSpec(rid, tr);
      if NeedsTask(tr, current) {
        assert AssignedBy(s.view, TaskEntry(s, env.ids(|s.log|), spec, ASSIGNEE_BASIS, key, now), tr);
        TaskConforms(env, s, spec, ASSIGNEE_BASIS, key, now);
      }
      var next := if NeedsTask(tr, current) then CommitTask(env, s, spec, ASSIGNEE_BASIS, key, now) else s;
      hide CommitTask;
      EnsureTasksConforms(env, next, rid, transitions[1..], current, since, now);
      ReachesTransitive(env, s, next, EnsureTasks(env, next, rid, transitions[1..], current, since, now));
    }
  }

  lemma MayFireStill(env: Env, s: State, t: State, rule: Rule, entity: string, id: string, firing: Firing, now: int)
    requires SameData(s, t) && MayFire(env, s.view, rule, entity, id, firing, now)
    ensures MayFire(env, t.view, rule, entity, id, firing, now)
  {
  }

  lemma ActionConforms(env: Env, s: State, rule: Rule, entity: string, id: string, firing: Firing, index: nat, now: int)
    requires Good(env, s) && index < |rule.actions| && ActionTask(rule.actions[index], entity, id).Some?
    requires MayFire(env, s.view, rule, entity, id, firing, now)
    ensures var u := CommitTask(env, s, ActionTask(rule.actions[index], entity, id).value, RuleBasis(rule),
      FiringKey(rule, id, firing, index), now);
      Reaches(env, s, u) && Good(env, u) && Onward(s, u) && SameData(s, u)
  {
    var t := ActionTask(rule.actions[index], entity, id).value;
    var key := FiringKey(rule, id, firing, index);
    assert t.entity == entity && t.recordId == id;
    assert FiredBy(env, s.view, TaskEntry(s, env.ids(|s.log|), t, RuleBasis(rule), key, now), rule, firing, index);
    TaskConforms(env, s, t, RuleBasis(rule), key, now);
  }

  lemma {:induction false} FireConforms(env: Env, s: State, rule: Rule, entity: string, id: string, firing: Firing,
                                        index: nat, now: int)
    requires Good(env, s) && index <= |rule.actions| && MayFire(env, s.view, rule, entity, id, firing, now)
    ensures var u := Fire(env, s, rule, entity, id, firing, index, now);
      Reaches(env, s, u) && Good(env, u) && Onward(s, u) && SameData(s, u)
    decreases |rule.actions| - index
  {
    hide CommitTask;
    hide MayFire;
    ReachesSelf(env, s);
    if index < |rule.actions| {
      var t := ActionTask(rule.actions[index], entity, id);
      var key := FiringKey(rule, id, firing, index);
      if t.Some? {
        ActionConforms(env, s, rule, entity, id, firing, index, now);
      }
      var next := if t.Some? then CommitTask(env, s, t.value, RuleBasis(rule), key, now) else s;
      MayFireStill(env, s, next, rule, entity, id, firing, now);
      FireConforms(env, next, rule, entity, id, firing, index + 1, now);
      ReachesTransitive(env, s, next, Fire(env, next, rule, entity, id, firing, index + 1, now));
    }
  }

  lemma {:induction false} TriggersConform(env: Env, s: State, trigger: string, rid: Rid, rules: seq<Rule>, now: int)
    requires Good(env, s) && (trigger == "create" || trigger == "update")
    requires forall rule <- rules :: rule in s.view.model.automations
    ensures var u := Triggers(env, s, trigger, rid, rules, now);
      Reaches(env, s, u) && Good(env, u) && Onward(s, u)
    decreases |rules|
  {
    hide Fire;
    ReachesSelf(env, s);
    if rules != [] {
      var rule := rules[0];
      assert rule in rules && forall r <- rules[1..] :: r in rules;
      if rule.trigger == trigger && rule.entity == rid.entity && rid in s.view.records
         && GuardHolds(env, s.view, rule.when, rid, NOBODY, now) {
        assert rid == Rid(rid.entity, rid.id);
        FireConforms(env, s, rule, rid.entity, rid.id, Unkeyed, 0, now);
      }
      var next :=
        if rule.trigger == trigger && rule.entity == rid.entity && rid in s.view.records
           && GuardHolds(env, s.view, rule.when, rid, NOBODY, now)
        then Fire(env, s, rule, rid.entity, rid.id, Unkeyed, 0, now)
        else s;
      TriggersConform(env, next, trigger, rid, rules[1..], now);
      ReachesTransitive(env, s, next, Triggers(env, next, trigger, rid, rules[1..], now));
    }
  }

  // ---- transitions ----------------------------------------------------------------------

  lemma AutoHopConforms(env: Env, s: State, rid: Rid, tr: Transition, now: int)
    requires Good(env, s) && rid in s.view.records && rid.entity in s.view.model.workflows
    requires tr in s.view.model.workflows[rid.entity].transitions
      && AutoEnabled(env, s.view, rid, tr, StateOf(s.view, rid), now)
    ensures var u := AutoHop(env, s, rid, tr, now);
      Reaches(env, s, u) && Good(env, u) && Onward(s, u)
  {
    var from := StateOf(s.view, rid);
    var e := TransitionEntry(s, WORKFLOW_ENGINE, rid, tr, from, Some(AutoBasis(tr)), NoKey, now);
    assert RidOf(e.subject) == rid;
    assert AutoLegal(env, s, e);
    Advance(env, s, e);
  }

  lemma {:induction false} AutoRunConforms(env: Env, s: State, rid: Rid, transitions: seq<Transition>, now: int,
                                        hops: nat)
    requires Good(env, s) && rid in s.view.records
    requires rid.entity in s.view.model.workflows && transitions == s.view.model.workflows[rid.entity].transitions
    ensures var u := AutoRun(env, s, rid, transitions, now, hops);
      Reaches(env, s, u) && Good(env, u) && Onward(s, u)
    decreases hops
  {
    hide AutoHop;
    var tr := NextAuto(env, s.view, rid, transitions, now);
    if hops == 0 || tr.None? {
      ReachesSelf(env, s);
      assert AutoRun(env, s, rid, transitions, now, hops) == s;
    } else {
      var t := AutoHop(env, s, rid, tr.value, now);
      var u := AutoRun(env, t, rid, transitions, now, hops - 1);
      assert AutoRun(env, s, rid, transitions, now, hops) == u;
      AutoHopConforms(env, s, rid, tr.value, now);
      AutoRunConforms(env, t, rid, transitions, now, hops - 1);
      ReachesTransitive(env, s, t, u);
    }
  }

  lemma SettleConforms(env: Env, s: State, rid: Rid, now: int)
    requires Good(env, s)
    ensures var u := Settle(env, s, rid, now);
      Reaches(env, s, u) && Good(env, u) && Onward(s, u)
  {
    ReachesSelf(env, s);
    if rid.entity in s.view.model.workflows && rid in s.view.records {
      var transitions := s.view.model.workflows[rid.entity].transitions;
      AutoRunConforms(env, s, rid, transitions, now, MAX_HOPS);
      var t := AutoRun(env, s, rid, transitions, now, MAX_HOPS);
      EnsureTasksConforms(env, t, rid, transitions, StateOf(t.view, rid), SinceOf(t.view, rid), now);
      ReachesTransitive(env, s, t, Settle(env, s, rid, now));
    }
  }

  lemma AfterConforms(env: Env, s: State, trigger: string, rid: Rid, now: int)
    requires Good(env, s) && (trigger == "create" || trigger == "update")
    ensures var u := After(env, s, trigger, rid, now);
      Reaches(env, s, u) && Good(env, u) && Onward(s, u)
  {
    var t := Settle(env, s, rid, now);
    SettleConforms(env, s, rid, now);
    TriggersConform(env, t, trigger, rid, t.view.model.automations, now);
    ReachesTransitive(env, s, t, After(env, s, trigger, rid, now));
  }

  /** A commit followed by whatever the operation does next. */
  lemma ThenReaches(env: Env, s: State, e: Entry, u: State)
    requires Good(env, s) && Legal(env, s, e)
    requires Reaches(env, Commit(env, s, e), u)
    ensures Reaches(env, s, u)
  {
    Advance(env, s, e);
    ReachesTransitive(env, s, Commit(env, s, e), u);
  }

  // ---- which calls use their key as the journal expects ------------------------------------

  /** Create may repeat a key that names an existing record; Update and Act need a key the journal does
      not hold; a proposal carries sources; and the prototype model swap is not used. */
  predicate Admissible(s: State, call: Call) {
    match call
    case CreateCall(_, _, _, _, key) =>
      var prior := Prior(s.log, KeyOf(key));
      prior.None? || RidOf(prior.value.subject) in s.view.records
    case UpdateCall(_, _, _, _, key) => Prior(s.log, KeyOf(key)).None?
    case ActCall(_, _, _, _, key) => Prior(s.log, KeyOf(key)).None?
    case ProposeCall(_, files, _, _, _) => files != map[]
    case ApplyAdditiveCall(_, _, _) => false
    case _ => true
  }

  // ---- the operations ------------------------------------------------------------------------

  lemma NewIdIsFree(env: Env, s: State, entity: string)
    requires Good(env, s)
    ensures Rid(entity, env.ids(|s.log|)) !in s.view.records
  {
    FreshNotDrawn(env, |s.log|);
  }

  lemma CreateConforms(env: Env, s: State, actor: Actor, entity: string, values: Fields, basis: Option<Basis>,
                       key: string, now: int)
    requires Good(env, s) && Admissible(s, CreateCall(actor, entity, values, basis, key))
    ensures var u := Create(env, s, actor, entity, values, basis, KeyOf(key), now).state;
      Reaches(env, s, u) && Good(env, u)
  {
    ReachesSelf(env, s);
    NewIdIsFree(env, s, entity);
    hide Good, Reaches;
    var prior := Prior(s.log, KeyOf(key));
    var checked := CreateCheck(env, s.view, actor, entity, values, now);
    hide CreateCheck;
    if basis.Some? && prior.None? && checked.Success? && actor.id != "" {
      var rid := Rid(entity, env.ids(|s.log|));
      var e := CreatedEntry(s, actor, rid, checked.value, basis, KeyOf(key), now);
      assert CreationLegal(env, s, e, checked.value);
      Advance(env, s, e);
      assert CommitCreation(env, s, e) == Commit(env, s, e);
      AfterConforms(env, Commit(env, s, e), "create", rid, now);
      ThenReaches(env, s, e, After(env, Commit(env, s, e), "create", rid, now));
    }
  }

  lemma UpdateConforms(env: Env, s: State, actor: Actor, rid: Rid, values: Fields, basis: Option<Basis>, key: string,
                       now: int)
    requires Good(env, s) && Admissible(s, UpdateCall(actor, rid, values, basis, key))
    ensures var u := Update(env, s, actor, rid, values, basis, KeyOf(key), now).state;
      Reaches(env, s, u) && Good(env, u)
  {
    hide Good, Reaches;
    ReachesSelf(env, s);
    var checked := UpdateCheck(env, s.view, actor, rid, values, now);
    if basis.Some? && checked.Success? && checked.value != map[] && actor.id != "" {
      var e := UpdatedEntry(s, actor, rid, checked.value, basis, KeyOf(key), now);
      assert RidOf(e.subject) == rid;
      assert UpdateLegal(env, s, e, checked.value);
      Advance(env, s, e);
      AfterConforms(env, Commit(env, s, e), "update", rid, now);
      ThenReaches(env, s, e, After(env, Commit(env, s, e), "update", rid, now));
    }
  }

  lemma ActConforms(env: Env, s: State, actor: Actor, rid: Rid, action: string, basis: Option<Basis>, key: string,
                    now: int)
    requires Good(env, s) && Admissible(s, ActCall(actor, rid, action, basis, key))
    ensures var u := Act(env, s, actor, rid, action, basis, KeyOf(key), now).state;
      Reaches(env, s, u) && Good(env, u)
  {
    hide Good, Reaches, Settle, CanNamed, GuardHolds;
    ReachesSelf(env, s);
    var checked := ActCheck(env, s.view, actor, rid, action, now);
    if basis.Some? && checked.Success? && actor.id != "" {
      var tr, from := checked.value, StateOf(s.view, rid);
      assert tr.action == action;
      if tr.approvalRole != "" {
        var e := RequestEntry(s, env.ids(|s.log|), actor, rid, tr, from, basis, KeyOf(key), now);
        assert Rid(e.body.entity, e.body.recordId) == rid;
        assert RequestLegal(env, s, e);
        Advance(env, s, e);
      } else {
        var e := TransitionEntry(s, actor, rid, tr, from, basis, KeyOf(key), now);
        assert RidOf(e.subject) == rid;
        assert NamedLegal(env, s, e);
        Advance(env, s, e);
        SettleConforms(env, Commit(env, s, e), rid, now);
        ThenReaches(env, s, e, Settle(env, Commit(env, s, e), rid, now));
      }
    }
  }

  lemma DecideConforms(env: Env, s: State, actor: Actor, id: string, grant: bool, signature: Option<Bytes>,
                       basis: Option<Basis>, now: int)
    requires Good(env, s)
    ensures var u := Decide(env, s, actor, id, grant, signature, basis, now).state;
      Reaches(env, s, u) && Good(env, u)
  {
    hide Good, Reaches, Settle, CanNamed, SignatureOk;
    ReachesSelf(env, s);
    if basis.Some? && DecideCheck(env, s.view, actor, id, grant, signature).None? && actor.id != "" {
      var a := s.view.approvals[id];
      var d := DecisionEntry(s, actor, id, a, grant, basis, now);
      assert DecisionLegal(s, d);
      Advance(env, s, d);
      var t := Commit(env, s, d);
      var rid := Rid(a.entity, a.recordId);
      if grant && rid in t.view.records && rid.entity in t.view.model.workflows && StateOf(t.view, rid) == a.from {
        var e := TransitionEntry(t, actor, rid, ApprovedTransition(a), a.from, Some(Basis("approval", id)), NoKey, now);
        assert t.log[|t.log| - 1] == d;
        assert ApprovedLegal(t, e);
        Advance(env, t, e);
        SettleConforms(env, Commit(env, t, e), rid, now);
        ThenReaches(env, t, e, Settle(env, Commit(env, t, e), rid, now));
        ReachesTransitive(env, s, t, Settle(env, Commit(env, t, e), rid, now));
      }
    }
  }

  lemma ExpireConforms(env: Env, s: State, id: string, now: int)
    requires Good(env, s)
    ensures var u := Expire(env, s, id, now);
      Reaches(env, s, u) && Good(env, u) && Onward(s, u) && u.view.tasks.Keys == s.view.tasks.Keys
  {
    ReachesSelf(env, s);
    if id in s.view.tasks && LeaseOver(s.view.tasks[id], now) {
      Advance(env, s, TaskEvent(s, WORKFLOW_ENGINE, id, TaskExpired, Basis("rule", "lease-ttl"), now));
    }
  }

  /** A step of one task, legal in its state, after the lease was looked at. */
  lemma TaskEventConforms(env: Env, s: State, t: State, actor: Actor, id: string, body: Body, now: int)
    requires Good(env, t) && Reaches(env, s, t)
    requires actor.id != "" && (body.TaskTaken? || body.TaskCompleted? || body.TaskFailed?)
    requires TaskStepLegal(env, t, TaskEvent(t, actor, id, body, Basis("task", id), now))
    ensures var u := Commit(env, t, TaskEvent(t, actor, id, body, Basis("task", id), now));
      Reaches(env, s, u) && Good(env, u)
  {
    var e := TaskEvent(t, actor, id, body, Basis("task", id), now);
    Advance(env, t, e);
    ReachesTransitive(env, s, t, Commit(env, t, e));
  }

  lemma TakeConforms(env: Env, s: State, actor: Actor, id: string, now: int)
    requires Good(env, s)
    ensures var u := TakeTask(env, s, actor, id, now).state;
      Reaches(env, s, u) && Good(env, u)
  {
    hide Good, Reaches;
    hide Apply;
    ReachesSelf(env, s);
    if id in s.view.tasks {
      var t := Expire(env, s, id, now);
      ExpireConforms(env, s, id, now);
      var task := t.view.tasks[id];
      if task.status == Open && task.role == actor.role && actor.id != "" {
        TaskEventConforms(env, s, t, actor, id, TaskTaken(now + env.taskTTL), now);
      } else {
        assert TakeTask(env, s, actor, id, now).state == t;
      }
    }
  }

  lemma ProgressConforms(env: Env, s: State, actor: Actor, id: string, note: string, now: int)
    requires Good(env, s)
    ensures var u := ReportProgress(env, s, actor, id, note, now).state;
      Reaches(env, s, u) && Good(env, u)
  {
    ReachesSelf(env, s);
    if id in s.view.tasks && s.view.tasks[id].takenBy == actor.id && s.view.tasks[id].status == Taken
      && actor.id != "" {
      var task := s.view.tasks[id];
      var body := TaskProgress(note, FactsBy(s.log, actor.id, task.entity, task.recordId));
      Advance(env, s, TaskEvent(s, actor, id, body, Basis("task", id), now));
    }
  }

  lemma FinishConforms(env: Env, s: State, actor: Actor, id: string, success: bool, text: string, now: int)
    requires Good(env, s)
    ensures var u := FinishTask(env, s, actor, id, success, text, now).state;
      Reaches(env, s, u) && Good(env, u)
  {
    hide Good, Reaches;
    ReachesSelf(env, s);
    if id in s.view.tasks {
      var t := Expire(env, s, id, now);
      ExpireConforms(env, s, id, now);
      var task := t.view.tasks[id];
      if task.status == Taken && task.takenBy == actor.id && actor.id != "" {
        assert !LeaseOver(task, now);
        TaskEventConforms(env, s, t, actor, id, if success then TaskCompleted(text) else TaskFailed(text), now);
      }
    }
  }

  lemma {:induction false} ScheduleConforms(env: Env, s: State, rule: Rule, ids: seq<string>, now: int)
    requires Good(env, s) && rule in s.view.model.automations && rule.trigger == "schedule" && rule.entity != ""
    ensures var u := Schedule(env, s, rule, ids, now);
      Reaches(env, s, u) && Good(env, u) && Onward(s, u) && SameData(s, u)
    decreases |ids|
  {
    hide Fire;
    ReachesSelf(env, s);
    if ids != [] {
      if ScheduleDue(env, s.view, rule, ids[0], now) {
        FireConforms(env, s, rule, rule.entity, ids[0], Daily(now / DAY), 0, now);
      }
      var next := if ScheduleDue(env, s.view, rule, ids[0], now)
                  then Fire(env, s, rule, rule.entity, ids[0], Daily(now / DAY), 0, now) else s;
      ScheduleConforms(env, next, rule, ids[1..], now);
      ReachesTransitive(env, s, next, Schedule(env, next, rule, ids[1..], now));
    }
  }

  lemma {:induction false} StuckConforms(env: Env, s: State, rule: Rule, duration: int, ids: seq<string>, now: int)
    requires Good(env, s) && rule in s.view.model.automations && rule.trigger == "stuck"
    requires ParseDuration(rule.stuckFor) == Some(duration) && rule.entity in s.view.model.workflows
    ensures var u := Stuck(env, s, rule, duration, ids, now);
      Reaches(env, s, u) && Good(env, u) && Onward(s, u) && SameData(s, u)
    decreases |ids|
  {
    hide Fire;
    ReachesSelf(env, s);
    if ids != [] {
      var firing := PerStateEntry(SinceOf(s.view, Rid(rule.entity, ids[0])));
      if StuckDue(s.view, rule, ids[0], duration, now) {
        FireConforms(env, s, rule, rule.entity, ids[0], firing, 0, now);
      }
      var next := if StuckDue(s.view, rule, ids[0], duration, now)
                  then Fire(env, s, rule, rule.entity, ids[0], firing, 0, now) else s;
      StuckConforms(env, next, rule, duration, ids[1..], now);
      ReachesTransitive(env, s, next, Stuck(env, next, rule, duration, ids[1..], now));
    }
  }

  lemma RunRuleConforms(env: Env, s: State, rule: Rule, now: int)
    requires Good(env, s) && rule in s.view.model.automations
    ensures var u := RunRule(env, s, rule, now);
      Reaches(env, s, u) && Good(env, u) && Onward(s, u) && SameData(s, u)
  {
    hide Fire;
    ReachesSelf(env, s);
    var ids := SortedIds(IdsOf(s.view.records, rule.entity));
    if rule.trigger == "schedule" {
      if rule.entity == "" {
        FireConforms(env, s, rule, "", "", Daily(now / DAY), 0, now);
      } else {
        ScheduleConforms(env, s, rule, ids, now);
      }
    } else if rule.trigger == "stuck" && ParseDuration(rule.stuckFor).Some? && rule.entity in s.view.model.workflows {
      StuckConforms(env, s, rule, ParseDuration(rule.stuckFor).value, ids, now);
    }
  }

  lemma {:induction false} RunRulesConform(env: Env, s: State, rules: seq<Rule>, now: int)
    requires Good(env, s) && forall rule <- rules :: rule in s.view.model.automations
    ensures var u := RunRules(env, s, rules, now);
      Reaches(env, s, u) && Good(env, u) && Onward(s, u) && SameData(s, u)
    decreases |rules|
  {
    hide RunRule;
    ReachesSelf(env, s);
    if rules != [] {
      RunRuleConforms(env, s, rules[0], now);
      var next := RunRule(env, s, rules[0], now);
      RunRulesConform(env, next, rules[1..], now);
      ReachesTransitive(env, s, next, RunRules(env, next, rules[1..], now));
    }
  }

  lemma {:induction false} ExpireAllConforms(env: Env, s: State, ids: seq<string>, now: int)
    requires Good(env, s)
    ensures var u := ExpireAll(env, s, ids, now);
      Reaches(env, s, u) && Good(env, u) && Onward(s, u)
    decreases |ids|
  {
    ReachesSelf(env, s);
    if ids != [] {
      ExpireConforms(env, s, ids[0], now);
      var next := Expire(env, s, ids[0], now);
      ExpireAllConforms(env, next, ids[1..], now);
      ReachesTransitive(env, s, next, ExpireAll(env, next, ids[1..], now));
    }
  }

  lemma TickConforms(env: Env, s: State, now: int)
    requires Good(env, s)
    ensures var u := Tick(env, s, now);
      Reaches(env, s, u) && Good(env, u) && Onward(s, u)
  {
    RunRulesConform(env, s, s.view.model.automations, now);
    var t := RunRules(env, s, s.view.model.automations, now);
    ExpireAllConforms(env, t, SortedIds(t.view.tasks.Keys), now);
    ReachesTransitive(env, s, t, Tick(env, s, now));
  }

  lemma ProposeConforms(env: Env, s: State, actor: Actor, files: map<string, string>, base: nat, description: string,
                        basis: Option<Basis>, now: int)
    requires Good(env, s) && files != map[]
    ensures var u := ProposeChange(env, s, actor, files, base, description, basis, now).state;
      Reaches(env, s, u) && Good(env, u)
  {
    ReachesSelf(env, s);
    if basis.Some? && ProposeCheck(env, s.view, files, base).None? && actor.id != "" {
      Advance(env, s, ProposedEntry(s, actor, env.ids(|s.log|), files, base, description, basis, now));
    }
  }

  lemma SourcesAreGood(env: Env, s: State)
    requires Good(env, s)
    ensures SourcesCompile(env, s.view)
  {
  }

  lemma DecideProposalConforms(env: Env, s: State, actor: Actor, id: string, grant: bool, signature: Option<Bytes>,
                               basis: Option<Basis>, now: int)
    requires Good(env, s)
    ensures var u := DecideProposal(env, s, actor, id, grant, signature, basis, now).state;
      Reaches(env, s, u) && Good(env, u)
  {
    SourcesAreGood(env, s);
    hide Good, Reaches, SignatureOk;
    ReachesSelf(env, s);
    if basis.Some? && ProposalCheck(env, s.view, actor, id, grant, signature).None? && actor.id != "" {
      var d := ProposalEntry(s, actor, id, if grant then DefinitionApproved(id) else DefinitionRejected(id), basis,
        now);
      Advance(env, s, d);
      if grant {
        ApplicationConforms(env, s, d, actor, id, now);
      }
    }
  }

  /** The application that follows an approval: what replay makes of it is the live swap. */
  lemma ApplicationConforms(env: Env, s: State, d: Entry, actor: Actor, id: string, now: int)
    requires Good(env, Commit(env, s, d)) && Reaches(env, s, Commit(env, s, d)) && SourcesCompile(env, s.view)
    requires id in s.view.proposals && s.view.proposals[id].base == s.view.defVersion && actor.id != ""
    requires d.body == DefinitionApproved(id) && d.subject == NO_SUBJECT.(proposalId := id)
    ensures var t := Commit(env, s, d);
      var e := ProposalEntry(t, actor, id, DefinitionApplied(id), Some(Basis("approval", id)), now);
      var u := State(Swap(t.view, env.compile(s.view.proposals[id].files).value, id), t.log + [e]);
      Reaches(env, s, u) && Good(env, u)
  {
    hide Good, Reaches;
    var t := Commit(env, s, d);
    var e := ProposalEntry(t, actor, id, DefinitionApplied(id), Some(Basis("approval", id)), now);
    assert t.log[|t.log| - 1] == d;
    Advance(env, t, e);
    assert Swap(t.view, env.compile(s.view.proposals[id].files).value, id) == Apply(env.compile, t.view, e);
    ReachesTransitive(env, s, t, Commit(env, t, e));
  }

  lemma LinkConforms(env: Env, s: State, actor: Actor, rid: Rid, name: string, other: string, basis: Option<Basis>,
                     now: int)
    requires Good(env, s)
    ensures var u := Link(env, s, actor, rid, name, other, basis, now).state;
      Reaches(env, s, u) && Good(env, u)
    ensures var u := Unlink(env, s, actor, rid, name, other, basis, now).state;
      Reaches(env, s, u) && Good(env, u)
  {
    hide Good, Reaches;
    ReachesSelf(env, s);
    var checked := LinkCheck(env, s.view, actor, rid, name, other, now);
    if basis.Some? && checked.Success? && actor.id != "" {
      var fact := checked.value.1;
      var decl := checked.value.0;
      if LinkKey(fact) in s.view.links {
        assert LinkAllowed(env, s, LinkEntry(s, actor, rid, LinkRemoved(fact), basis, now), fact, name, other, decl);
        Advance(env, s, LinkEntry(s, actor, rid, LinkRemoved(fact), basis, now));
      } else if Rid(decl.from, fact.from) in s.view.records && Rid(decl.to, fact.to) in s.view.records {
        assert LinkAllowed(env, s, LinkEntry(s, actor, rid, LinkAdded(fact), basis, now), fact, name, other, decl);
        Advance(env, s, LinkEntry(s, actor, rid, LinkAdded(fact), basis, now));
      }
    }
  }

  /** Every admissible call is a run of legal commits. */
  lemma StepConforms(env: Env, s: State, call: Call, now: int)
    requires Good(env, s) && Admissible(s, call)
    ensures Reaches(env, s, Step(env, s, call, now).state) && Good(env, Step(env, s, call, now).state)
  {
    hide Good, Reaches;
    match call
    case CreateCall(actor, entity, values, basis, key) =>
      CreateConforms(env, s, actor, entity, values, basis, key, now);
    case UpdateCall(actor, rid, values, basis, key) => UpdateConforms(env, s, actor, rid, values, basis, key, now);
    case ActCall(actor, rid, action, basis, key) => ActConforms(env, s, actor, rid, action, basis, key, now);
    case DecideCall(actor, id, grant, signature, basis) =>
      DecideConforms(env, s, actor, id, grant, signature, basis, now);
    case TakeCall(actor, id) => TakeConforms(env, s, actor, id, now);
    case ProgressCall(actor, id, note) => ProgressConforms(env, s, actor, id, note, now);
    case FinishCall(actor, id, success, text) => FinishConforms(env, s, actor, id, success, text, now);
    case TickCall => TickConforms(env, s, now);
    case ProposeCall(actor, files, base, description, basis) =>
      ProposeConforms(env, s, actor, files, base, description, basis, now);
    case DecideProposalCall(actor, id, grant, signature, basis) =>
      DecideProposalConforms(env, s, actor, id, grant, signature, basis, now);
    case ApplyAdditiveCall(_, _, _) =>
    case LinkCall(actor, rid, name, other, basis) => LinkConforms(env, s, actor, rid, name, other, basis, now);
    case UnlinkCall(actor, rid, name, other, basis) => LinkConforms(env, s, actor, rid, name, other, basis, now);
  }

  /** Every call of the run is admissible in the state it is made in. */
  ghost predicate AdmissibleRun(env: Env, s: State, calls: seq<TimedCall>) {
    forall i :: 0 <= i < |calls| ==> Admissible(Run(env, s, calls[..i]), calls[i].call)
  }

  /** Every admissible run is a run of legal commits from the start. */
  lemma {:induction false} RunConforms(env: Env, s: State, calls: seq<TimedCall>)
    requires Good(env, s) && AdmissibleRun(env, s, calls)
    ensures Reaches(env, s, Run(env, s, calls)) && Good(env, Run(env, s, calls))
    decreases |calls|
  {
    hide Step, Good, Reaches, Admissible;
    ReachesSelf(env, s);
    if calls != [] {
      var n := |calls| - 1;
      var most := calls[..n];
      forall i | 0 <= i < n ensures Admissible(Run(env, s, most[..i]), most[i].call) {
        assert most[..i] == calls[..i];
      }
      RunConforms(env, s, most);
      var t := Run(env, s, most);
      assert Admissible(t, calls[n].call);
      StepConforms(env, t, calls[n].call, calls[n].now);
      ReachesTransitive(env, s, t, Run(env, s, calls));
    }
  }

  /** The journal of an admissible run is a run of legal entries, committed one by one. */
  lemma RunEntries(env: Env, m: Model, calls: seq<TimedCall>) returns (es: seq<Entry>)
    requires FreshIds(env) && AdmissibleRun(env, Start(m), calls)
    ensures Good(env, Start(m)) && LegalRun(env, Start(m), es)
    ensures CommitAll(env, Start(m), es) == Run(env, Start(m), calls) && Run(env, Start(m), calls).log == es
  {
    StartIsGood(env, m);
    RunConforms(env, Start(m), calls);
    hide Run, Good, FreshIds, AdmissibleRun, LegalRun, CommitAll;
    es :| LegalRun(env, Start(m), es) && CommitAll(env, Start(m), es) == Run(env, Start(m), calls);
    CommitAllLog(env, Start(m), es);
    assert [] + es == es;
  }
}
