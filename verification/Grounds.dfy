/** What every move and every task in a journal rests on: a declared transition or rule, its guard, its time. */
module Grounds {
  import opened Values
  import opened Model
  import opened Journal
  import opened Projection
  import opened Environment
  import opened Records
  import opened Steps
  import opened Protocol
  import opened Conformance
  import opened Replay
  import opened Periodic
  import Serial
  import Authority
  import Permissions

  // ---- moves --------------------------------------------------------------------------

  /** The guard holds for the record as stored, computed fields included. */
  ghost predicate Passes(env: Env, v: View, when: string, rid: Rid, actor: Actor, now: int) {
    when != "" ==> env.holds(when, v.records, rid.id, actor, env.computed(v.model, v.records, rid, now), now)
  }

  /** A declared transition out of the state the entry names, whose guard holds for the actor. */
  ghost predicate TakenBy(env: Env, v: View, e: Entry, tr: Transition, rid: Rid, action: string, from: string,
                          to: string, actor: Actor)
  {
    && rid in v.records && rid.entity in v.model.workflows && tr in v.model.workflows[rid.entity].transitions
    && tr.action == action && tr.to == to && (tr.from == from || tr.from == "any")
    && Passes(env, v, tr.when, rid, actor, e.ts)
  }

  /** A move is a named transition without a gate, taken by an actor for whom its guard holds; or an auto
      transition to another state, whose guard holds for nobody in particular; or a grant's. A request is for a
      named transition behind the gate it names, whose guard holds for the actor. */
  ghost predicate Grounded(env: Env, v: View, before: seq<Entry>, e: Entry) {
    match e.body
    case RecordAction(action, from, to, guard) =>
      var rid := RidOf(e.subject);
      || Authority.OnApproval(before, e)
      || (exists tr :: TakenBy(env, v, e, tr, rid, action, from, to, e.actor)
            && !tr.auto && tr.approvalRole == "" && guard == tr.when)
      || (e.actor == WORKFLOW_ENGINE && from != to
          && exists tr :: TakenBy(env, v, e, tr, rid, action, from, to, NOBODY) && tr.auto && guard == tr.when
               && e.basis == Some(Basis("rule", "auto:" + tr.from + "->" + tr.to)))
    case ApprovalRequested(entity, recordId, action, from, to, role) =>
      exists tr :: TakenBy(env, v, e, tr, Rid(entity, recordId), action, from, to, e.actor)
        && !tr.auto && tr.approvalRole == role != ""
    case _ => true
  }

  lemma PassesIs(env: Env, v: View, when: string, rid: Rid, actor: Actor, now: int)
    ensures GuardHolds(env, v, when, rid, actor, now) <==> Passes(env, v, when, rid, actor, now)
  {
  }

  lemma MoveIsGrounded(env: Env, s: State, e: Entry)
    requires Legal(env, s, e)
    ensures Grounded(env, s.view, s.log, e)
  {
    hide GuardHolds, Passes, CreateCheck, UpdateCheck, Permissions.CanNamed;
    if e.body.RecordAction? {
      assert ActionLegal(env, s, e);
      var rid, b := RidOf(e.subject), e.body;
      if NamedLegal(env, s, e) {
        var tr :| ActCheck(env, s.view, e.actor, rid, b.action, e.ts) == Success(tr)
          && tr.approvalRole == "" && b.to == tr.to && b.guard == tr.when;
        PassesIs(env, s.view, tr.when, rid, e.actor, e.ts);
        assert TakenBy(env, s.view, e, tr, rid, b.action, b.from, b.to, e.actor);
      } else if AutoLegal(env, s, e) {
        var tr :| tr in s.view.model.workflows[rid.entity].transitions
          && AutoEnabled(env, s.view, rid, tr, b.from, e.ts) && b.action == tr.action && b.to == tr.to
          && b.guard == tr.when && e.basis == Some(AutoBasis(tr));
        PassesIs(env, s.view, tr.when, rid, NOBODY, e.ts);
        assert TakenBy(env, s.view, e, tr, rid, b.action, b.from, b.to, NOBODY);
      }
    } else if e.body.ApprovalRequested? {
      var b := e.body;
      var rid := Rid(b.entity, b.recordId);
      var tr :| ActCheck(env, s.view, e.actor, rid, b.action, e.ts) == Success(tr)
        && tr.approvalRole != "" && b.role == tr.approvalRole && b.to == tr.to;
      PassesIs(env, s.view, tr.when, rid, e.actor, e.ts);
      assert TakenBy(env, s.view, e, tr, rid, b.action, b.from, b.to, e.actor);
    }
  }

  // ---- how far auto transitions run ----------------------------------------------------

  /** Auto transitions move a record at most ten times in a row, each by one entry; after fewer, none is left that
      may be taken. */
  lemma {:induction false} AutoRunStops(env: Env, s: State, rid: Rid, transitions: seq<Transition>, now: int,
                                        hops: nat)
    ensures var t := AutoRun(env, s, rid, transitions, now, hops);
      && s.log <= t.log && |t.log| <= |s.log| + hops
      && (|t.log| < |s.log| + hops ==>
            forall tr <- transitions ::
              tr.auto && tr.to != StateOf(t.view, rid) && tr.from in {StateOf(t.view, rid), "any"}
              ==> !Passes(env, t.view, tr.when, rid, NOBODY, now))
    decreases hops
  {
    hide Apply;
    if hops > 0 {
      var tr := NextAuto(env, s.view, rid, transitions, now);
      if tr.Some? {
        AutoRunStops(env, AutoHop(env, s, rid, tr.value, now), rid, transitions, now, hops - 1);
      }
    }
  }

  lemma SettlesWithinTen(env: Env, s: State, rid: Rid, now: int)
    requires rid in s.view.records && rid.entity in s.view.model.workflows
    ensures var transitions := s.view.model.workflows[rid.entity].transitions;
      exists t :: t == AutoRun(env, s, rid, transitions, now, 10)
        && |t.log| <= |s.log| + 10
        && Settle(env, s, rid, now) ==
           EnsureTasks(env, t, rid, transitions, StateOf(t.view, rid), SinceOf(t.view, rid), now)
  {
    AutoRunStops(env, s, rid, s.view.model.workflows[rid.entity].transitions, now, 10);
    hide AutoRun, EnsureTasks;
  }

  // ---- times --------------------------------------------------------------------------------

  /** Digits and a unit. */
  predicate TimeText(text: string, digits: string, unit: char) {
    text == digits + [unit] && digits != "" && Serial.AllDigits(digits) && unit in {'d', 'h', 'm'}
  }

  /** So many days, hours or minutes, in seconds. */
  ghost predicate Lasts(text: string, seconds: int) {
    exists digits, unit :: TimeText(text, digits, unit) &&
      var n := Serial.Number(digits);
      seconds == if unit == 'd' then n * 24 * 60 * 60 else if unit == 'h' then n * 60 * 60 else n * 60
  }

  lemma DurationIs(text: string)
    ensures ParseDuration(text).Some? ==> Lasts(text, ParseDuration(text).value)
    ensures forall seconds :: Lasts(text, seconds) ==> ParseDuration(text) == Some(seconds)
  {
    if ParseDuration(text).Some? {
      var digits, unit := text[..|text| - 1], text[|text| - 1];
      assert text == digits + [unit];
      assert TimeText(text, digits, unit);
    }
    forall seconds | Lasts(text, seconds) ensures ParseDuration(text) == Some(seconds) {
      var digits, unit :| TimeText(text, digits, unit) &&
        var n := Serial.Number(digits);
        seconds == if unit == 'd' then n * 24 * 60 * 60 else if unit == 'h' then n * 60 * 60 else n * 60;
      assert text[..|text| - 1] == digits && text[|text| - 1] == unit;
    }
  }

  /** The entry creates the record or moves it. */
  predicate Places(e: Entry, rid: Rid) {
    (e.body.RecordCreated? || e.body.RecordAction?) && e.subject.entity == rid.entity && e.subject.recordId == rid.id
  }

  /** The entry at i put the record in the state it is in after the journal. */
  predicate PlacedAt(log: seq<Entry>, rid: Rid, i: nat) {
    i < |log| && Places(log[i], rid) && forall k :: i < k < |log| ==> !Places(log[k], rid)
  }

  /** The projection's entry times are those of the last creation or move. */
  lemma {:induction false} SinceIsPlaced(compile: Compiler, m: Model, log: seq<Entry>, rid: Rid)
    ensures var v := Fold(compile, Genesis(m), log);
      && (forall i: nat :: PlacedAt(log, rid, i) ==> rid in v.since && v.since[rid] == log[i].ts)
      && (rid in v.since || rid in v.records ==> rid in v.since && exists i: nat :: PlacedAt(log, rid, i))
    decreases |log|
  {
    hide NextApprovals, NextTasks, NextProposals, NextLinks, NextModel, NextVersion;
    if log != [] {
      var n := |log| - 1;
      var less, e := log[..n], log[n];
      SinceIsPlaced(compile, m, less, rid);
      if Places(e, rid) {
        assert RidOf(e.subject) == rid;
        assert PlacedAt(log, rid, n);
      } else {
        forall i: nat ensures PlacedAt(log, rid, i) <==> PlacedAt(less, rid, i) {
          assert forall k :: 0 <= k < n ==> less[k] == log[k];
        }
      }
    }
  }

  /** The state the record is in; a record without a state is in the empty one. */
  predicate InState(v: View, rid: Rid, state: string) {
    && rid in v.records && rid.entity in v.model.workflows
    && var x := Get(v.records[rid], v.model.workflows[rid.entity].field);
       x == Str(state) || (state == "" && !x.Str?)
  }

  lemma InStateIs(v: View, rid: Rid, state: string)
    requires rid in v.records && rid.entity in v.model.workflows
    ensures StateOf(v, rid) == state <==> InState(v, rid, state)
  {
  }

  // ---- tasks ------------------------------------------------------------------------------------

  /** What an action asks for. */
  predicate Asks(a: Action, entity: string, id: string, b: Body) {
    || (a.kind == "agent" && b == TaskCreated(AgentTask, a.role, entity, id, a.task, a.args))
    || (a.kind == "escalate" && b == TaskCreated(Escalation, a.role, entity, id, "escalation", ""))
    || (a.kind == "notify" && b == TaskCreated(Notification, "", entity, id, "", a.args))
    || (a.kind == "webhook" && b == TaskCreated(Webhook, "", entity, id, "", a.args))
  }

  /** The record has been in the rule's state, since it was placed there, for as long as the rule says. */
  ghost predicate LongIn(v: View, before: seq<Entry>, rid: Rid, rule: Rule, i: nat, seconds: int, now: int) {
    && InState(v, rid, rule.stuckState) && PlacedAt(before, rid, i)
    && Lasts(rule.stuckFor, seconds) && now - before[i].ts >= seconds
  }

  /** A rule of the definition calls for the task: on its day, for a record that passes its condition; once for a
      stay in a state that has lasted; or after a write, for a record that passes. */
  ghost predicate RuleCalls(env: Env, v: View, before: seq<Entry>, e: Entry, rule: Rule, index: nat) {
    && e.body.TaskCreated? && rule in v.model.automations && index < |rule.actions|
    && Asks(rule.actions[index], rule.entity, e.body.recordId, e.body)
    && e.basis == Some(Basis("rule", rule.id.file + ":" + Serial.PrintInt(rule.id.line, 0)))
    && var id, rid := e.body.recordId, Rid(rule.entity, e.body.recordId);
       match e.key
       case ScheduleKey(ruleId, recordId, day, i) =>
         && rule.trigger == "schedule" && ruleId == rule.id && recordId == id && i == index
         && day == e.ts / (24 * 60 * 60)
         && (if rule.entity == "" then id == "" else rid in v.records && Passes(env, v, rule.when, rid, NOBODY, e.ts))
       case StuckKey(ruleId, recordId, since, i) =>
         && rule.trigger == "stuck" && ruleId == rule.id && recordId == id && i == index
         && exists k: nat, seconds :: LongIn(v, before, rid, rule, k, seconds, e.ts) && before[k].ts == since
       case NoKey =>
         && (rule.trigger == "create" || rule.trigger == "update")
         && rid in v.records && Passes(env, v, rule.when, rid, NOBODY, e.ts)
       case _ => false
  }

  /** A transition out of the record's state has an assignee, whose work the task is, once per stay. */
  ghost predicate AssigneeCalls(v: View, before: seq<Entry>, e: Entry, tr: Transition, state: string, i: nat) {
    && e.body.TaskCreated?
    && var rid := Rid(e.body.entity, e.body.recordId);
       && InState(v, rid, state) && PlacedAt(before, rid, i)
       && tr in v.model.workflows[rid.entity].transitions && !tr.auto && (tr.from == state || tr.from == "any")
       && tr.assigneeRole != "" && e.basis == Some(Basis("rule", "workflow-assignee"))
       && e.body == TaskCreated(WorkflowTask, tr.assigneeRole, rid.entity, rid.id, tr.action, "")
       && e.key == StateKey(rid.entity, rid.id, tr.action, before[i].ts)
  }

  ghost predicate CalledFor(env: Env, v: View, before: seq<Entry>, e: Entry) {
    || (exists rule, index: nat :: RuleCalls(env, v, before, e, rule, index))
    || (exists tr, state, i: nat :: AssigneeCalls(v, before, e, tr, state, i))
  }

  lemma FiringCalls(env: Env, m: Model, before: seq<Entry>, e: Entry, rule: Rule, firing: Firing, index: nat)
    requires FiredBy(env, Fold(env.compile, Genesis(m), before), e, rule, firing, index)
    ensures RuleCalls(env, Fold(env.compile, Genesis(m), before), before, e, rule, index)
  {
    var v := Fold(env.compile, Genesis(m), before);
    var rid := Rid(rule.entity, e.body.recordId);
    hide Fold, GuardHolds, Passes, ParseDuration, PlacedAt;
    PassesIs(env, v, rule.when, rid, NOBODY, e.ts);
    if firing.PerStateEntry? {
      DurationIs(rule.stuckFor);
      InStateIs(v, rid, rule.stuckState);
      SinceIsPlaced(env.compile, m, before, rid);
      var k: nat :| PlacedAt(before, rid, k);
      assert k < |before| by { PlacedInside(before, rid, k); }
      assert LongIn(v, before, rid, rule, k, ParseDuration(rule.stuckFor).value, e.ts);
    }
  }

  lemma PlacedInside(log: seq<Entry>, rid: Rid, i: nat)
    requires PlacedAt(log, rid, i)
    ensures i < |log|
  {
  }

  lemma AssignmentCalls(env: Env, m: Model, before: seq<Entry>, e: Entry, tr: Transition)
    requires AssignedBy(Fold(env.compile, Genesis(m), before), e, tr)
    ensures CalledFor(env, Fold(env.compile, Genesis(m), before), before, e)
  {
    var v := Fold(env.compile, Genesis(m), before);
    var rid := Rid(e.body.entity, e.body.recordId);
    var state := StateOf(v, rid);
    hide Fold, PlacedAt;
    InStateIs(v, rid, state);
    SinceIsPlaced(env.compile, m, before, rid);
    var i: nat :| PlacedAt(before, rid, i);
    assert i < |before| by { PlacedInside(before, rid, i); }
    assert AssigneeCalls(v, before, e, tr, state, i);
  }

  lemma LegalIsCalledFor(env: Env, m: Model, s: State, e: Entry)
    requires s.view == Fold(env.compile, Genesis(m), s.log) && Legal(env, s, e) && e.body.TaskCreated?
    ensures CalledFor(env, s.view, s.log, e)
  {
    assert TaskCreationLegal(env, s, e);
    hide Legal, Fold, FiredBy, AssignedBy, RuleCalls, AssigneeCalls;
    if rule, firing, index :| FiredBy(env, s.view, e, rule, firing, index) {
      FiringCalls(env, m, s.log, e, rule, firing, index);
    } else {
      var tr :| AssignedBy(s.view, e, tr);
      AssignmentCalls(env, m, s.log, e, tr);
    }
  }

  /** Nothing is journaled without a basis; what is done to a task rests on the task, an expiry on the lease rule,
      an applied definition on its approval. */
  predicate Based(e: Entry) {
    && e.basis.Some?
    && (e.body.TaskTaken? || e.body.TaskProgress? || e.body.TaskCompleted? || e.body.TaskFailed? ==>
          e.basis == Some(Basis("task", e.subject.taskId)))
    && (e.body.TaskExpired? ==> e.basis == Some(Basis("rule", "lease-ttl")) && e.actor == WORKFLOW_ENGINE)
    && (e.body.DefinitionApplied? ==> e.basis == Some(Basis("approval", e.subject.proposalId)))
  }

  lemma LegalIsBased(env: Env, s: State, e: Entry)
    requires Legal(env, s, e)
    ensures Based(e)
  {
    hide CreateCheck, UpdateCheck, ActCheck, TaskCreationLegal, CreationLegal, UpdateLegal, ActionLegal, LinkLegal;
  }

  /** In every admissible run, every entry has a basis, and every move, request and task its grounds. */
  lemma EveryEntryIsGrounded(env: Env, genesis: Model, calls: seq<TimedCall>, j: nat)
    requires FreshIds(env) && AdmissibleRun(env, Start(genesis), calls)
    requires j < |Run(env, Start(genesis), calls).log|
    ensures var log := Run(env, Start(genesis), calls).log;
      var v, e := Fold(env.compile, Genesis(genesis), log[..j]), log[j];
      && Based(e) && Grounded(env, v, log[..j], e)
      && (e.body.TaskCreated? ==> CalledFor(env, v, log[..j], e))
  {
    StartIsGood(env, genesis);
    RunConforms(env, Start(genesis), calls);
    var t := Run(env, Start(genesis), calls);
    hide Run, AdmissibleRun, Good;
    LegalHistory(env, genesis, t);
    var s := State(Fold(env.compile, Genesis(genesis), t.log[..j]), t.log[..j]);
    assert Legal(env, s, t.log[j]);
    hide Legal, Fold;
    LegalIsBased(env, s, t.log[j]);
    MoveIsGrounded(env, s, t.log[j]);
    if t.log[j].body.TaskCreated? {
      LegalIsCalledFor(env, genesis, s, t.log[j]);
    }
  }

  // ---- and what is called for is queued ------------------------------------------------------------

  /** A record that has been in a rule's state for long enough at a tick has exactly one task for each of the
      rule's actions, under that stay's key: this rule's task, unless the key was used before. */
  lemma LongStayIsQueued(env: Env, genesis: Model, calls: seq<TimedCall>, n: nat, rule: Rule, id: string, k: nat,
                         seconds: int, index: nat) returns (j: nat)
    requires FreshIds(env) && AdmissibleRun(env, Start(genesis), calls)
    requires n < |calls| && calls[n].call.TickCall?
    requires var s := Run(env, Start(genesis), calls[..n]);
      && rule in s.view.model.automations && rule.trigger == "stuck"
      && LongIn(s.view, s.log, Rid(rule.entity, id), rule, k, seconds, calls[n].now)
    requires index < |rule.actions| && rule.actions[index].kind in {"agent", "escalate", "notify", "webhook"}
    ensures var s, log := Run(env, Start(genesis), calls[..n]), Run(env, Start(genesis), calls).log;
      k < |s.log| &&
      var key := StuckKey(rule.id, id, s.log[k].ts, index);
      && OnlyTask(log, key, j)
      && (j < |s.log| <==> HasKey(s.log, key))
      && (j >= |s.log| && DistinctRules(s.view.model) ==>
            Asks(rule.actions[index], rule.entity, id, log[j].body))
  {
    var s := Run(env, Start(genesis), calls[..n]);
    PrefixAdmissible(env, Start(genesis), calls, n);
    ReplayEqualsLive(env, genesis, calls[..n]);
    StayIsDue(env, genesis, s, rule, id, k, seconds, calls[n].now);
    assert ActionTask(rule.actions[index], rule.entity, id).Some?;
    hide Run, AdmissibleRun, LongIn, Due, FreshIds;
    j := FiresExactlyOnce(env, genesis, calls, n, rule, id, PerStateEntry(s.log[k].ts), index);
    if j >= |s.log| && DistinctRules(s.view.model) {
      AskedTask(Run(env, Start(genesis), calls).log[j], rule, id, index);
    }
  }

  lemma PrefixAdmissible(env: Env, s: State, calls: seq<TimedCall>, n: nat)
    requires AdmissibleRun(env, s, calls) && n <= |calls|
    ensures AdmissibleRun(env, s, calls[..n])
  {
    hide Admissible, Run;
    forall i | 0 <= i < n ensures calls[..n][..i] == calls[..i] {
    }
  }

  lemma StayIsDue(env: Env, genesis: Model, s: State, rule: Rule, id: string, k: nat, seconds: int, now: int)
    requires Replayed(env, genesis, s) && rule in s.view.model.automations && rule.trigger == "stuck"
    requires LongIn(s.view, s.log, Rid(rule.entity, id), rule, k, seconds, now)
    ensures k < |s.log| && Due(env, s.view, rule, id, PerStateEntry(s.log[k].ts), now)
  {
    var rid := Rid(rule.entity, id);
    PlacedInside(s.log, rid, k);
    DurationIs(rule.stuckFor);
    InStateIs(s.view, rid, rule.stuckState);
    SinceIsPlaced(env.compile, genesis, s.log, rid);
    hide Fold, PlacedAt, ParseDuration, Lasts, InState;
    assert SinceOf(s.view, rid) == s.log[k].ts;
  }

  lemma AskedTask(e: Entry, rule: Rule, id: string, index: nat)
    requires TaskOf(e, rule, id, index)
    ensures Asks(rule.actions[index], rule.entity, id, e.body)
  {
  }

  /** And a rule for the day queues its tasks at every tick for each record that passes, once. */
  lemma ScheduledIsQueued(env: Env, genesis: Model, calls: seq<TimedCall>, n: nat, rule: Rule, id: string, index: nat)
    returns (j: nat)
    requires FreshIds(env) && AdmissibleRun(env, Start(genesis), calls)
    requires n < |calls| && calls[n].call.TickCall?
    requires var s, rid := Run(env, Start(genesis), calls[..n]), Rid(rule.entity, id);
      && rule in s.view.model.automations && rule.trigger == "schedule"
      && if rule.entity == "" then id == ""
         else rid in s.view.records && Passes(env, s.view, rule.when, rid, NOBODY, calls[n].now)
    requires index < |rule.actions| && rule.actions[index].kind in {"agent", "escalate", "notify", "webhook"}
    ensures var s, log := Run(env, Start(genesis), calls[..n]), Run(env, Start(genesis), calls).log;
      var key := ScheduleKey(rule.id, id, calls[n].now / (24 * 60 * 60), index);
      && OnlyTask(log, key, j)
      && (j < |s.log| <==> HasKey(s.log, key))
      && (j >= |s.log| && DistinctRules(s.view.model) ==>
            Asks(rule.actions[index], rule.entity, id, log[j].body))
  {
    var s := Run(env, Start(genesis), calls[..n]);
    PassesIs(env, s.view, rule.when, Rid(rule.entity, id), NOBODY, calls[n].now);
    assert ActionTask(rule.actions[index], rule.entity, id).Some?;
    assert Due(env, s.view, rule, id, Daily(calls[n].now / DAY), calls[n].now);
    hide Run, AdmissibleRun, Due, FreshIds;
    j := FiresExactlyOnce(env, genesis, calls, n, rule, id, Daily(calls[n].now / DAY), index);
    if j >= |s.log| && DistinctRules(s.view.model) {
      AskedTask(Run(env, Start(genesis), calls).log[j], rule, id, index);
    }
  }
}
