/** Periodic rules fire exactly once, however often the clock ticks. */
module Periodic {
  // Once per record, action and day for schedules; per record, action and state entry for stuck rules.

  import opened Values
  import opened Model
  import opened Journal
  import opened Projection
  import opened Environment
  import opened Records
  import opened Steps
  import opened Protocol
  import opened Conformance
  import opened Replay
  import Leases

  predicate HasKey(log: seq<Entry>, key: Key) {
    exists e <- log :: e.key == key
  }

  /** The entry at j created a task, and it is the only one under the key. */
  ghost predicate OnlyTask(log: seq<Entry>, key: Key, j: int) {
    && 0 <= j < |log| && log[j].key == key && log[j].body.TaskCreated?
    && forall k :: 0 <= k < |log| && log[k].key == key ==> k == j
  }

  lemma ReachesGrows(env: Env, s: State, t: State)
    requires Reaches(env, s, t)
    ensures s.log <= t.log
  {
    var es :| LegalRun(env, s, es) && CommitAll(env, s, es) == t;
    CommitAllFolds(env, s, es);
  }

  lemma KeyStays(a: seq<Entry>, b: seq<Entry>, key: Key)
    requires a <= b && HasKey(a, key)
    ensures HasKey(b, key)
  {
    var e :| e in a && e.key == key;
    assert e in b;
  }

  lemma TaskLeavesKey(env: Env, s: State, t: TaskSpec, basis: Basis, key: Key, now: int)
    requires key != NoKey
    ensures HasKey(CommitTask(env, s, t, basis, key, now).log, key)
  {
    if Prior(s.log, key).None? {
      var e := TaskEntry(s, env.ids(|s.log|), t, basis, key, now);
      assert e in CommitTask(env, s, t, basis, key, now).log;
    }
  }

  // ---- one tick --------------------------------------------------------------------------

  lemma {:induction false} FireLeavesKeys(env: Env, s: State, rule: Rule, entity: string, id: string, firing: Firing,
                                          from: nat, now: int, index: nat)
    requires Good(env, s) && MayFire(env, s.view, rule, entity, id, firing, now) && firing != Unkeyed
    requires from <= index < |rule.actions| && ActionTask(rule.actions[index], entity, id).Some?
    ensures HasKey(Fire(env, s, rule, entity, id, firing, from, now).log, FiringKey(rule, id, firing, index))
    decreases |rule.actions| - from
  {
    hide CommitTask;
    hide MayFire;
    var t := ActionTask(rule.actions[from], entity, id);
    var key := FiringKey(rule, id, firing, from);
    if t.Some? {
      ActionConforms(env, s, rule, entity, id, firing, from, now);
      TaskLeavesKey(env, s, t.value, RuleBasis(rule), key, now);
    }
    var next := if t.Some? then CommitTask(env, s, t.value, RuleBasis(rule), key, now) else s;
    MayFireStill(env, s, next, rule, entity, id, firing, now);
    var u := Fire(env, next, rule, entity, id, firing, from + 1, now);
    if from == index {
      FireConforms(env, next, rule, entity, id, firing, from + 1, now);
      ReachesGrows(env, next, u);
      KeyStays(next.log, u.log, key);
    } else {
      FireLeavesKeys(env, next, rule, entity, id, firing, from + 1, now, index);
    }
  }

  lemma {:induction false} ScheduleLeavesKeys(env: Env, s: State, rule: Rule, ids: seq<string>, now: int, id: string,
                                        index: nat)
    requires Good(env, s) && rule in s.view.model.automations && rule.trigger == "schedule" && rule.entity != ""
    requires id in ids && ScheduleDue(env, s.view, rule, id, now)
    requires index < |rule.actions| && ActionTask(rule.actions[index], rule.entity, id).Some?
    ensures HasKey(Schedule(env, s, rule, ids, now).log, ScheduleKey(rule.id, id, now / DAY, index))
    decreases |ids|
  {
    hide Fire;
    var firing := Daily(now / DAY);
    if ScheduleDue(env, s.view, rule, ids[0], now) {
      FireConforms(env, s, rule, rule.entity, ids[0], firing, 0, now);
    }
    var next := if ScheduleDue(env, s.view, rule, ids[0], now)
      then Fire(env, s, rule, rule.entity, ids[0], firing, 0, now) else s;
    var u := Schedule(env, next, rule, ids[1..], now);
    if ids[0] == id {
      FireLeavesKeys(env, s, rule, rule.entity, id, firing, 0, now, index);
      ScheduleConforms(env, next, rule, ids[1..], now);
      ReachesGrows(env, next, u);
      KeyStays(next.log, u.log, ScheduleKey(rule.id, id, now / DAY, index));
    } else {
      ScheduleLeavesKeys(env, next, rule, ids[1..], now, id, index);
    }
  }

  lemma {:induction false} StuckLeavesKeys(env: Env, s: State, rule: Rule, duration: int, ids: seq<string>, now: int,
                                        id: string, index: nat)
    requires Good(env, s) && rule in s.view.model.automations && rule.trigger == "stuck"
      && ParseDuration(rule.stuckFor) == Some(duration) && rule.entity in s.view.model.workflows
    requires id in ids && StuckDue(s.view, rule, id, duration, now)
    requires index < |rule.actions| && ActionTask(rule.actions[index], rule.entity, id).Some?
    ensures HasKey(Stuck(env, s, rule, duration, ids, now).log,
      StuckKey(rule.id, id, SinceOf(s.view, Rid(rule.entity, id)), index))
    decreases |ids|
  {
    hide Fire;
    var firing := PerStateEntry(SinceOf(s.view, Rid(rule.entity, ids[0])));
    if StuckDue(s.view, rule, ids[0], duration, now) {
      FireConforms(env, s, rule, rule.entity, ids[0], firing, 0, now);
    }
    var next := if StuckDue(s.view, rule, ids[0], duration, now)
      then Fire(env, s, rule, rule.entity, ids[0], firing, 0, now) else s;
    var u := Stuck(env, next, rule, duration, ids[1..], now);
    if ids[0] == id {
      FireLeavesKeys(env, s, rule, rule.entity, id, firing, 0, now, index);
      StuckConforms(env, next, rule, duration, ids[1..], now);
      ReachesGrows(env, next, u);
      KeyStays(next.log, u.log, StuckKey(rule.id, id, SinceOf(s.view, Rid(rule.entity, id)), index));
    } else {
      StuckLeavesKeys(env, next, rule, duration, ids[1..], now, id, index);
    }
  }

  /** The rule's condition for this record, as a firing, in this state. */
  ghost predicate Due(env: Env, v: View, rule: Rule, id: string, firing: Firing, now: int) {
    firing != Unkeyed && MayFire(env, v, rule, rule.entity, id, firing, now)
  }

  lemma RuleLeavesKey(env: Env, s: State, rule: Rule, now: int, id: string, firing: Firing, index: nat)
    requires Good(env, s) && Due(env, s.view, rule, id, firing, now)
    requires index < |rule.actions| && ActionTask(rule.actions[index], rule.entity, id).Some?
    ensures HasKey(RunRule(env, s, rule, now).log, FiringKey(rule, id, firing, index))
  {
    hide Fire;
    var ids := SortedIds(IdsOf(s.view.records, rule.entity));
    if firing.Daily? && rule.entity == "" {
      FireLeavesKeys(env, s, rule, "", "", firing, 0, now, index);
    } else {
      assert Rid(rule.entity, id) in s.view.records;
      assert id in IdsOf(s.view.records, rule.entity);
      assert id in ids;
      if firing.Daily? {
        ScheduleLeavesKeys(env, s, rule, ids, now, id, index);
      } else {
        StuckLeavesKeys(env, s, rule, ParseDuration(rule.stuckFor).value, ids, now, id, index);
      }
    }
  }

  lemma {:induction false} RulesLeaveKey(env: Env, s: State, rules: seq<Rule>, now: int, rule: Rule, id: string,
                                        firing: Firing, index: nat)
    requires Good(env, s) && Due(env, s.view, rule, id, firing, now)
    requires rule in rules && forall r <- rules :: r in s.view.model.automations
    requires index < |rule.actions| && ActionTask(rule.actions[index], rule.entity, id).Some?
    ensures HasKey(RunRules(env, s, rules, now).log, FiringKey(rule, id, firing, index))
    decreases |rules|
  {
    hide RunRule;
    hide MayFire;
    var next := RunRule(env, s, rules[0], now);
    RunRuleConforms(env, s, rules[0], now);
    var u := RunRules(env, next, rules[1..], now);
    if rules[0] == rule {
      RuleLeavesKey(env, s, rule, now, id, firing, index);
      RunRulesConform(env, next, rules[1..], now);
      ReachesGrows(env, next, u);
      KeyStays(next.log, u.log, FiringKey(rule, id, firing, index));
    } else {
      MayFireStill(env, s, next, rule, rule.entity, id, firing, now);
      RulesLeaveKey(env, next, rules[1..], now, rule, id, firing, index);
    }
  }

  lemma TickLeavesKey(env: Env, s: State, now: int, rule: Rule, id: string, firing: Firing, index: nat)
    requires Good(env, s) && Due(env, s.view, rule, id, firing, now)
    requires index < |rule.actions| && ActionTask(rule.actions[index], rule.entity, id).Some?
    ensures HasKey(Tick(env, s, now).log, FiringKey(rule, id, firing, index))
  {
    var rules := s.view.model.automations;
    assert rule in rules;
    RulesLeaveKey(env, s, rules, now, rule, id, firing, index);
    RunRulesConform(env, s, rules, now);
    var t := RunRules(env, s, rules, now);
    hide RunRules;
    var ids := SortedIds(t.view.tasks.Keys);
    ExpireAllConforms(env, t, ids, now);
    ReachesGrows(env, t, ExpireAll(env, t, ids, now));
    KeyStays(t.log, ExpireAll(env, t, ids, now).log, FiringKey(rule, id, firing, index));
  }

  // ---- the whole run -----------------------------------------------------------------------

  lemma {:induction false} RunGrows(env: Env, s: State, calls: seq<TimedCall>, i: nat)
    requires Good(env, s) && AdmissibleRun(env, s, calls) && i <= |calls|
    ensures Run(env, s, calls[..i]).log <= Run(env, s, calls).log
    decreases |calls|
  {
    hide Step;
    if i == |calls| {
      assert calls[..i] == calls;
    } else {
      var n := |calls| - 1;
      var most := calls[..n];
      forall k | 0 <= k < n ensures Admissible(Run(env, s, most[..k]), most[k].call) { assert most[..k] == calls[..k]; }
      assert most[..i] == calls[..i];
      RunGrows(env, s, most, i);
      RunConforms(env, s, most);
      var t := Run(env, s, most);
      assert Admissible(t, calls[n].call);
      StepConforms(env, t, calls[n].call, calls[n].now);
      ReachesGrows(env, t, Run(env, s, calls));
    }
  }

  /** A rule's file and line name one rule of the definition. */
  predicate DistinctRules(m: Model) {
    forall r, q | r in m.automations && q in m.automations :: r.id == q.id ==> r == q
  }

  /** The entry created the task this action of this rule asks for, for this record. */
  predicate TaskOf(e: Entry, rule: Rule, id: string, index: nat) {
    && e.body.TaskCreated? && index < |rule.actions|
    && ActionTask(rule.actions[index], rule.entity, id)
       == Some(TaskSpec(e.body.kind, e.body.role, e.body.entity, e.body.recordId, e.body.action, e.body.args))
  }

  /** A rule due for a record at some tick of a run has exactly one task for each of its actions under that
      day's, or that state entry's, key; no later tick adds another. The due rule is passed over exactly when
      the key had been used before the tick; otherwise the task is the one this rule's action asks for. Under a
      fixed definition the task is always this rule's. */
  lemma FiresExactlyOnce(env: Env, genesis: Model, calls: seq<TimedCall>, i: nat, rule: Rule, id: string,
                         firing: Firing, index: nat)
    returns (j: nat)
    requires FreshIds(env) && AdmissibleRun(env, Start(genesis), calls)
    requires i < |calls| && calls[i].call.TickCall?
    requires Due(env, Run(env, Start(genesis), calls[..i]).view, rule, id, firing, calls[i].now)
    requires index < |rule.actions| && ActionTask(rule.actions[index], rule.entity, id).Some?
    ensures var s, log := Run(env, Start(genesis), calls[..i]), Run(env, Start(genesis), calls).log;
      && OnlyTask(log, FiringKey(rule, id, firing, index), j)
      && (j < |s.log| <==> HasKey(s.log, FiringKey(rule, id, firing, index)))
      && (j >= |s.log| && DistinctRules(s.view.model) ==> TaskOf(log[j], rule, id, index))
      && (FixedDefinition(log) && DistinctRules(genesis) ==> TaskOf(log[j], rule, id, index))
  {
    hide Due;
    hide Step;
    var start := Start(genesis);
    var key := FiringKey(rule, id, firing, index);
    StartIsGood(env, genesis);
    forall k | 0 <= k < i ensures Admissible(Run(env, start, calls[..i][..k]), calls[..i][k].call) {
      assert calls[..i][..k] == calls[..k];
    }
    RunConforms(env, start, calls[..i]);
    var s := Run(env, start, calls[..i]);
    TickLeavesKey(env, s, calls[i].now, rule, id, firing, index);
    assert calls[..i + 1][..i] == calls[..i] && calls[..i + 1][i] == calls[i];
    var u := Run(env, start, calls[..i + 1]);
    assert u == Step(env, s, TickCall, calls[i].now).state;
    TickIsStep(env, s, calls[i].now);
    RunGrows(env, start, calls, i);
    RunGrows(env, start, calls, i + 1);
    RunConforms(env, start, calls);
    var t := Run(env, start, calls);
    KeyStays(u.log, t.log, key);
    assert EngineKey(key) by { DueIsKeyed(env, s.view, rule, id, firing, calls[i].now, index); }
    OneTaskPerKey(env, t, key);
    j :| OnlyTask(t.log, key, j);
    OnlyWhere(s.log, t.log, key, j);
    OnlyWhere(u.log, t.log, key, j);
    ReachesReplayed(env, genesis, start, s);
    TickConforms(env, s, calls[i].now);
    ReachesGrows(env, s, u);
    ReachesReplayed(env, genesis, s, u);
    LegalHistory(env, genesis, t);
    TaskIsTheRules(env, genesis, s, u, t.log, rule, id, firing, calls[i].now, index, j);
  }

  /** The one entry under a key stands in a prefix exactly when the prefix holds the key. */
  lemma OnlyWhere(a: seq<Entry>, log: seq<Entry>, key: Key, j: int)
    requires a <= log && OnlyTask(log, key, j)
    ensures HasKey(a, key) <==> j < |a|
  {
    if HasKey(a, key) {
      var e :| e in a && e.key == key;
      var k :| 0 <= k < |a| && a[k] == e;
      assert log[k] == e;
    }
    if j < |a| {
      assert a[j] == log[j] && a[j] in a;
    }
  }

  lemma SameVersionBetween(compile: Compiler, v: View, log: seq<Entry>, i: nat, j: nat, k: nat)
    requires i <= j <= k <= |log|
    requires Fold(compile, v, log[..i]).defVersion == Fold(compile, v, log[..k]).defVersion
    ensures Fold(compile, v, log[..j]).model == Fold(compile, v, log[..i]).model
  {
    assert log[..j] == log[..i] + log[i..j] && log[..k] == log[..j] + log[j..k];
    FoldSplit(compile, v, log[..i], log[i..j]);
    FoldSplit(compile, v, log[..j], log[j..k]);
    VersionsGrow(compile, Fold(compile, v, log[..i]), log[i..j]);
    VersionsGrow(compile, Fold(compile, v, log[..j]), log[j..k]);
  }

  lemma TaskIsTheRules(env: Env, genesis: Model, s: State, u: State, log: seq<Entry>, rule: Rule, id: string,
                       firing: Firing,
                       now: int, index: nat, j: nat)
    requires Replayed(env, genesis, s) && Replayed(env, genesis, u) && LegalLog(env, genesis, log)
    requires s.log <= u.log <= log && j < |u.log| && Onward(s, u) && Due(env, s.view, rule, id, firing, now)
    requires index < |rule.actions| && ActionTask(rule.actions[index], rule.entity, id).Some?
    requires OnlyTask(log, FiringKey(rule, id, firing, index), j)
    ensures j >= |s.log| && DistinctRules(s.view.model) ==> TaskOf(log[j], rule, id, index)
    ensures FixedDefinition(log) && DistinctRules(genesis) ==> TaskOf(log[j], rule, id, index)
  {
    hide Legal, Fold, Due, FiringKey, FiredBy, TaskOf, ActionTask;
    var v := Fold(env.compile, Genesis(genesis), log[..j]);
    assert Legal(env, State(v, log[..j]), log[j]);
    DueIsKeyed(env, s.view, rule, id, firing, now, index);
    assert s.log == log[..|s.log|] && u.log == log[..|u.log|];
    if j >= |s.log| {
      SameVersionBetween(env.compile, Genesis(genesis), log, |s.log|, j, |u.log|);
    }
    if FixedDefinition(log) {
      FixedPrefix(log, j);
      FixedPrefix(log, |s.log|);
      VersionsGrow(env.compile, Genesis(genesis), log[..j]);
      VersionsGrow(env.compile, Genesis(genesis), s.log);
    }
    FiredBySomeRule(env, State(v, log[..j]), log[j], rule, id, firing, index);
  }

  lemma FiredBySomeRule(env: Env, s: State, e: Entry, rule: Rule, id: string, firing: Firing, index: nat)
    requires Legal(env, s, e) && e.key == FiringKey(rule, id, firing, index) && firing != Unkeyed
      && index < |rule.actions|
    ensures rule in s.view.model.automations && DistinctRules(s.view.model) ==> TaskOf(e, rule, id, index)
  {
    LegalTaskKey(env, s, e);
    hide Legal;
    var q, f, k :| FiredBy(env, s.view, e, q, f, k);
    if rule in s.view.model.automations && DistinctRules(s.view.model) {
      SameRuleSameTask(env, s.view, e, q, f, k, rule, id, firing, index);
    }
  }

  lemma FixedPrefix(log: seq<Entry>, n: nat)
    requires FixedDefinition(log) && n <= |log|
    ensures FixedDefinition(log[..n])
  {
  }

  lemma SameRuleSameTask(env: Env, v: View, e: Entry, q: Rule, f: Firing, k: nat, rule: Rule, id: string,
                         firing: Firing, index: nat)
    requires FiredBy(env, v, e, q, f, k) && index < |rule.actions| && firing != Unkeyed
    requires e.key == FiringKey(rule, id, firing, index)
    requires rule in v.model.automations && DistinctRules(v.model)
    ensures TaskOf(e, rule, id, index)
  {
    assert q.id == rule.id && q in v.model.automations;
  }

  lemma TickIsStep(env: Env, s: State, now: int)
    ensures Step(env, s, TickCall, now).state == Tick(env, s, now)
  {
    hide Tick;
  }

  lemma DueIsKeyed(env: Env, v: View, rule: Rule, id: string, firing: Firing, now: int, index: nat)
    requires Due(env, v, rule, id, firing, now)
    ensures EngineKey(FiringKey(rule, id, firing, index)) && firing != Unkeyed && rule in v.model.automations
  {
  }

  lemma OneTaskPerKey(env: Env, t: State, key: Key)
    requires Good(env, t) && EngineKey(key) && HasKey(t.log, key)
    ensures exists j :: OnlyTask(t.log, key, j)
  {
    var e :| e in t.log && e.key == key;
    var j :| 0 <= j < |t.log| && t.log[j] == e;
    assert OnlyTask(t.log, key, j);
  }

  // ---- and for no other reason -------------------------------------------------------------------

  /** Conversely, a task under a schedule or stuck key was created by a rule that was due then: on that day its
      condition held, or it had been in the state since that instant for long enough. */
  lemma FiresOnlyWhenDue(env: Env, genesis: Model, calls: seq<TimedCall>, j: nat)
    requires FreshIds(env) && AdmissibleRun(env, Start(genesis), calls)
    requires j < |Run(env, Start(genesis), calls).log|
    requires var e := Run(env, Start(genesis), calls).log[j]; e.key.ScheduleKey? || e.key.StuckKey?
    ensures var log := Run(env, Start(genesis), calls).log;
      && (log[j].key.ScheduleKey? ==> log[j].key.day == log[j].ts / DAY)
      && exists rule, firing, index ::
           FiredBy(env, Fold(env.compile, Genesis(genesis), log[..j]), log[j], rule, firing, index)
  {
    StartIsGood(env, genesis);
    RunConforms(env, Start(genesis), calls);
    var t := Run(env, Start(genesis), calls);
    hide Run;
    LegalHistory(env, genesis, t);
    var v := Fold(env.compile, Genesis(genesis), t.log[..j]);
    assert Legal(env, State(v, t.log[..j]), t.log[j]);
    LegalTaskKey(env, State(v, t.log[..j]), t.log[j]);
  }

  lemma LegalTaskKey(env: Env, s: State, e: Entry)
    requires Legal(env, s, e) && (e.key.ScheduleKey? || e.key.StuckKey?)
    ensures e.key.ScheduleKey? ==> e.key.day == e.ts / DAY
    ensures exists rule, firing, index :: FiredBy(env, s.view, e, rule, firing, index)
  {
    assert EngineKey(e.key);
    assert TaskCreationLegal(env, s, e) by {
      hide TaskCreationLegal;
    }
    hide Legal;
    assert !(exists tr :: AssignedBy(s.view, e, tr));
    var rule, firing, index :| FiredBy(env, s.view, e, rule, firing, index);
  }

  // ---- a rule that is passed over ------------------------------------------------------------------

  /** Work is queued for one role; the definition changes; another rule now stands on the same file and line. */
  function Relined(env: Env, x: string, files: map<string, string>): seq<TimedCall> {
    var owner, basis := Actor(Human, x, env.approver, map[]), Some(Basis("human", x));
    [TimedCall(TickCall, 0),
     TimedCall(ProposeCall(owner, files, 1, "", basis), 0),
     TimedCall(DecideProposalCall(owner, env.ids(1), true, None, basis), 0),
     TimedCall(TickCall, 0)]
  }

  lemma RelinedDefinition(env: Env, x: string, files: map<string, string>, role: string, other: string)
    requires FreshIds(env) && !env.requireSignatures && x != ""
    requires files != map[] && env.compile(files) == Some(Leases.ChoreModel(other))
    ensures var t := Run(env, Start(Leases.ChoreModel(role)), Relined(env, x, files)[..3]);
      && t.view.model == Leases.ChoreModel(other)
      && t.view.tasks == map[env.ids(0) := Task(AgentTask, role, "", "", "chore", "", Open, "", 0)]
      && t.log != [] && t.log[0].key == ScheduleKey(RuleId("rules", 1), "", 0, 0)
        && t.log[0].subject.taskId == env.ids(0)
  {
    var s, calls := Start(Leases.ChoreModel(role)), Relined(env, x, files);
    Leases.ChoreIsQueued(env, role);
    assert calls[..1] == [TimedCall(TickCall, 0)] && calls[..2][..1] == calls[..1] && calls[..3][..2] == calls[..2];
    hide Tick, Start;
    var a := Run(env, s, calls[..1]);
    var b := Run(env, s, calls[..2]);
    assert b == Step(env, a, calls[1].call, 0).state;
    assert Run(env, s, calls[..3]) == Step(env, b, calls[2].call, 0).state;
    hide Run;
    ChangeIsProposed(env, a, x, files);
    ChangeIsApplied(env, b, x, files, Leases.ChoreModel(other));
  }

  lemma ChangeIsProposed(env: Env, s: State, x: string, files: map<string, string>)
    requires FreshIds(env) && x != "" && s.view.defVersion == 1 && |s.log| == 1
    requires env.compile(files).Some? && Additive(s.view.model, env.compile(files).value)
    ensures var t := Step(env, s, Relined(env, x, files)[1].call, 0).state;
      && t.log == s.log + [t.log[|s.log|]]
      && t.view == s.view.(proposals := s.view.proposals[env.ids(1) :=
                             Proposal("", Actor(Human, x, env.approver, map[]), 1, files, Parked)])
  {
  }

  lemma ChangeIsApplied(env: Env, s: State, x: string, files: map<string, string>, next: Model)
    requires !env.requireSignatures && x != "" && s.view.defVersion == 1 && |s.log| == 2
    requires env.compile(files) == Some(next)
    requires env.ids(1) in s.view.proposals &&
      s.view.proposals[env.ids(1)] == Proposal("", Actor(Human, x, env.approver, map[]), 1, files, Parked)
    ensures var t := Step(env, s, Relined(env, x, files)[2].call, 0).state;
      s.log <= t.log && t.view.model == next && t.view.tasks == s.view.tasks
  {
  }

  /** A reachable failure of "once per rule and day": the new rule on the line is due the same day and gets no
      task, because the key names the line. */
  lemma RelinedRuleIsPassedOver(env: Env, x: string, files: map<string, string>, role: string, other: string)
    requires FreshIds(env) && !env.requireSignatures && x != "" && role != other
    requires files != map[] && env.compile(files) == Some(Leases.ChoreModel(other))
    ensures var start, calls := Start(Leases.ChoreModel(role)), Relined(env, x, files);
      && AdmissibleRun(env, start, calls)
      && Due(env, Run(env, start, calls[..3]).view, Leases.ChoreModel(other).automations[0], "", Daily(0), 0)
      && forall id <- Run(env, start, calls).view.tasks :: Run(env, start, calls).view.tasks[id].role != other
  {
    var start, calls := Start(Leases.ChoreModel(role)), Relined(env, x, files);
    assert calls[..4] == calls && calls[..4][..3] == calls[..3];
    RelinedDefinition(env, x, files, role, other);
    var s := Run(env, start, calls[..3]);
    assert Run(env, start, calls) == Step(env, s, TickCall, 0).state;
    hide Run, Start, Relined;
    ChoreIsRepeated(env, s, other, env.ids(0));
    assert 0 / DAY == 0;
    var rule := Leases.ChoreModel(other).automations[0];
    assert MayFire(env, s.view, rule, rule.entity, "", Daily(0), 0);
  }

  /** A tick whose only chore is already journaled under its key leaves the tasks alone. */
  lemma ChoreIsRepeated(env: Env, s: State, role: string, id: string)
    requires s.view.model == Leases.ChoreModel(role) && s.view.tasks.Keys == {id} && s.view.tasks[id].status == Open
    requires s.log != [] && s.log[0].key == ScheduleKey(RuleId("rules", 1), "", 0, 0) && s.log[0].subject.taskId == id
    ensures Step(env, s, TickCall, 0).state == s
  {
    var rule := s.view.model.automations[0];
    var spec := TaskSpec(AgentTask, role, "", "", "chore", "");
    var key := ScheduleKey(rule.id, "", 0, 0);
    assert ActionTask(rule.actions[0], "", "") == Some(spec);
    assert Prior(s.log, key) == Some(s.log[0]);
    assert CommitTask(env, s, spec, RuleBasis(rule), key, 0) == s;
    assert Fire(env, s, rule, "", "", Daily(0), 1, 0) == s;
    assert Fire(env, s, rule, "", "", Daily(0), 0, 0) == s;
    assert RunRule(env, s, rule, 0) == s;
    assert [rule][1..] == [];
    assert RunRules(env, s, [], 0) == s;
    assert RunRules(env, s, [rule], 0) == s;
    var ids := SortedIds(s.view.tasks.Keys);
    assert ids == [id] + ids[1..] && ids[1..] == [];
    assert ExpireAll(env, s, ids, 0) == ExpireAll(env, s, [], 0) == s;
    assert Tick(env, s, 0) == s;
  }
}
