/** The lease protocol: what the events of one task spell over a whole run. */
module Leases {
  import opened Values
  import opened Model
  import opened Journal
  import opened Projection
  import opened Environment
  import opened Steps
  import opened Protocol
  import opened Conformance

  // ---- the language of a task's events ------------------------------------------------

  /** Created, then the task is in the pool. */
  predicate Lifecycle(w: seq<Entry>) {
    w != [] ==> w[0].body.TaskCreated? && InPool(w[1..])
  }

  /** In the pool: at most taken next. */
  predicate InPool(w: seq<Entry>)
    decreases |w|
  {
    w != [] ==> w[0].body.TaskTaken? && Held(w[1..], w[0])
  }

  /** Held under a lease: progress by the holder; an expiry returns the task to the pool; or the holder
      finishes it strictly before the lease ends, and nothing follows. */
  predicate Held(w: seq<Entry>, taken: Entry)
    requires taken.body.TaskTaken?
    decreases |w|
  {
    w != [] ==>
      var e := w[0];
      || (e.body.TaskProgress? && e.actor.id == taken.actor.id && Held(w[1..], taken))
      || (e.body.TaskExpired? && e.ts >= taken.body.lease && InPool(w[1..]))
      || ((e.body.TaskCompleted? || e.body.TaskFailed?)
          && e.actor.id == taken.actor.id && e.ts < taken.body.lease && w[1..] == [])
  }

  predicate IsTaskEvent(e: Entry) {
    e.body.TaskCreated? || e.body.TaskTaken? || e.body.TaskProgress? || e.body.TaskCompleted? || e.body.TaskFailed?
      || e.body.TaskExpired?
  }

  /** The events of one task, in journal order. */
  function Word(log: seq<Entry>, id: string): seq<Entry>
    decreases |log|
  {
    if log == [] then []
    else
      var e := log[|log| - 1];
      Word(log[..|log| - 1], id) + if IsTaskEvent(e) && e.subject.taskId == id then [e] else []
  }

  // ---- where a word ends ------------------------------------------------------------------

  datatype Phase = Unknown | Pool | Lease(taken: Entry) | Over

  function After(p: Phase, e: Entry): Phase {
    match e.body
    case TaskCreated(_, _, _, _, _, _) => Pool
    case TaskTaken(_) => Lease(e)
    case TaskExpired => Pool
    case TaskCompleted(_) => Over
    case TaskFailed(_) => Over
    case _ => p
  }

  function PhaseOf(w: seq<Entry>): Phase
    decreases |w|
  {
    if w == [] then Unknown else After(PhaseOf(w[..|w| - 1]), w[|w| - 1])
  }

  /** Whether an event may come next in this phase. */
  predicate Fits(p: Phase, e: Entry) {
    match p
    case Unknown => e.body.TaskCreated?
    case Pool => e.body.TaskTaken?
    case Lease(taken) =>
      && taken.body.TaskTaken?
      && (|| (e.body.TaskProgress? && e.actor.id == taken.actor.id)
          || (e.body.TaskExpired? && e.ts >= taken.body.lease)
          || ((e.body.TaskCompleted? || e.body.TaskFailed?) && e.actor.id == taken.actor.id && e.ts < taken.body.lease))
    case Over => false
  }

  lemma {:induction false} PoolExtends(w: seq<Entry>, e: Entry, p: Phase)
    requires InPool(w) && p == PhaseFrom(Pool, w)
    ensures InPool(w + [e]) <==> Fits(p, e)
    decreases |w|
  {
    if w == [] {
      assert (w + [e])[1..] == [];
    } else {
      assert (w + [e])[1..] == w[1..] + [e];
      HeldExtends(w[1..], w[0], e, p);
    }
  }

  lemma {:induction false} HeldExtends(w: seq<Entry>, taken: Entry, e: Entry, p: Phase)
    requires taken.body.TaskTaken? && Held(w, taken) && p == PhaseFrom(Lease(taken), w)
    ensures Held(w + [e], taken) <==> Fits(p, e)
    decreases |w|
  {
    if w == [] {
      assert (w + [e])[1..] == [];
    } else {
      assert (w + [e])[1..] == w[1..] + [e];
      if w[0].body.TaskProgress? {
        HeldExtends(w[1..], taken, e, p);
      } else if w[0].body.TaskExpired? {
        PoolExtends(w[1..], e, p);
      }
    }
  }

  /** The phase after reading a word, front to back. */
  function PhaseFrom(p: Phase, w: seq<Entry>): Phase
    decreases |w|
  {
    if w == [] then p else PhaseFrom(After(p, w[0]), w[1..])
  }

  lemma {:induction false} PhaseFromSnoc(p: Phase, w: seq<Entry>, e: Entry)
    ensures PhaseFrom(p, w + [e]) == After(PhaseFrom(p, w), e)
    decreases |w|
  {
    if w == [] {
      assert (w + [e])[1..] == [];
    } else {
      assert (w + [e])[1..] == w[1..] + [e];
      PhaseFromSnoc(After(p, w[0]), w[1..], e);
    }
  }

  lemma {:induction false} PhasesAgree(w: seq<Entry>)
    ensures PhaseOf(w) == PhaseFrom(Unknown, w)
    decreases |w|
  {
    if w != [] {
      var n := |w| - 1;
      PhasesAgree(w[..n]);
      PhaseFromSnoc(Unknown, w[..n], w[n]);
      assert w[..n] + [w[n]] == w;
    }
  }

  /** A word extends by exactly the events that fit the phase it ends in. */
  lemma LifecycleExtends(w: seq<Entry>, e: Entry)
    requires Lifecycle(w)
    ensures Lifecycle(w + [e]) <==> Fits(PhaseOf(w), e)
  {
    PhasesAgree(w);
    if w == [] {
      assert (w + [e])[1..] == [];
    } else {
      assert (w + [e])[1..] == w[1..] + [e];
      PoolExtends(w[1..], e, PhaseOf(w));
    }
  }

  // ---- the invariant ------------------------------------------------------------------------

  /** The projected task shows the phase its events end in. */
  predicate Shows(t: Task, p: Phase) {
    match t.status
    case Open => p == Pool
    case Taken =>
      p.Lease? && p.taken.body.TaskTaken? && p.taken.actor.id == t.takenBy && p.taken.body.lease == t.leaseUntil
                  && p.taken.actor.role == t.role
    case Completed => p == Over
    case Failed => p == Over
  }

  ghost predicate TaskShown(s: State, id: string) {
    if id in s.view.tasks then Shows(s.view.tasks[id], PhaseOf(Word(s.log, id))) else Word(s.log, id) == []
  }

  ghost predicate Inv(env: Env, s: State) {
    Good(env, s) && forall id :: Lifecycle(Word(s.log, id)) && TaskShown(s, id)
  }

  lemma WordAppend(log: seq<Entry>, e: Entry, id: string)
    ensures Word(log + [e], id) == Word(log, id) + if IsTaskEvent(e) && e.subject.taskId == id then [e] else []
  {
    assert (log + [e])[..|log|] == log;
  }

  lemma TaskEventFits(env: Env, s: State, e: Entry)
    requires Good(env, s) && Legal(env, s, e) && IsTaskEvent(e) && TaskShown(s, e.subject.taskId)
    ensures Fits(PhaseOf(Word(s.log, e.subject.taskId)), e)
    ensures var t := Commit(env, s, e); e.subject.taskId in t.view.tasks
    ensures var t := Commit(env, s, e);
      Shows(t.view.tasks[e.subject.taskId], After(PhaseOf(Word(s.log, e.subject.taskId)), e))
  {
    if e.body.TaskCreated? {
      assert TaskCreationLegal(env, s, e);
      FreshNotDrawn(env, |s.log|);
    } else {
      assert TaskStepLegal(env, s, e);
    }
    hide Legal, Good, TaskCreationLegal, FreshIds, NextRecords, NextSince, NextApprovals, NextProposals, NextModel,
      NextLinks;
  }

  lemma InvStays(env: Env, s: State, e: Entry)
    requires Inv(env, s) && Legal(env, s, e)
    ensures Inv(env, Commit(env, s, e))
  {
    CommitKeepsGood(env, s, e);
    var t := Commit(env, s, e);
    forall id ensures Lifecycle(Word(t.log, id)) && TaskShown(t, id) {
      assert Lifecycle(Word(s.log, id)) && TaskShown(s, id);
      WordAppend(s.log, e, id);
      if IsTaskEvent(e) && e.subject.taskId == id {
        TaskEventFits(env, s, e);
        LifecycleExtends(Word(s.log, id), e);
        PhaseOfAppend(Word(s.log, id), e);
      } else {
        TaskUntouched(env, s, e, id);
        assert Word(t.log, id) == Word(s.log, id);
      }
    }
  }

  lemma PhaseOfAppend(w: seq<Entry>, e: Entry)
    ensures PhaseOf(w + [e]) == After(PhaseOf(w), e)
  {
    assert (w + [e])[..|w|] == w;
  }

  lemma TaskUntouched(env: Env, s: State, e: Entry, id: string)
    requires !(IsTaskEvent(e) && e.subject.taskId == id)
    ensures id in Commit(env, s, e).view.tasks <==> id in s.view.tasks
    ensures id in s.view.tasks ==> Commit(env, s, e).view.tasks[id] == s.view.tasks[id]
  {
  }

  lemma {:induction false} InvHolds(env: Env, s: State, es: seq<Entry>)
    requires Inv(env, s) && LegalRun(env, s, es)
    ensures Inv(env, CommitAll(env, s, es))
    decreases |es|
  {
    if es != [] {
      InvStays(env, s, es[0]);
      hide Inv;
      hide Legal;
      InvHolds(env, Commit(env, s, es[0]), es[1..]);
    }
  }

  /** In every admissible run, each task's events spell Created (Taken Progress* Expired)* and then at most
      Taken Progress* (Completed | Failed): one holder at a time, only the holder reports and finishes, it
      finishes strictly before its lease ends, a lease is not expired early, and a finished task is over.
      The projection shows the phase: who holds the task, until when, and that the holder took it with the
      task's role. */
  lemma LeaseProtocol(env: Env, m: Model, calls: seq<TimedCall>, id: string)
    requires FreshIds(env) && AdmissibleRun(env, Start(m), calls)
    ensures var t := Run(env, Start(m), calls);
      Lifecycle(Word(t.log, id)) && TaskShown(t, id)
  {
    var t := Run(env, Start(m), calls);
    var es := RunEntries(env, m, calls);
    hide Run;
    InvHolds(env, Start(m), es);
  }

  // ---- under which role a task is finished -----------------------------------------------------

  predicate Finishes(e: Entry) {
    e.body.TaskCompleted? || e.body.TaskFailed?
  }

  /** The task's role is the one it was created with, and every holder took it under that role. */
  predicate Staffed(t: Task, w: seq<Entry>) {
    && w != [] && w[0].body.TaskCreated? && w[0].body.role == t.role
    && forall e <- w :: e.body.TaskTaken? ==> e.actor.role == t.role
  }

  ghost predicate RolesInv(env: Env, s: State) {
    Inv(env, s) && forall id <- s.view.tasks :: Staffed(s.view.tasks[id], Word(s.log, id))
  }

  lemma RolesStay(env: Env, s: State, e: Entry)
    requires RolesInv(env, s) && Legal(env, s, e)
    ensures RolesInv(env, Commit(env, s, e))
  {
    InvStays(env, s, e);
    var t := Commit(env, s, e);
    forall id | id in t.view.tasks ensures Staffed(t.view.tasks[id], Word(t.log, id)) {
      assert TaskShown(s, id);
      WordAppend(s.log, e, id);
      if IsTaskEvent(e) && e.subject.taskId == id {
        RoleStays(env, s, e);
      } else {
        TaskUntouched(env, s, e, id);
        assert Word(t.log, id) == Word(s.log, id);
      }
    }
  }

  lemma RoleStays(env: Env, s: State, e: Entry)
    requires Inv(env, s) && Legal(env, s, e) && IsTaskEvent(e) && TaskShown(s, e.subject.taskId)
    requires e.subject.taskId in s.view.tasks ==> Staffed(s.view.tasks[e.subject.taskId], Word(s.log, e.subject.taskId))
    ensures var t := Commit(env, s, e); e.subject.taskId in t.view.tasks
    ensures var t := Commit(env, s, e);
      Staffed(t.view.tasks[e.subject.taskId], Word(s.log, e.subject.taskId) + [e])
  {
    if e.body.TaskCreated? {
      assert TaskCreationLegal(env, s, e);
      FreshNotDrawn(env, |s.log|);
      hide Legal, Good, TaskCreationLegal, FreshIds, NextRecords, NextSince, NextApprovals, NextProposals, NextModel,
        NextLinks;
    } else {
      assert TaskStepLegal(env, s, e);
      hide Legal, Good;
      RoleKept(env, s, e);
      hide TaskStepLegal, Apply, TaskShown;
    }
  }

  /** A step of a task keeps its role, and whoever takes it acts under it. */
  lemma RoleKept(env: Env, s: State, e: Entry)
    requires TaskStepLegal(env, s, e) && !e.body.TaskCreated?
    ensures var id, t := e.subject.taskId, Commit(env, s, e);
      && id in s.view.tasks && id in t.view.tasks && t.view.tasks[id].role == s.view.tasks[id].role
      && (e.body.TaskTaken? ==> e.actor.role == s.view.tasks[id].role)
  {
    hide NextRecords, NextSince, NextApprovals, NextProposals, NextModel, NextLinks, FactsBy;
  }

  lemma {:induction false} RolesHold(env: Env, s: State, es: seq<Entry>)
    requires RolesInv(env, s) && LegalRun(env, s, es)
    ensures RolesInv(env, CommitAll(env, s, es))
    decreases |es|
  {
    if es != [] {
      RolesStay(env, s, es[0]);
      hide RolesInv;
      hide Legal;
      RolesHold(env, Commit(env, s, es[0]), es[1..]);
    }
  }

  /** The actor whose finish stands at j took the task at i. */
  predicate TookIt(w: seq<Entry>, i: int, j: int) {
    0 <= i < j < |w| && w[i].body.TaskTaken? && w[i].actor.id == w[j].actor.id
  }

  lemma {:induction false} PoolFinish(w: seq<Entry>, j: nat)
    requires InPool(w) && j < |w| && Finishes(w[j])
    ensures exists i :: TookIt(w, i, j)
    decreases |w|
  {
    HeldFinish(w[1..], w[0], j - 1);
    if w[j].actor.id == w[0].actor.id {
      assert TookIt(w, 0, j);
    } else {
      var i :| TookIt(w[1..], i, j - 1);
      assert TookIt(w, i + 1, j);
    }
  }

  lemma {:induction false} HeldFinish(w: seq<Entry>, taken: Entry, j: nat)
    requires taken.body.TaskTaken? && Held(w, taken) && j < |w| && Finishes(w[j])
    ensures w[j].actor.id == taken.actor.id || exists i :: TookIt(w, i, j)
    decreases |w|
  {
    if j > 0 {
      if w[0].body.TaskProgress? {
        HeldFinish(w[1..], taken, j - 1);
      } else {
        PoolFinish(w[1..], j - 1);
      }
      if w[j].actor.id != taken.actor.id {
        var i :| TookIt(w[1..], i, j - 1);
        assert TookIt(w, i + 1, j);
      }
    }
  }

  /** In every admissible run: who finishes a task took it before, under the task's role; so a finish is by the
      task's role exactly when the finisher acts under the role it took the task with. */
  lemma FinishRoleIff(env: Env, m: Model, calls: seq<TimedCall>, id: string, j: nat) returns (i: nat)
    requires FreshIds(env) && AdmissibleRun(env, Start(m), calls)
    requires j < |Word(Run(env, Start(m), calls).log, id)| && Finishes(Word(Run(env, Start(m), calls).log, id)[j])
    ensures var t := Run(env, Start(m), calls);
      var w := Word(t.log, id);
      && TookIt(w, i, j) && id in t.view.tasks && w[0].body.TaskCreated? && w[0].body.role == t.view.tasks[id].role
      && w[i].actor.role == t.view.tasks[id].role
      && (w[j].actor.role == t.view.tasks[id].role <==> w[j].actor.role == w[i].actor.role)
  {
    var t := Run(env, Start(m), calls);
    var es := RunEntries(env, m, calls);
    hide Run, LegalRun, CommitAll, AdmissibleRun, FreshIds;
    StartHasRoles(env, m);
    RolesHold(env, Start(m), es);
    i := TakenUnderRole(env, t, id, j);
  }

  lemma StartHasRoles(env: Env, m: Model)
    requires Good(env, Start(m))
    ensures RolesInv(env, Start(m))
  {
    hide Good;
  }

  lemma TakenUnderRole(env: Env, t: State, id: string, j: nat) returns (i: nat)
    requires RolesInv(env, t) && j < |Word(t.log, id)| && Finishes(Word(t.log, id)[j])
    ensures TookIt(Word(t.log, id), i, j) && id in t.view.tasks
    ensures Word(t.log, id)[0].body.TaskCreated? && Word(t.log, id)[0].body.role == t.view.tasks[id].role
    ensures Word(t.log, id)[i].actor.role == t.view.tasks[id].role
  {
    hide Good, Word, InPool;
    var w := Word(t.log, id);
    assert TaskShown(t, id) && Lifecycle(w);
    assert Staffed(t.view.tasks[id], w);
    PoolFinish(w[1..], j - 1);
    var k :| TookIt(w[1..], k, j - 1);
    i := k + 1;
    assert w[i] in w;
  }

  /** Each actor id takes and finishes tasks under one role only. */
  predicate OneRoleEach(log: seq<Entry>) {
    forall d, e | d in log && e in log && IsTaskEvent(d) && IsTaskEvent(e) && d.actor.id == e.actor.id ::
      d.actor.role == e.actor.role
  }

  lemma {:induction false} WordFrom(log: seq<Entry>, id: string)
    ensures forall e <- Word(log, id) :: e in log && IsTaskEvent(e) && e.subject.taskId == id
    decreases |log|
  {
    if log != [] {
      WordFrom(log[..|log| - 1], id);
    }
  }

  /** So where each id acts under one role, every task is finished by an actor of the task's role. */
  lemma FinishedByItsRole(env: Env, m: Model, calls: seq<TimedCall>, id: string, j: nat)
    requires FreshIds(env) && AdmissibleRun(env, Start(m), calls)
    requires OneRoleEach(Run(env, Start(m), calls).log)
    requires j < |Word(Run(env, Start(m), calls).log, id)| && Finishes(Word(Run(env, Start(m), calls).log, id)[j])
    ensures var t := Run(env, Start(m), calls);
      id in t.view.tasks && Word(t.log, id)[j].actor.role == t.view.tasks[id].role
  {
    var i := FinishRoleIff(env, m, calls, id, j);
    hide AdmissibleRun, Run;
    var log := Run(env, Start(m), calls).log;
    WordFrom(log, id);
    var w := Word(log, id);
    assert w[i] in w && w[j] in w;
  }

  // ---- and where the role is not looked at ---------------------------------------------------------

  /** A pack whose one rule asks a role for work once a day. */
  function ChoreModel(role: string): Model {
    Model(map[], map[], map[],
      [Rule(RuleId("rules", 1), "schedule", "", "", "", "", [Action("agent", role, "chore", "")])], [])
  }

  /** The id takes the chore under the role asked for and completes it under another. */
  function TwoHats(env: Env, x: string, role: string, other: string): seq<TimedCall> {
    [TimedCall(TickCall, 0),
     TimedCall(TakeCall(Actor(Agent, x, role, map[]), env.ids(0)), 0),
     TimedCall(FinishCall(Actor(Agent, x, other, map[]), env.ids(0), true, ""), 0)]
  }

  lemma ChoreIsQueued(env: Env, role: string)
    ensures var t := Run(env, Start(ChoreModel(role)), [TimedCall(TickCall, 0)]);
      && t.view.tasks == map[env.ids(0) := Task(AgentTask, role, "", "", "chore", "", Open, "", 0)]
      && t.view == Genesis(ChoreModel(role)).(tasks := t.view.tasks) && |t.log| == 1
      && t.log[0].key == ScheduleKey(RuleId("rules", 1), "", 0, 0) && t.log[0].subject.taskId == env.ids(0)
  {
    var s := Start(ChoreModel(role));
    var rule := s.view.model.automations[0];
    var spec := TaskSpec(AgentTask, role, "", "", "chore", "");
    assert ActionTask(rule.actions[0], "", "") == Some(spec);
    var t := CommitTask(env, s, spec, RuleBasis(rule), ScheduleKey(rule.id, "", 0, 0), 0);
    assert Fire(env, t, rule, "", "", Daily(0), 1, 0) == t;
    assert Fire(env, s, rule, "", "", Daily(0), 0, 0) == t;
    assert RunRule(env, s, rule, 0) == t;
    assert [rule][1..] == [];
    assert RunRules(env, t, [], 0) == t;
    assert RunRules(env, s, [rule], 0) == t;
    var ids := SortedIds(t.view.tasks.Keys);
    assert t.view.tasks.Keys == {env.ids(0)};
    assert ids == [env.ids(0)] + ids[1..] && ids[1..] == [];
    assert ExpireAll(env, t, ids, 0) == ExpireAll(env, t, [], 0) == t;
    assert Tick(env, s, 0) == t;
    assert [TimedCall(TickCall, 0)][..0] == [];
    assert Run(env, s, []) == s;
  }

  /** A reachable failure: one id takes a task under its role and finishes it under a foreign one. */
  lemma ForeignRoleFinishes(env: Env, x: string, role: string, other: string)
    requires FreshIds(env) && env.taskTTL > 0 && x != "" && role != other
    ensures AdmissibleRun(env, Start(ChoreModel(role)), TwoHats(env, x, role, other))
    ensures var t := Run(env, Start(ChoreModel(role)), TwoHats(env, x, role, other));
      && env.ids(0) in t.view.tasks && t.view.tasks[env.ids(0)].role == role && t.log != []
      && var last := t.log[|t.log| - 1];
         last.body.TaskCompleted? && last.subject.taskId == env.ids(0) && last.actor.role == other
  {
    var s, calls := Start(ChoreModel(role)), TwoHats(env, x, role, other);
    assert calls[..1] == [TimedCall(TickCall, 0)] && calls[..2][..1] == calls[..1] && calls[..3][..2] == calls[..2]
      && calls[..3] == calls;
    ChoreIsQueued(env, role);
    hide Tick, Start, ChoreModel, FreshIds;
    var a := Run(env, s, calls[..1]);
    var b := Run(env, s, calls[..2]);
    assert b == Step(env, a, calls[1].call, 0).state;
    assert Run(env, s, calls) == Step(env, b, calls[2].call, 0).state;
    hide Run, Genesis;
    TakenThenFinished(env, a, x, role, other);
  }

  lemma TakenThenFinished(env: Env, s: State, x: string, role: string, other: string)
    requires env.taskTTL > 0 && x != ""
    requires s.view.tasks == map[env.ids(0) := Task(AgentTask, role, "", "", "chore", "", Open, "", 0)]
    ensures var b := Step(env, s, TwoHats(env, x, role, other)[1].call, 0).state;
      var t := Step(env, b, TwoHats(env, x, role, other)[2].call, 0).state;
      && env.ids(0) in t.view.tasks && t.view.tasks[env.ids(0)].role == role && t.log != []
      && var last := t.log[|t.log| - 1];
         last.body.TaskCompleted? && last.subject.taskId == env.ids(0) && last.actor.role == other
  {
    var b := TakeTask(env, s, Actor(Agent, x, role, map[]), env.ids(0), 0).state;
    assert b.view.tasks[env.ids(0)] == Task(AgentTask, role, "", "", "chore", "", Taken, x, env.taskTTL);
    hide NextRecords, NextSince, NextApprovals, NextProposals, NextModel, NextLinks;
    assert Expire(env, b, env.ids(0), 0) == b;
  }

  // ---- the sweep ---------------------------------------------------------------------------------

  /** One lease looked at: over, the task is back in the pool; otherwise nothing changes. */
  lemma ExpireSweeps(env: Env, s: State, id: string, now: int)
    ensures var t := Expire(env, s, id, now);
      && t.view.tasks.Keys == s.view.tasks.Keys
      && (forall k <- s.view.tasks :: k != id ==> t.view.tasks[k] == s.view.tasks[k])
      && (id in s.view.tasks ==>
            t.view.tasks[id] ==
            if s.view.tasks[id].status == Taken && now >= s.view.tasks[id].leaseUntil
            then s.view.tasks[id].(status := Open, takenBy := "") else s.view.tasks[id])
  {
    hide NextRecords, NextSince, NextApprovals, NextProposals, NextModel, NextLinks;
  }

  lemma {:induction false} SweepAll(env: Env, s: State, ids: seq<string>, now: int)
    ensures var t := ExpireAll(env, s, ids, now);
      && t.view.tasks.Keys == s.view.tasks.Keys
      && forall k <- s.view.tasks ::
           t.view.tasks[k] ==
           if k in ids && s.view.tasks[k].status == Taken && now >= s.view.tasks[k].leaseUntil
           then s.view.tasks[k].(status := Open, takenBy := "") else s.view.tasks[k]
    decreases |ids|
  {
    hide Expire;
    if ids != [] {
      ExpireSweeps(env, s, ids[0], now);
      SweepAll(env, Expire(env, s, ids[0], now), ids[1..], now);
      assert ids == [ids[0]] + ids[1..];
    }
  }

  /** After a tick no lease has run out: every task taken is held beyond that instant. */
  lemma TickSweeps(env: Env, s: State, now: int)
    ensures var t := Tick(env, s, now);
      forall id <- t.view.tasks :: t.view.tasks[id].status == Taken ==> now < t.view.tasks[id].leaseUntil
  {
    hide RunRules, ExpireAll;
    var t := RunRules(env, s, s.view.model.automations, now);
    SweepAll(env, t, SortedIds(t.view.tasks.Keys), now);
  }
}
