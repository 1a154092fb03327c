/** Replay equals live: folding the journal rebuilds the live projection. */
module Replay {
  // The fold starts from the genesis model and covers every admissible run; outside admissible use, the
  // lemmas say exactly when a call makes the two part.

  import opened Values
  import opened Model
  import opened Journal
  import opened Projection
  import opened Environment
  import opened Permissions
  import opened Records
  import opened Steps
  import opened Protocol
  import opened Conformance

  /** What a restart would rebuild is what is live. */
  ghost predicate Replayed(env: Env, genesis: Model, s: State) {
    s.view == Fold(env.compile, Genesis(genesis), s.log)
  }

  lemma {:induction false} CommitAllFolds(env: Env, s: State, es: seq<Entry>)
    ensures CommitAll(env, s, es) == State(Fold(env.compile, s.view, es), s.log + es)
    decreases |es|
  {
    if es == [] {
      assert s.log + es == s.log;
    } else {
      var t := Commit(env, s, es[0]);
      CommitAllFolds(env, t, es[1..]);
      assert es == [es[0]] + es[1..];
      FoldSplit(env.compile, s.view, [es[0]], es[1..]);
      assert [es[0]][..0] == [];
      assert Fold(env.compile, s.view, [es[0]]) == Apply(env.compile, Fold(env.compile, s.view, []), es[0]);
      assert s.log + es == t.log + es[1..];
    }
  }

  lemma ReachesReplayed(env: Env, genesis: Model, s: State, t: State)
    requires Replayed(env, genesis, s) && Reaches(env, s, t)
    ensures Replayed(env, genesis, t)
  {
    var es :| LegalRun(env, s, es) && CommitAll(env, s, es) == t;
    CommitAllFolds(env, s, es);
    FoldSplit(env.compile, Genesis(genesis), s.log, es);
  }

  /** After every admissible run, the live projection equals the fold of its journal. */
  lemma ReplayEqualsLive(env: Env, genesis: Model, calls: seq<TimedCall>)
    requires FreshIds(env) && AdmissibleRun(env, Start(genesis), calls)
    ensures Replayed(env, genesis, Run(env, Start(genesis), calls))
  {
    StartIsGood(env, genesis);
    RunConforms(env, Start(genesis), calls);
    ReachesReplayed(env, genesis, Start(genesis), Run(env, Start(genesis), calls));
  }

  // ---- the journal as a history ----------------------------------------------------------------

  /** Every entry was legal in the state its predecessors fold to. */
  ghost predicate LegalLog(env: Env, genesis: Model, log: seq<Entry>) {
    forall j :: 0 <= j < |log| ==> Legal(env, State(Fold(env.compile, Genesis(genesis), log[..j]), log[..j]), log[j])
  }

  lemma {:induction false} LegalRunIsLegalLog(env: Env, genesis: Model, s: State, es: seq<Entry>)
    requires Replayed(env, genesis, s) && LegalLog(env, genesis, s.log) && LegalRun(env, s, es)
    ensures LegalLog(env, genesis, CommitAll(env, s, es).log)
    decreases |es|
  {
    if es != [] {
      var t := Commit(env, s, es[0]);
      FoldAppend(env.compile, Genesis(genesis), s.log, es[0]);
      hide Legal;
      hide Apply;
      forall j | 0 <= j < |t.log| ensures Legal(env, State(Fold(env.compile, Genesis(genesis), t.log[..j]), t.log[..j]),
        t.log[j]) {
        if j < |s.log| {
          assert t.log[..j] == s.log[..j];
        } else {
          assert t.log[..j] == s.log;
        }
      }
      LegalRunIsLegalLog(env, genesis, t, es[1..]);
    }
  }

  /** Every entry of a reachable journal was legal where it was committed. */
  lemma LegalHistory(env: Env, genesis: Model, t: State)
    requires Reaches(env, Start(genesis), t)
    ensures LegalLog(env, genesis, t.log)
  {
    var es :| LegalRun(env, Start(genesis), es) && CommitAll(env, Start(genesis), es) == t;
    LegalRunIsLegalLog(env, genesis, Start(genesis), es);
  }

  /** Versions never go back, and the definition of a version stays. */
  lemma {:induction false} VersionsGrow(compile: Compiler, v: View, log: seq<Entry>)
    ensures Fold(compile, v, log).defVersion >= v.defVersion
    ensures Fold(compile, v, log).defVersion == v.defVersion ==> Fold(compile, v, log).model == v.model
    ensures FixedDefinition(log) ==> Fold(compile, v, log).model == v.model
    decreases |log|
  {
    if log != [] {
      VersionsGrow(compile, v, log[..|log| - 1]);
      assert log[|log| - 1] in log;
    }
  }

  // ---- what follows a write only moves states and creates tasks ------------------------------

  predicate QuietEntry(e: Entry) {
    e.body.RecordAction? || e.body.TaskCreated?
  }

  /** The journal grew by transitions and task creations only. */
  ghost predicate Quiet(s: State, t: State) {
    s.log <= t.log && forall i :: |s.log| <= i < |t.log| ==> QuietEntry(t.log[i])
  }

  /** One record keeps every field but its workflow field, and no record is lost. */
  ghost predicate Keeps(m: Model, v: View, w: View) {
    && w.model == v.model
    && v.records.Keys == w.records.Keys
    && forall r, k :: r in v.records && !(r.entity in m.workflows && m.workflows[r.entity].field == k) ==>
         Get(w.records[r], k) == Get(v.records[r], k)
  }

  lemma QuietKeeps(compile: Compiler, v: View, e: Entry)
    requires QuietEntry(e)
    ensures Keeps(v.model, v, Apply(compile, v, e))
  {
  }

  lemma KeepsTransitive(m: Model, u: View, v: View, w: View)
    requires Keeps(m, u, v) && Keeps(m, v, w)
    ensures Keeps(m, u, w)
  {
    forall r, k | r in u.records && !(r.entity in m.workflows && m.workflows[r.entity].field == k)
      ensures Get(w.records[r], k) == Get(u.records[r], k)
    {
      assert Get(v.records[r], k) == Get(u.records[r], k);
    }
  }

  lemma {:induction false} QuietFoldKeeps(compile: Compiler, v: View, es: seq<Entry>)
    requires forall e <- es :: QuietEntry(e)
    ensures Keeps(v.model, v, Fold(compile, v, es))
    decreases |es|
  {
    if es != [] {
      var n := |es| - 1;
      QuietFoldKeeps(compile, v, es[..n]);
      var w := Fold(compile, v, es[..n]);
      QuietKeeps(compile, w, es[n]);
      KeepsTransitive(v.model, v, w, Fold(compile, v, es));
    }
  }

  /** Both at once: the journal grew quietly and the live records kept their fields. */
  ghost predicate QuietStep(s: State, t: State) {
    Quiet(s, t) && Keeps(s.view.model, s.view, t.view)
  }

  lemma QuietTransitive(s: State, t: State, u: State)
    requires QuietStep(s, t) && QuietStep(t, u)
    ensures QuietStep(s, u)
  {
    KeepsTransitive(s.view.model, s.view, t.view, u.view);
  }

  lemma TaskQuiet(env: Env, s: State, t: TaskSpec, basis: Basis, key: Key, now: int)
    ensures QuietStep(s, CommitTask(env, s, t, basis, key, now))
  {
  }

  lemma {:induction false} EnsureTasksQuiet(env: Env, s: State, rid: Rid, transitions: seq<Transition>, current: string,
                                        since: int, now: int)
    ensures QuietStep(s, EnsureTasks(env, s, rid, transitions, current, since, now))
    decreases |transitions|
  {
    hide CommitTask;
    if transitions != [] {
      var tr := transitions[0];
      var key := StateKey(rid.entity, rid.id, tr.action, since);
      TaskQuiet(env, s, WorkflowTaskSpec(rid, tr), ASSIGNEE_BASIS, key, now);
      var next := if NeedsTask(tr, current) then CommitTask(env, s, WorkflowTaskSpec(rid, tr), ASSIGNEE_BASIS, key, now)
        else s;
      EnsureTasksQuiet(env, next, rid, transitions[1..], current, since, now);
      QuietTransitive(s, next, EnsureTasks(env, next, rid, transitions[1..], current, since, now));
    }
  }

  lemma {:induction false} FireQuiet(env: Env, s: State, rule: Rule, entity: string, id: string, firing: Firing,
                                     index: nat, now: int)
    requires index <= |rule.actions|
    ensures QuietStep(s, Fire(env, s, rule, entity, id, firing, index, now))
    decreases |rule.actions| - index
  {
    hide CommitTask;
    if index < |rule.actions| {
      var t := ActionTask(rule.actions[index], entity, id);
      var key := FiringKey(rule, id, firing, index);
      if t.Some? {
        TaskQuiet(env, s, t.value, RuleBasis(rule), key, now);
      }
      var next := if t.Some? then CommitTask(env, s, t.value, RuleBasis(rule), key, now) else s;
      FireQuiet(env, next, rule, entity, id, firing, index + 1, now);
      QuietTransitive(s, next, Fire(env, next, rule, entity, id, firing, index + 1, now));
    }
  }

  lemma {:induction false} TriggersQuiet(env: Env, s: State, trigger: string, rid: Rid, rules: seq<Rule>, now: int)
    ensures QuietStep(s, Triggers(env, s, trigger, rid, rules, now))
    decreases |rules|
  {
    hide Fire;
    if rules != [] {
      var rule := rules[0];
      FireQuiet(env, s, rule, rid.entity, rid.id, Unkeyed, 0, now);
      var next :=
        if rule.trigger == trigger && rule.entity == rid.entity && rid in s.view.records
           && GuardHolds(env, s.view, rule.when, rid, NOBODY, now)
        then Fire(env, s, rule, rid.entity, rid.id, Unkeyed, 0, now)
        else s;
      TriggersQuiet(env, next, trigger, rid, rules[1..], now);
      QuietTransitive(s, next, Triggers(env, next, trigger, rid, rules[1..], now));
    }
  }

  lemma AutoHopQuiet(env: Env, s: State, rid: Rid, tr: Transition, now: int)
    ensures QuietStep(s, AutoHop(env, s, rid, tr, now))
  {
  }

  lemma {:induction false} AutoRunQuiet(env: Env, s: State, rid: Rid, transitions: seq<Transition>, now: int, hops: nat)
    ensures QuietStep(s, AutoRun(env, s, rid, transitions, now, hops))
    decreases hops
  {
    hide AutoHop;
    var tr := NextAuto(env, s.view, rid, transitions, now);
    if hops > 0 && tr.Some? {
      AutoHopQuiet(env, s, rid, tr.value, now);
      var t := AutoHop(env, s, rid, tr.value, now);
      AutoRunQuiet(env, t, rid, transitions, now, hops - 1);
      QuietTransitive(s, t, AutoRun(env, t, rid, transitions, now, hops - 1));
    }
  }

  lemma SettleQuiet(env: Env, s: State, rid: Rid, now: int)
    ensures QuietStep(s, Settle(env, s, rid, now))
  {
    hide AutoRun;
    hide EnsureTasks;
    if rid.entity in s.view.model.workflows && rid in s.view.records {
      var transitions := s.view.model.workflows[rid.entity].transitions;
      AutoRunQuiet(env, s, rid, transitions, now, MAX_HOPS);
      var t := AutoRun(env, s, rid, transitions, now, MAX_HOPS);
      EnsureTasksQuiet(env, t, rid, transitions, StateOf(t.view, rid), SinceOf(t.view, rid), now);
      QuietTransitive(s, t, Settle(env, s, rid, now));
    }
  }

  lemma AfterQuiet(env: Env, s: State, trigger: string, rid: Rid, now: int)
    ensures QuietStep(s, After(env, s, trigger, rid, now))
  {
    hide Settle;
    hide Triggers;
    var t := Settle(env, s, rid, now);
    SettleQuiet(env, s, rid, now);
    TriggersQuiet(env, t, trigger, rid, t.view.model.automations, now);
    QuietTransitive(s, t, After(env, s, trigger, rid, now));
  }

  /** What replay makes of a journal that grew quietly. */
  lemma QuietReplay(env: Env, genesis: Model, s: State, t: State)
    requires Replayed(env, genesis, s) && Quiet(s, t)
    ensures Fold(env.compile, Genesis(genesis), t.log) == Fold(env.compile, s.view, t.log[|s.log|..])
    ensures Keeps(s.view.model, s.view, Fold(env.compile, Genesis(genesis), t.log))
  {
    var es := t.log[|s.log|..];
    assert t.log == s.log + es;
    FoldSplit(env.compile, Genesis(genesis), s.log, es);
    forall e | e in es ensures QuietEntry(e) {
      var i :| 0 <= i < |es| && es[i] == e;
      assert t.log[|s.log| + i] == e;
    }
    QuietFoldKeeps(env.compile, s.view, es);
  }

  // ---- exactly when a call parts the live projection from replay ---------------------------------

  /** An update that passes its checks and changes something keeps replay equal to live exactly when its
      key is absent or not yet in the journal. */
  lemma UpdateReplaysIff(env: Env, genesis: Model, s: State, actor: Actor, rid: Rid, values: Fields,
                         basis: Option<Basis>, key: string, now: int)
    requires Good(env, s) && Replayed(env, genesis, s)
    requires Update(env, s, actor, rid, values, basis, KeyOf(key), now).error.None?
    requires Changes(s.view.records[rid], values) != map[]
    ensures Replayed(env, genesis, Update(env, s, actor, rid, values, basis, KeyOf(key), now).state)
       <==> Prior(s.log, KeyOf(key)).None?
  {
    UpdateSucceeds(env, s, actor, rid, values, basis, KeyOf(key), now);
    hide After;
    hide UpdateCheck;
    if Prior(s.log, KeyOf(key)).None? {
      UpdateConforms(env, s, actor, rid, values, basis, key, now);
      ReachesReplayed(env, genesis, s, Update(env, s, actor, rid, values, basis, KeyOf(key), now).state);
    } else {
      UpdateShadowed(env, genesis, s, actor, rid, values, basis, key, now);
    }
  }

  lemma UpdateSucceeds(env: Env, s: State, actor: Actor, rid: Rid, values: Fields, basis: Option<Basis>, key: Key,
                       now: int)
    requires Update(env, s, actor, rid, values, basis, key, now).error.None?
    ensures basis.Some? && rid in s.view.records && !TouchesState(s.view.model, rid.entity, values)
    ensures UpdateCheck(env, s.view, actor, rid, values, now) == Success(Changes(s.view.records[rid], values))
    ensures Changes(s.view.records[rid], values) != map[] ==> actor.id != ""
  {
    hide After;
    hide Can;
    hide FieldWritesOk;
    hide GivenOk;
    hide RefsExist;
    hide UniqueCheck;
  }

  lemma UpdateShadowed(env: Env, genesis: Model, s: State, actor: Actor, rid: Rid, values: Fields,
                       basis: Option<Basis>, key: string, now: int)
    requires Replayed(env, genesis, s) && Prior(s.log, KeyOf(key)).Some?
    requires Update(env, s, actor, rid, values, basis, KeyOf(key), now).error.None?
    requires rid in s.view.records && Changes(s.view.records[rid], values) != map[]
    ensures !Replayed(env, genesis, Update(env, s, actor, rid, values, basis, KeyOf(key), now).state)
  {
    UpdateSucceeds(env, s, actor, rid, values, basis, KeyOf(key), now);
    hide After;
    hide UpdateCheck;
    var changes := Changes(s.view.records[rid], values);
    var t := Shadow(env, s, UpdatedEntry(s, actor, rid, changes, basis, KeyOf(key), now));
    var u := After(env, t, "update", rid, now);
    assert Update(env, s, actor, rid, values, basis, KeyOf(key), now).state == u;
    AfterQuiet(env, t, "update", rid, now);
    assert Quiet(s, u);
    QuietReplay(env, genesis, s, u);
    var k :| k in changes;
    assert Get(t.view.records[rid], k) == values[k] != Get(s.view.records[rid], k);
    assert Get(u.view.records[rid], k) == values[k];
    assert Get(Fold(env.compile, Genesis(genesis), u.log).records[rid], k) == Get(s.view.records[rid], k);
  }

  /** A creation that passes keeps replay equal to live exactly when its key is absent, new, or names a
      record that exists, or when the id behind the key already is a record of the entity. */
  lemma CreateReplaysIff(env: Env, genesis: Model, s: State, actor: Actor, entity: string, values: Fields,
                         basis: Option<Basis>, key: string, now: int)
    requires Good(env, s) && Replayed(env, genesis, s)
    requires Create(env, s, actor, entity, values, basis, KeyOf(key), now).error.None?
    ensures var prior := Prior(s.log, KeyOf(key));
      Replayed(env, genesis, Create(env, s, actor, entity, values, basis, KeyOf(key), now).state) <==>
      (prior.None? || RidOf(prior.value.subject) in s.view.records ||
        Rid(entity, prior.value.subject.recordId) in s.view.records)
  {
    hide After;
    hide CreateCheck;
    var prior := Prior(s.log, KeyOf(key));
    var out := Create(env, s, actor, entity, values, basis, KeyOf(key), now).state;
    if prior.None? || RidOf(prior.value.subject) in s.view.records {
      CreateConforms(env, s, actor, entity, values, basis, key, now);
      ReachesReplayed(env, genesis, s, out);
    } else if Rid(entity, prior.value.subject.recordId) in s.view.records {
      assert out == s;
    } else {
      var rid := Rid(entity, prior.value.subject.recordId);
      var checked := CreateCheck(env, s.view, actor, entity, values, now).value;
      var t := CommitCreation(env, s,
        CreatedEntry(s, actor, Rid(entity, env.ids(|s.log|)), checked, basis, KeyOf(key), now));
      assert t.log == s.log && rid in t.view.records;
      assert out == After(env, t, "create", rid, now);
      AfterQuiet(env, t, "create", rid, now);
      assert Quiet(s, out);
      QuietReplay(env, genesis, s, out);
      assert rid in out.view.records && rid !in Fold(env.compile, Genesis(genesis), out.log).records;
    }
  }

  /** Applying a proposal keeps replay equal to live exactly when the proposal carries sources. */
  lemma DecideProposalReplaysIff(env: Env, genesis: Model, s: State, actor: Actor, id: string, signature: Option<Bytes>,
                                 basis: Option<Basis>, now: int)
    requires Replayed(env, genesis, s)
    requires DecideProposal(env, s, actor, id, true, signature, basis, now).error.None?
    ensures id in s.view.proposals
    ensures Replayed(env, genesis, DecideProposal(env, s, actor, id, true, signature, basis, now).state)
       <==> s.view.proposals[id].files != map[]
  {
    hide SignatureOk;
    var d := ProposalEntry(s, actor, id, DefinitionApproved(id), basis, now);
    var t := Commit(env, s, d);
    var e := ProposalEntry(t, actor, id, DefinitionApplied(id), Some(Basis("approval", id)), now);
    var next := env.compile(s.view.proposals[id].files).value;
    FoldAppend(env.compile, Genesis(genesis), s.log, d);
    FoldAppend(env.compile, Genesis(genesis), t.log, e);
    var live := Swap(t.view, next, id);
    assert DecideProposal(env, s, actor, id, true, signature, basis, now).state == State(live, t.log + [e]);
    var replayed := Apply(env.compile, t.view, e);
    if s.view.proposals[id].files == map[] {
      assert replayed.proposals[id].status == Approved && live.proposals[id].status == Applied;
    }
  }

  /** An action parked for approval keeps replay equal to live exactly when its key is absent or new. */
  lemma ActRequestReplaysIff(env: Env, genesis: Model, s: State, actor: Actor, rid: Rid, action: string,
                             basis: Option<Basis>, key: string, now: int)
    requires Good(env, s) && Replayed(env, genesis, s)
    requires Act(env, s, actor, rid, action, basis, KeyOf(key), now).error.None?
    requires ActCheck(env, s.view, actor, rid, action, now).value.approvalRole != ""
    ensures Replayed(env, genesis, Act(env, s, actor, rid, action, basis, KeyOf(key), now).state)
       <==> Prior(s.log, KeyOf(key)).None?
  {
    hide ActCheck;
    var out := Act(env, s, actor, rid, action, basis, KeyOf(key), now).state;
    if Prior(s.log, KeyOf(key)).None? {
      ActConforms(env, s, actor, rid, action, basis, key, now);
      ReachesReplayed(env, genesis, s, out);
    } else {
      FreshNotDrawn(env, |s.log|);
      assert out.log == s.log && env.ids(|s.log|) in out.view.approvals;
      assert env.ids(|s.log|) !in s.view.approvals;
    }
  }

  /** The two projections agree on everything but one record's workflow field and entry time. */
  ghost predicate ApartAt(rid: Rid, v: View, w: View) {
    && rid in v.records && rid in w.records && rid.entity in v.model.workflows
    && var field := v.model.workflows[rid.entity].field;
       && w == v.(records := v.records[rid := w.records[rid]], since := w.since)
       && v.records[rid] - {field} == w.records[rid] - {field}
       && v.since - {rid} == w.since - {rid}
  }

  lemma SameElsewhere<K, T>(a: map<K, T>, b: map<K, T>, k: K, x: T)
    requires a - {k} == b - {k}
    ensures a[k := x] == b[k := x]
  {
    var c, d := a[k := x], b[k := x];
    forall j | j in c ensures j in d && c[j] == d[j] {
      if j != k { assert j in a - {k}; }
    }
    forall j | j in d ensures j in c {
      if j != k { assert j in b - {k}; }
    }
  }

  /** A move of that record makes them equal again. */
  lemma MoveHeals(compile: Compiler, rid: Rid, v: View, w: View, e: Entry)
    requires ApartAt(rid, v, w) && e.body.RecordAction? && RidOf(e.subject) == rid
    ensures Apply(compile, v, e) == Apply(compile, w, e)
  {
    var field := v.model.workflows[rid.entity].field;
    SameElsewhere(v.records[rid], w.records[rid], field, Str(e.body.to));
    SameElsewhere(v.since, w.since, rid, e.ts);
    var moved := v.records[rid][field := Str(e.body.to)];
    assert w.records[rid := moved] == v.records[rid := moved];
  }

  lemma MovedIsApart(env: Env, s: State, e: Entry)
    requires e.body.RecordAction? && RidOf(e.subject) in s.view.records
      && RidOf(e.subject).entity in s.view.model.workflows
    ensures ApartAt(RidOf(e.subject), s.view, Apply(env.compile, s.view, e))
  {
    var rid := RidOf(e.subject);
    var field := s.view.model.workflows[rid.entity].field;
    var w := Apply(env.compile, s.view, e);
    assert w.records[rid] == s.view.records[rid][field := Str(e.body.to)];
    assert w.since == s.view.since[rid := e.ts];
  }

  predicate TasksOnly(s: State, t: State) {
    s.log <= t.log && forall i :: |s.log| <= i < |t.log| ==> t.log[i].body.TaskCreated?
  }

  lemma {:induction false} TasksOnlyFold(compile: Compiler, v: View, es: seq<Entry>)
    requires forall e <- es :: e.body.TaskCreated?
    ensures Fold(compile, v, es).records == v.records && Fold(compile, v, es).since == v.since
    decreases |es|
  {
    if es != [] {
      TasksOnlyFold(compile, v, es[..|es| - 1]);
    }
  }

  lemma {:induction false} EnsureTasksOnly(env: Env, s: State, rid: Rid, transitions: seq<Transition>, current: string,
                                        since: int, now: int)
    ensures var t := EnsureTasks(env, s, rid, transitions, current, since, now);
      TasksOnly(s, t) && t.view.records == s.view.records && t.view.since == s.view.since
    decreases |transitions|
  {
    if transitions != [] {
      var tr := transitions[0];
      var key := StateKey(rid.entity, rid.id, tr.action, since);
      var next := if NeedsTask(tr, current) then CommitTask(env, s, WorkflowTaskSpec(rid, tr), ASSIGNEE_BASIS, key, now)
        else s;
      assert TasksOnly(s, next) && next.view.records == s.view.records && next.view.since == s.view.since;
      hide CommitTask;
      EnsureTasksOnly(env, next, rid, transitions[1..], current, since, now);
    }
  }

  /** The transition a shadowed Act makes, before the record settles. */
  function ShadowMove(env: Env, s: State, actor: Actor, rid: Rid, tr: Transition, basis: Option<Basis>, key: Key,
                      now: int): State
  {
    CommitTransition(env, s, actor, rid, tr, StateOf(s.view, rid), basis, key, now)
  }

  /** An action that moves the record keeps replay equal to live exactly when its key is absent or new, or
      an auto transition takes the record on from where it was moved to, or the move changed nothing. */
  lemma ActMoveReplaysIff(env: Env, genesis: Model, s: State, actor: Actor, rid: Rid, action: string,
                          basis: Option<Basis>, key: string, now: int)
    requires Good(env, s) && Replayed(env, genesis, s)
    requires Act(env, s, actor, rid, action, basis, KeyOf(key), now).error.None?
    requires ActCheck(env, s.view, actor, rid, action, now).value.approvalRole == ""
    ensures rid in s.view.records && rid.entity in s.view.model.workflows
    ensures var tr := ActCheck(env, s.view, actor, rid, action, now).value;
      var moved := ShadowMove(env, s, actor, rid, tr, basis, KeyOf(key), now);
      Replayed(env, genesis, Act(env, s, actor, rid, action, basis, KeyOf(key), now).state)
      <==> || Prior(s.log, KeyOf(key)).None?
           || NextAuto(env, moved.view, rid, s.view.model.workflows[rid.entity].transitions, now).Some?
           || moved.view == s.view
  {
    ActSucceeds(env, s, actor, rid, action, basis, KeyOf(key), now);
    hide ActCheck, Settle, Good, Reaches, Replayed, FreshIds;
    var tr := ActCheck(env, s.view, actor, rid, action, now).value;
    var out := Act(env, s, actor, rid, action, basis, KeyOf(key), now).state;
    if Prior(s.log, KeyOf(key)).None? {
      ActConforms(env, s, actor, rid, action, basis, key, now);
      ReachesReplayed(env, genesis, s, out);
    } else {
      ActIsMove(env, s, actor, rid, action, basis, KeyOf(key), now);
      hide Act;
      ShadowMoveReplaysIff(env, genesis, s, actor, rid, tr, basis, KeyOf(key), now);
    }
  }

  /** An accepted action without approval is its move, settled. */
  lemma ActIsMove(env: Env, s: State, actor: Actor, rid: Rid, action: string, basis: Option<Basis>, key: Key, now: int)
    requires Act(env, s, actor, rid, action, basis, key, now).error.None?
    requires ActCheck(env, s.view, actor, rid, action, now).Success?
    requires ActCheck(env, s.view, actor, rid, action, now).value.approvalRole == ""
    ensures var tr := ActCheck(env, s.view, actor, rid, action, now).value;
      Act(env, s, actor, rid, action, basis, key, now).state ==
        Settle(env, ShadowMove(env, s, actor, rid, tr, basis, key, now), rid, now)
  {
    hide ActCheck, Settle, CommitTransition;
  }

  lemma ActSucceeds(env: Env, s: State, actor: Actor, rid: Rid, action: string, basis: Option<Basis>, key: Key,
                    now: int)
    requires Act(env, s, actor, rid, action, basis, key, now).error.None?
    ensures ActCheck(env, s.view, actor, rid, action, now).Success?
    ensures rid in s.view.records && rid.entity in s.view.model.workflows
  {
    hide Settle;
  }

  lemma ShadowMoveReplaysIff(env: Env, genesis: Model, s: State, actor: Actor, rid: Rid, tr: Transition,
                             basis: Option<Basis>, key: Key, now: int)
    requires Good(env, s) && Replayed(env, genesis, s) && Prior(s.log, key).Some?
    requires rid in s.view.records && rid.entity in s.view.model.workflows
    ensures var moved := ShadowMove(env, s, actor, rid, tr, basis, key, now);
      Replayed(env, genesis, Settle(env, moved, rid, now))
      <==> || NextAuto(env, moved.view, rid, s.view.model.workflows[rid.entity].transitions, now).Some?
           || moved.view == s.view
  {
    var e := TransitionEntry(s, actor, rid, tr, StateOf(s.view, rid), basis, key, now).(ts :=
      Prior(s.log, key).value.ts);
    var moved := ShadowMove(env, s, actor, rid, tr, basis, key, now);
    assert RidOf(e.subject) == rid;
    assert moved == Shadow(env, s, e);
    MovedIsApart(env, s, e);
    hide Settle;
    ApartReplaysIff(env, genesis, s, moved, rid, now);
  }

  /** A live projection apart from the replayed one at a single record's state heals exactly when an auto
      transition moves that record while it settles. */
  lemma ApartReplaysIff(env: Env, genesis: Model, s: State, moved: State, rid: Rid, now: int)
    requires Good(env, moved) && Replayed(env, genesis, s) && moved.log == s.log && ApartAt(rid, s.view, moved.view)
    ensures Replayed(env, genesis, Settle(env, moved, rid, now))
      <==> || NextAuto(env, moved.view, rid, moved.view.model.workflows[rid.entity].transitions, now).Some?
           || moved.view == s.view
  {
    var out := Settle(env, moved, rid, now);
    SettleQuiet(env, moved, rid, now);
    QuietReplay(env, genesis, s, out);
    var es := out.log[|s.log|..];
    SettleFolds(env, moved, rid, now);
    assert out.view == Fold(env.compile, moved.view, es);
    var auto := NextAuto(env, moved.view, rid, moved.view.model.workflows[rid.entity].transitions, now);
    if auto.Some? {
      SettleStartsWithHop(env, moved, rid, auto.value, now);
      HealedFold(env.compile, rid, s.view, moved.view, es);
    } else if moved.view != s.view {
      SettleWithoutHop(env, moved, rid, now);
      forall x | x in es ensures x.body.TaskCreated? {
        var i :| 0 <= i < |es| && es[i] == x;
        assert out.log[|s.log| + i] == x;
      }
      TasksOnlyFold(env.compile, s.view, es);
      TasksOnlyFold(env.compile, moved.view, es);
      ApartDiffers(rid, s.view, moved.view);
    }
  }

  lemma HealedFold(compile: Compiler, rid: Rid, v: View, w: View, es: seq<Entry>)
    requires ApartAt(rid, v, w) && es != [] && es[0].body.RecordAction? && RidOf(es[0].subject) == rid
    ensures Fold(compile, v, es) == Fold(compile, w, es)
  {
    MoveHeals(compile, rid, v, w, es[0]);
    assert es == [es[0]] + es[1..];
    FoldSplit(compile, v, [es[0]], es[1..]);
    FoldSplit(compile, w, [es[0]], es[1..]);
    FoldOne(compile, v, es[0]);
    FoldOne(compile, w, es[0]);
  }

  lemma ApartDiffers(rid: Rid, v: View, w: View)
    requires ApartAt(rid, v, w) && v != w
    ensures v.records != w.records || v.since != w.since
  {
  }

  lemma FoldOne(compile: Compiler, v: View, e: Entry)
    ensures Fold(compile, v, [e]) == Apply(compile, v, e)
  {
    assert [e][..0] == [];
    assert Fold(compile, v, [e][..0]) == v;
  }

  lemma SettleFolds(env: Env, s: State, rid: Rid, now: int)
    requires Good(env, s)
    ensures var t := Settle(env, s, rid, now);
      s.log <= t.log && t.view == Fold(env.compile, s.view, t.log[|s.log|..])
  {
    SettleConforms(env, s, rid, now);
    hide Settle;
    var t := Settle(env, s, rid, now);
    var es :| LegalRun(env, s, es) && CommitAll(env, s, es) == t;
    CommitAllFolds(env, s, es);
    assert t.log[|s.log|..] == es;
  }

  lemma SettleStartsWithHop(env: Env, s: State, rid: Rid, tr: Transition, now: int)
    requires rid in s.view.records && rid.entity in s.view.model.workflows
    requires NextAuto(env, s.view, rid, s.view.model.workflows[rid.entity].transitions, now) == Some(tr)
    ensures var t := Settle(env, s, rid, now);
      |t.log| > |s.log| && t.log[|s.log|].body.RecordAction? && RidOf(t.log[|s.log|].subject) == rid
  {
    var transitions := s.view.model.workflows[rid.entity].transitions;
    var hop := AutoHop(env, s, rid, tr, now);
    assert hop.log[|s.log|].body.RecordAction? && RidOf(hop.log[|s.log|].subject) == rid;
    hide AutoHop;
    AutoRunQuiet(env, hop, rid, transitions, now, MAX_HOPS - 1);
    var t := AutoRun(env, s, rid, transitions, now, MAX_HOPS);
    assert t == AutoRun(env, hop, rid, transitions, now, MAX_HOPS - 1);
    hide AutoRun;
    EnsureTasksQuiet(env, t, rid, transitions, StateOf(t.view, rid), SinceOf(t.view, rid), now);
    hide EnsureTasks;
  }

  lemma SettleWithoutHop(env: Env, s: State, rid: Rid, now: int)
    requires rid in s.view.records && rid.entity in s.view.model.workflows
    requires NextAuto(env, s.view, rid, s.view.model.workflows[rid.entity].transitions, now).None?
    ensures TasksOnly(s, Settle(env, s, rid, now))
  {
    var transitions := s.view.model.workflows[rid.entity].transitions;
    assert AutoRun(env, s, rid, transitions, now, MAX_HOPS) == s;
    hide AutoRun;
    EnsureTasksOnly(env, s, rid, transitions, StateOf(s.view, rid), SinceOf(s.view, rid), now);
    hide EnsureTasks;
  }
}
