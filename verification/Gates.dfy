/** Runs that show where promises end: a foreign role grants, and repeated keys part the node from its journal. */
module Gates {
  import opened Values
  import opened Model
  import opened Journal
  import opened Projection
  import opened Environment
  import opened Permissions
  import opened Records
  import opened Steps
  import opened Protocol
  import opened Conformance
  import opened Replay
  import opened Approvals

  // ---- a pack with one gated transition -------------------------------------------------

  /** Doors are opened by one action, behind a gate if one is declared; another role approves actions. */
  function GateModel(role: string, gate: string, signer: string): Model {
    var all := [PermItem("", "", "", true, [], "")];
    Model(map["Door" := Entity("Door", false, [Field("code", Scalar("string"), false, false, "", "", "")], [])],
          map[signer := [PermRule("approve", all)],
              role := [PermRule("create", all), PermRule("update", all), PermRule("act", all)]],
          map["Door" := Workflow("state", [Transition("any", "open", "open", false, "", "", gate)])], [], [])
  }

  function Door(env: Env, n: nat): Rid { Rid("Door", env.ids(n)) }

  lemma GateShape(role: string, gate: string, signer: string)
    ensures var m := GateModel(role, gate, signer);
      && "Door" in m.entities && m.workflows.Keys == {"Door"} && m.automations == []
      && m.workflows["Door"] == Workflow("state", [Transition("any", "open", "open", false, "", "", gate)])
      && m.entities["Door"] ==
         Entity("Door", false, [Field("code", Scalar("string"), false, false, "", "", "")], [])
  {
  }

  lemma GateSettles(env: Env, s: State, role: string, gate: string, signer: string, rid: Rid, trigger: string)
    requires s.view.model == GateModel(role, gate, signer)
    ensures Settle(env, s, rid, 0) == s && After(env, s, trigger, rid, 0) == s
  {
    hide *;
    GateShape(role, gate, signer);
    NothingSettles(env, s, rid, Transition("any", "open", "open", false, "", "", gate));
    NothingFires(env, s, trigger, rid);
  }

  lemma NothingSettles(env: Env, s: State, rid: Rid, tr: Transition)
    requires rid.entity in s.view.model.workflows ==> s.view.model.workflows[rid.entity].transitions == [tr]
    requires !tr.auto && tr.assigneeRole == ""
    ensures Settle(env, s, rid, 0) == s
  {
    hide AutoHop, CommitTask, StateOf, SinceOf, GuardHolds;
    if rid.entity in s.view.model.workflows && rid in s.view.records {
      var transitions := s.view.model.workflows[rid.entity].transitions;
      assert transitions[1..] == [];
      assert NextAuto(env, s.view, rid, [], 0).None?;
      assert NextAuto(env, s.view, rid, transitions, 0).None?;
      assert AutoRun(env, s, rid, transitions, 0, MAX_HOPS) == s;
      assert EnsureTasks(env, s, rid, transitions[1..], StateOf(s.view, rid), SinceOf(s.view, rid), 0) == s;
    }
  }

  lemma NothingFires(env: Env, s: State, trigger: string, rid: Rid)
    requires s.view.model.automations == [] && Settle(env, s, rid, 0) == s
    ensures After(env, s, trigger, rid, 0) == s
  {
    hide Settle, Fire, GuardHolds;
  }

  // ---- what the pack allows ---------------------------------------------------------------

  lemma MayWrite(env: Env, v: View, actor: Actor, gate: string, signer: string, field: string, record: Option<Fields>)
    requires v.model == GateModel(actor.role, gate, signer)
    ensures Can(env, v, actor, "create", "Door", field, record, 0)
    ensures Can(env, v, actor, "update", "Door", field, record, 0)
  {
    var rules := v.model.perms[actor.role];
    assert rules[0] in rules && rules[0].items[0] in rules[0].items;
    assert rules[1] in rules && rules[1].items[0] in rules[1].items;
  }

  lemma MayAct(role: string, gate: string, signer: string, action: string)
    ensures CanNamed(GateModel(role, gate, signer).perms, role, "act", action)
    ensures signer != role ==> CanNamed(GateModel(role, gate, signer).perms, signer, "approve", action)
  {
    var perms := GateModel(role, gate, signer).perms;
    var rules: seq<PermRule> := perms[role];
    assert rules[2] in rules && rules[2].items[0] in rules[2].items;
    if signer != role {
      var own: seq<PermRule> := perms[signer];
      assert own[0] in own && own[0].items[0] in own[0].items;
    }
  }

  lemma CreatePasses(env: Env, v: View, actor: Actor, gate: string, signer: string)
    requires v.model == GateModel(actor.role, gate, signer)
    ensures CreateCheck(env, v, actor, "Door", map[], 0) == Success(map[])
  {
    MayWrite(env, v, actor, gate, signer, "", None);
    hide GateModel, Can;
    GateShape(actor.role, gate, signer);
    var fields, values: Fields := v.model.entities["Door"].fields, map[];
    assert fields[1..] == [];
    assert AssignSerials(env, v, "Door", fields, values, 0) == values;
    assert WithDefaults(env, v, fields, values, actor.id, 0) == values;
  }

  lemma UpdatePasses(env: Env, v: View, actor: Actor, gate: string, signer: string, rid: Rid, x: Value)
    requires v.model == GateModel(actor.role, gate, signer) && rid in v.records && rid.entity == "Door" && x.Str?
    ensures UpdateCheck(env, v, actor, rid, map["code" := x], 0) == Success(Changes(v.records[rid], map["code" := x]))
  {
    hide *;
    GateShape(actor.role, gate, signer);
    var decl, values: Fields := v.model.entities["Door"], map["code" := x];
    MayWrite(env, v, actor, gate, signer, "", Some(v.records[rid]));
    MayWrite(env, v, actor, gate, signer, "code", Some(v.records[rid]));
    CodeFits(env, v.records, decl.fields, x);
    NothingClashes(v.records, decl, v.records[rid] + values, rid.id);
    ComparesCode(v.records[rid], x);
    UpdateGoes(env, v, actor, rid, values);
  }

  lemma ComparesCode(record: Fields, x: Value)
    requires x.Str?
    ensures !Uncomparable(Get(record, "code"), x)
  {
  }

  lemma UpdateGoes(env: Env, v: View, actor: Actor, rid: Rid, values: Fields)
    requires rid.entity in v.model.entities && rid.entity in v.model.workflows && rid in v.records
    requires v.model.workflows[rid.entity].field !in values
    requires Can(env, v, actor, "update", rid.entity, "", Some(v.records[rid]), 0)
    requires forall k <- values :: Can(env, v, actor, "update", rid.entity, k, Some(v.records[rid]), 0)
    requires GivenOk(env, v.model.entities[rid.entity].fields, values)
    requires RefsExist(v.records, v.model.entities[rid.entity].fields, values)
    requires UniqueCheck(v.records, v.model.entities[rid.entity], rid.entity, v.records[rid] + values, rid.id).None?
    requires forall k <- values :: !Uncomparable(Get(v.records[rid], k), values[k])
    ensures UpdateCheck(env, v, actor, rid, values, 0) == Success(Changes(v.records[rid], values))
  {
    hide Can, GivenOk, RefsExist, UniqueCheck, Changes, Uncomparable;
  }

  lemma CodeFits(env: Env, records: map<Rid, Fields>, fields: seq<Field>, x: Value)
    requires fields == [Field("code", Scalar("string"), false, false, "", "", "")] && x.Str?
    ensures GivenOk(env, fields, map["code" := x])
    ensures forall values :: RefsExist(records, fields, values)
  {
    assert FindField(fields, "code") == Some(fields[0]);
  }

  lemma NothingClashes(records: map<Rid, Fields>, decl: Entity, values: Fields, selfId: string)
    requires decl.constraints == [] && forall f <- decl.fields :: !f.unique
    ensures UniqueCheck(records, decl, "Door", values, selfId).None?
  {
  }

  lemma ActPasses(env: Env, v: View, actor: Actor, gate: string, signer: string, rid: Rid)
    requires v.model == GateModel(actor.role, gate, signer) && rid in v.records && rid.entity == "Door"
    ensures ActCheck(env, v, actor, rid, "open", 0) ==
      Success(Transition("any", "open", "open", false, "", "", gate))
  {
    MayAct(actor.role, gate, signer, "open");
    hide GateModel, CanNamed;
    GateShape(actor.role, gate, signer);
  }

  // ---- single steps --------------------------------------------------------------------------

  /** A door is made under a new id. */
  lemma MakeStep(env: Env, s: State, actor: Actor, gate: string, signer: string, basis: Basis)
    requires s.view.model == GateModel(actor.role, gate, signer) && actor.id != ""
    requires Door(env, |s.log|) !in s.view.records
    ensures Create(env, s, actor, "Door", map[], Some(basis), NoKey, 0).state ==
      Commit(env, s, CreatedEntry(s, actor, Door(env, |s.log|), map[], Some(basis), NoKey, 0))
  {
    CreatePasses(env, s.view, actor, gate, signer);
    hide GateModel, CreateCheck;
    var t := Commit(env, s, CreatedEntry(s, actor, Door(env, |s.log|), map[], Some(basis), NoKey, 0));
    GateSettles(env, t, actor.role, gate, signer, Door(env, |s.log|), "create");
    hide After;
  }

  lemma ChangesOne(record: Fields, x: string)
    requires Get(record, "code") != Str(x)
    ensures Changes(record, map["code" := Str(x)]) == map["code" := Change(Get(record, "code"), Str(x))]
    ensures Changes(record, map["code" := Str(x)]) != map[]
  {
    assert "code" in Changes(record, map["code" := Str(x)]);
  }

  /** A door gets a code; under a repeated key only the live record does. */
  lemma RenameStep(env: Env, s: State, actor: Actor, gate: string, signer: string, rid: Rid, x: string, basis: Basis,
                   key: Key)
    requires s.view.model == GateModel(actor.role, gate, signer) && actor.id != "" && rid.entity == "Door"
    requires rid in s.view.records && Get(s.view.records[rid], "code") != Str(x)
    ensures var out := Update(env, s, actor, rid, map["code" := Str(x)], Some(basis), key, 0);
      var e := UpdatedEntry(s, actor, rid, Changes(s.view.records[rid], map["code" := Str(x)]), Some(basis), key, 0);
      out.error.None? && out.state == if Prior(s.log, key).None? then Commit(env, s, e) else Shadow(env, s, e)
  {
    UpdatePasses(env, s.view, actor, gate, signer, rid, Str(x));
    ChangesOne(s.view.records[rid], x);
    hide GateModel, UpdateCheck, Changes;
    var e := UpdatedEntry(s, actor, rid, Changes(s.view.records[rid], map["code" := Str(x)]), Some(basis), key, 0);
    GateSettles(env, Commit(env, s, e), actor.role, gate, signer, rid, "update");
    GateSettles(env, Shadow(env, s, e), actor.role, gate, signer, rid, "update");
    hide After;
  }

  /** An action is parked where a gate is declared. */
  lemma RequestStep(env: Env, s: State, actor: Actor, gate: string, signer: string, rid: Rid, basis: Basis, key: Key)
    requires s.view.model == GateModel(actor.role, gate, signer) && actor.id != "" && rid.entity == "Door"
    requires rid in s.view.records && gate != "" && Prior(s.log, key).None?
    ensures var tr := Transition("any", "open", "open", false, "", "", gate);
      Act(env, s, actor, rid, "open", Some(basis), key, 0) ==
      Done(Commit(env, s, RequestEntry(s, env.ids(|s.log|), actor, rid, tr, StateOf(s.view, rid), Some(basis), key, 0)))
  {
    ActPasses(env, s.view, actor, gate, signer, rid);
    hide GateModel, ActCheck;
  }

  /** An action without a gate moves the door; under a repeated key only the live one. */
  lemma OpenStep(env: Env, s: State, actor: Actor, signer: string, rid: Rid, basis: Basis, key: Key)
    requires s.view.model == GateModel(actor.role, "", signer) && actor.id != "" && rid.entity == "Door"
    requires rid in s.view.records
    ensures var tr := Transition("any", "open", "open", false, "", "", "");
      Act(env, s, actor, rid, "open", Some(basis), key, 0).state ==
      CommitTransition(env, s, actor, rid, tr, StateOf(s.view, rid), Some(basis), key, 0)
  {
    ActPasses(env, s.view, actor, "", signer, rid);
    hide GateModel, ActCheck;
    var tr := Transition("any", "open", "open", false, "", "", "");
    var t := CommitTransition(env, s, actor, rid, tr, StateOf(s.view, rid), Some(basis), key, 0);
    assert t.view.model == s.view.model;
    GateSettles(env, t, actor.role, "", signer, rid, "");
    hide Settle, CommitTransition;
  }

  lemma CommittedCreation(env: Env, s: State, actor: Actor, rid: Rid, values: Fields, basis: Basis)
    ensures var t := Commit(env, s, CreatedEntry(s, actor, rid, values, Some(basis), NoKey, 0));
      && t.view.model == s.view.model && t.view.records == s.view.records[rid := values]
      && t.view.approvals == s.view.approvals && |t.log| == |s.log| + 1 && t.log[|s.log|].key == NoKey
  {
  }

  lemma WrittenUpdate(env: Env, s: State, actor: Actor, rid: Rid, x: string, basis: Basis, key: Key)
    requires rid in s.view.records && s.view.records[rid].Keys <= {"code"} && Get(s.view.records[rid], "code") != Str(x)
    ensures var changes := Changes(s.view.records[rid], map["code" := Str(x)]);
      var e := UpdatedEntry(s, actor, rid, changes, Some(basis), key, 0);
      && e.key == key && Commit(env, s, e).log == s.log + [e] && Shadow(env, s, e).log == s.log
      && Commit(env, s, e).view == Shadow(env, s, e).view && Commit(env, s, e).view.model == s.view.model
      && Commit(env, s, e).view.records == s.view.records[rid := map["code" := Str(x)]]
  {
    ChangesOne(s.view.records[rid], x);
    hide Changes;
    var record := s.view.records[rid];
    var changes := map["code" := Change(Get(record, "code"), Str(x))];
    assert ApplyChanges(record, changes) == map["code" := Str(x)];
  }

  // ---- runs -------------------------------------------------------------------------------

  lemma RunMore(env: Env, s: State, calls: seq<TimedCall>, c: TimedCall)
    ensures Run(env, s, calls + [c]) == Step(env, Run(env, s, calls), c.call, c.now).state
    ensures AdmissibleRun(env, s, calls) && Admissible(Run(env, s, calls), c.call) ==>
      AdmissibleRun(env, s, calls + [c])
  {
    hide Step, Admissible;
    assert (calls + [c])[..|calls|] == calls;
    forall i | 0 <= i < |calls| ensures (calls + [c])[..i] == calls[..i] && (calls + [c])[i] == calls[i] {
    }
  }

  /** A door is made. */
  function Made(actor: Actor, basis: Basis): seq<TimedCall> {
    [TimedCall(CreateCall(actor, "Door", map[], Some(basis), ""), 0)]
  }

  lemma MadeIs(env: Env, actor: Actor, gate: string, signer: string, basis: Basis)
    requires actor.id != ""
    ensures var s := Start(GateModel(actor.role, gate, signer));
      var t := Run(env, s, Made(actor, basis));
      && AdmissibleRun(env, s, Made(actor, basis))
      && t.view.model == s.view.model && t.view.records == map[Door(env, 0) := map[]] && t.view.approvals == map[]
      && |t.log| == 1 && t.log[0].key == NoKey
  {
    hide *;
    var s := Start(GateModel(actor.role, gate, signer));
    StartIs(env, GateModel(actor.role, gate, signer));
    MakeCall(env, s, actor, basis);
    MakeStep(env, s, actor, gate, signer, basis);
    CommittedCreation(env, s, actor, Door(env, 0), map[], basis);
    RunMore(env, s, [], Made(actor, basis)[0]);
  }

  lemma StartIs(env: Env, m: Model)
    ensures var s := Start(m);
      && s.view.model == m && s.view.records == map[] && s.view.approvals == map[] && s.log == []
      && Run(env, s, []) == s && AdmissibleRun(env, s, [])
  {
  }

  lemma MakeCall(env: Env, s: State, actor: Actor, basis: Basis)
    ensures |Made(actor, basis)| == 1 && [] + Made(actor, basis) == Made(actor, basis) == [Made(actor, basis)[0]]
    ensures var c := Made(actor, basis)[0];
      Admissible(s, c.call) &&
      Step(env, s, c.call, c.now).state == Create(env, s, actor, "Door", map[], Some(basis), NoKey, 0).state
  {
    hide Create;
    assert KeyOf("") == NoKey;
  }

  /** A made door gets a code under a key. */
  function Named(env: Env, actor: Actor, basis: Basis, key: string, x: string): seq<TimedCall> {
    Made(actor, basis) + [NameCall(env, actor, basis, key, x)]
  }

  lemma NamedIs(env: Env, actor: Actor, gate: string, signer: string, basis: Basis, key: string, x: string)
    requires actor.id != "" && key != ""
    ensures var s := Start(GateModel(actor.role, gate, signer));
      var t := Run(env, s, Named(env, actor, basis, key, x));
      && AdmissibleRun(env, s, Named(env, actor, basis, key, x))
      && t.view.model == s.view.model && t.view.records == map[Door(env, 0) := map["code" := Str(x)]]
      && Prior(t.log, KeyOf(key)).Some?
  {
    hide *;
    var s := Start(GateModel(actor.role, gate, signer));
    MadeIs(env, actor, gate, signer, basis);
    StartIs(env, GateModel(actor.role, gate, signer));
    var t := Run(env, s, Made(actor, basis));
    var c := NameCall(env, actor, basis, key, x);
    assert Named(env, actor, basis, key, x) == Made(actor, basis) + [c] by { NamedCalls(env, actor, basis, key, x); }
    RunMore(env, s, Made(actor, basis), c);
    KeyIsNew(t.log, key);
    RenameCall(env, t, actor, basis, key, x);
    RenameStep(env, t, actor, gate, signer, Door(env, 0), x, basis, KeyOf(key));
    var changes := Changes(map[], map["code" := Str(x)]);
    var e := UpdatedEntry(t, actor, Door(env, 0), changes, Some(basis), KeyOf(key), 0);
    WrittenUpdate(env, t, actor, Door(env, 0), x, basis, KeyOf(key));
    LastHasKey(t.log, e);
  }

  function NameCall(env: Env, actor: Actor, basis: Basis, key: string, x: string): TimedCall {
    TimedCall(UpdateCall(actor, Door(env, 0), map["code" := Str(x)], Some(basis), key), 0)
  }

  lemma NamedCalls(env: Env, actor: Actor, basis: Basis, key: string, x: string)
    ensures Named(env, actor, basis, key, x) == Made(actor, basis) + [NameCall(env, actor, basis, key, x)]
  {
  }

  lemma RenameCall(env: Env, s: State, actor: Actor, basis: Basis, key: string, x: string)
    ensures var c := NameCall(env, actor, basis, key, x);
      && (Prior(s.log, KeyOf(key)).None? ==> Admissible(s, c.call))
      && Step(env, s, c.call, c.now).state ==
         Update(env, s, actor, Door(env, 0), map["code" := Str(x)], Some(basis), KeyOf(key), 0).state
    ensures Door(env, 0).entity == "Door" && Get(map[], "code") == Null
    ensures forall v :: Get(map["code" := v], "code") == v
  {
    hide Update;
  }

  lemma KeyIsNew(log: seq<Entry>, key: string)
    requires key != "" && |log| == 1 && log[0].key == NoKey
    ensures KeyOf(key) != NoKey && Prior(log, KeyOf(key)).None?
  {
  }

  lemma LastHasKey(log: seq<Entry>, e: Entry)
    requires e.key != NoKey
    ensures Prior(log + [e], e.key).Some?
  {
    assert (log + [e])[|log|] == e;
  }

  /** A reachable failure: the second update under one key changes the live record alone, and a restart brings
      the first value back. */
  lemma RepeatedUpdateParts(env: Env, actor: Actor, gate: string, signer: string, basis: Basis, key: string,
                            x: string, y: string)
    requires FreshIds(env) && actor.id != "" && key != "" && x != y
    ensures var m := GateModel(actor.role, gate, signer);
      var t := Run(env, Start(m), Named(env, actor, basis, key, x) + [NameCall(env, actor, basis, key, y)]);
      && AdmissibleRun(env, Start(m), Named(env, actor, basis, key, x))
      && t.view.records == map[Door(env, 0) := map["code" := Str(y)]]
      && Fold(env.compile, Genesis(m), t.log).records == map[Door(env, 0) := map["code" := Str(x)]]
  {
    hide *;
    var m := GateModel(actor.role, gate, signer);
    var c := NameCall(env, actor, basis, key, y);
    NamedIs(env, actor, gate, signer, basis, key, x);
    StartIs(env, m);
    var t := Run(env, Start(m), Named(env, actor, basis, key, x));
    ReplayEqualsLive(env, m, Named(env, actor, basis, key, x));
    RunMore(env, Start(m), Named(env, actor, basis, key, x), c);
    RenameCall(env, t, actor, basis, key, y);
    RenameStep(env, t, actor, gate, signer, Door(env, 0), y, basis, KeyOf(key));
    WrittenUpdate(env, t, actor, Door(env, 0), y, basis, KeyOf(key));
    ReplayedIs(env, m, t);
  }

  lemma ReplayedIs(env: Env, m: Model, s: State)
    requires Replayed(env, m, s)
    ensures Fold(env.compile, Genesis(m), s.log) == s.view
  {
  }

  /** A made door is asked to open, under a key. */
  function Asked(env: Env, actor: Actor, basis: Basis, key: string): seq<TimedCall> {
    Made(actor, basis) + [TimedCall(ActCall(actor, Door(env, 0), "open", Some(basis), key), 0)]
  }

  lemma AskedIs(env: Env, actor: Actor, gate: string, signer: string, basis: Basis, key: string)
    requires actor.id != "" && gate != ""
    ensures var s := Start(GateModel(actor.role, gate, signer));
      var t := Run(env, s, Asked(env, actor, basis, key));
      && AdmissibleRun(env, s, Asked(env, actor, basis, key))
      && t.view.model == s.view.model && t.view.records == map[Door(env, 0) := map[]] && |t.log| == 2
      && t.view.approvals ==
         map[env.ids(1) := Approval("Door", env.ids(0), "open", "", "open", gate, actor, Pending)]
      && t.log[0].key == NoKey && t.log[1].key == KeyOf(key)
      && t.log[1].subject == NO_SUBJECT.(approvalId := env.ids(1))
  {
    hide GateModel, Run, AdmissibleRun;
    var s := Start(GateModel(actor.role, gate, signer));
    MadeIs(env, actor, gate, signer, basis);
    var t := Run(env, s, Made(actor, basis));
    RunMore(env, s, Made(actor, basis), Asked(env, actor, basis, key)[1]);
    assert Prior(t.log, KeyOf(key)).None?;
    RequestStep(env, t, actor, gate, signer, Door(env, 0), basis, KeyOf(key));
    assert StateOf(t.view, Door(env, 0)) == "";
    hide Act;
  }

  /** A reachable failure: a creation under the key of a parked action makes a live record without an id, which
      no restart brings back. */
  lemma RepeatedCreateParts(env: Env, actor: Actor, gate: string, signer: string, basis: Basis, key: string)
    requires FreshIds(env) && actor.id != "" && key != "" && gate != ""
    ensures var m := GateModel(actor.role, gate, signer);
      var again := TimedCall(CreateCall(actor, "Door", map[], Some(basis), key), 0);
      var t := Run(env, Start(m), Asked(env, actor, basis, key) + [again]);
      && AdmissibleRun(env, Start(m), Asked(env, actor, basis, key))
      && !Replayed(env, m, t)
  {
    hide GateModel, Run, AdmissibleRun, Asked, Fold;
    var m := GateModel(actor.role, gate, signer);
    var again := TimedCall(CreateCall(actor, "Door", map[], Some(basis), key), 0);
    AskedIs(env, actor, gate, signer, basis, key);
    var t := Run(env, Start(m), Asked(env, actor, basis, key));
    ReplayEqualsLive(env, m, Asked(env, actor, basis, key));
    StartIsGood(env, m);
    RunConforms(env, Start(m), Asked(env, actor, basis, key));
    RunMore(env, Start(m), Asked(env, actor, basis, key), again);
    hide Good, FreshIds, Replayed;
    CreatePasses(env, t.view, actor, gate, signer);
    assert Prior(t.log, KeyOf(key)) == Some(t.log[1]) by { SecondHasKey(t.log, KeyOf(key)); }
    assert Create(env, t, actor, "Door", map[], Some(basis), KeyOf(key), 0).error.None? by { hide After, CreateCheck; }
    assert env.ids(0) != "" by { IdsAreNamed(env); }
    CreateReplaysIff(env, m, t, actor, "Door", map[], Some(basis), key, 0);
    hide Create;
  }

  lemma IdsAreNamed(env: Env)
    requires FreshIds(env)
    ensures forall n: nat :: env.ids(n) != ""
  {
  }

  lemma SecondHasKey(log: seq<Entry>, key: Key)
    requires |log| == 2 && key != NoKey && log[0].key == NoKey && log[1].key == key
    ensures Prior(log, key) == Some(log[1])
  {
    assert log[1..][0] == log[1];
  }

  /** Two doors, and the first is opened under a key. */
  function OneOpened(env: Env, actor: Actor, basis: Basis, key: string): seq<TimedCall> {
    Made(actor, basis) + Made(actor, basis) + [OpenCall(env, actor, basis, key, 0)]
  }

  function OpenCall(env: Env, actor: Actor, basis: Basis, key: string, n: nat): TimedCall {
    TimedCall(ActCall(actor, Door(env, n), "open", Some(basis), key), 0)
  }

  lemma OneOpenedIs(env: Env, actor: Actor, signer: string, basis: Basis, key: string)
    requires FreshIds(env) && actor.id != "" && key != ""
    ensures var s := Start(GateModel(actor.role, "", signer));
      var t := Run(env, s, OneOpened(env, actor, basis, key));
      && AdmissibleRun(env, s, OneOpened(env, actor, basis, key)) && t.view.model == s.view.model
      && t.view.records == map[Door(env, 0) := map["state" := Str("open")], Door(env, 1) := map[]]
      && Prior(t.log, KeyOf(key)).Some?
  {
    hide *;
    var s := Start(GateModel(actor.role, "", signer));
    MadeIs(env, actor, "", signer, basis);
    StartIs(env, GateModel(actor.role, "", signer));
    var t := Run(env, s, Made(actor, basis));
    MakeCall(env, t, actor, basis);
    DoorsDiffer(env);
    MakeStep(env, t, actor, "", signer, basis);
    CommittedCreation(env, t, actor, Door(env, 1), map[], basis);
    RunMore(env, s, Made(actor, basis), Made(actor, basis)[0]);
    var u := Run(env, s, Made(actor, basis) + Made(actor, basis));
    var c := OpenCall(env, actor, basis, key, 0);
    assert OneOpened(env, actor, basis, key) == Made(actor, basis) + Made(actor, basis) + [c] by {
      OpenedCalls(env, actor, basis, key);
    }
    CreatedKeys(t, u, actor, Door(env, 1), basis, env, key);
    RunMore(env, s, Made(actor, basis) + Made(actor, basis), c);
    OpenCallIs(env, u, actor, basis, key, 0);
    OpenStep(env, u, actor, signer, Door(env, 0), basis, KeyOf(key));
    OpenedView(env, u, actor, signer, Door(env, 0), basis, KeyOf(key));
  }

  lemma OpenedCalls(env: Env, actor: Actor, basis: Basis, key: string)
    ensures OneOpened(env, actor, basis, key) ==
      Made(actor, basis) + Made(actor, basis) + [OpenCall(env, actor, basis, key, 0)]
  {
  }

  lemma DoorsDiffer(env: Env)
    requires FreshIds(env)
    ensures Door(env, 0) != Door(env, 1) && forall n :: Door(env, n).entity == "Door"
  {
  }

  /** After two creations without keys a client's key is still new. */
  lemma CreatedKeys(s: State, t: State, actor: Actor, rid: Rid, basis: Basis, env: Env, key: string)
    requires |s.log| == 1 && s.log[0].key == NoKey && key != ""
    requires t == Commit(env, s, CreatedEntry(s, actor, rid, map[], Some(basis), NoKey, 0))
    ensures KeyOf(key) != NoKey && Prior(t.log, KeyOf(key)).None?
  {
    hide Apply;
    assert t.log == s.log + [t.log[1]] && t.log[1].key == NoKey;
  }

  lemma OpenCallIs(env: Env, s: State, actor: Actor, basis: Basis, key: string, n: nat)
    ensures var c := OpenCall(env, actor, basis, key, n);
      && (Prior(s.log, KeyOf(key)).None? ==> Admissible(s, c.call))
      && Step(env, s, c.call, c.now).state ==
         Act(env, s, actor, Door(env, n), "open", Some(basis), KeyOf(key), 0).state
  {
    hide Act;
  }

  /** What opening a door under a new key leaves. */
  lemma OpenedView(env: Env, s: State, actor: Actor, signer: string, rid: Rid, basis: Basis, key: Key)
    requires s.view.model == GateModel(actor.role, "", signer) && rid in s.view.records && rid.entity == "Door"
    requires s.view.records[rid] == map[] && Prior(s.log, key).None? && key != NoKey
    ensures var tr := Transition("any", "open", "open", false, "", "", "");
      var t := CommitTransition(env, s, actor, rid, tr, StateOf(s.view, rid), Some(basis), key, 0);
      && t.view.model == s.view.model && Prior(t.log, key).Some?
      && t.view.records == s.view.records[rid := map["state" := Str("open")]]
  {
    GateShape(actor.role, "", signer);
    hide GateModel;
    var tr := Transition("any", "open", "open", false, "", "", "");
    LastHasKey(s.log, TransitionEntry(s, actor, rid, tr, StateOf(s.view, rid), Some(basis), key, 0));
    assert s.view.records[rid]["state" := Str("open")] == map["state" := Str("open")];
  }

  /** A reachable failure: a move under the key of another record's move opens the live door alone. */
  lemma RepeatedMoveParts(env: Env, actor: Actor, signer: string, basis: Basis, key: string)
    requires FreshIds(env) && actor.id != "" && key != ""
    ensures var m := GateModel(actor.role, "", signer);
      var t := Run(env, Start(m), OneOpened(env, actor, basis, key) + [OpenCall(env, actor, basis, key, 1)]);
      && AdmissibleRun(env, Start(m), OneOpened(env, actor, basis, key))
      && Door(env, 1) in t.view.records && t.view.records[Door(env, 1)] == map["state" := Str("open")]
      && Door(env, 1) in Fold(env.compile, Genesis(m), t.log).records
      && Fold(env.compile, Genesis(m), t.log).records[Door(env, 1)] == map[]
  {
    hide *;
    var m := GateModel(actor.role, "", signer);
    var c := OpenCall(env, actor, basis, key, 1);
    OneOpenedIs(env, actor, signer, basis, key);
    StartIs(env, m);
    DoorsDiffer(env);
    var t := Run(env, Start(m), OneOpened(env, actor, basis, key));
    ReplayEqualsLive(env, m, OneOpened(env, actor, basis, key));
    RunMore(env, Start(m), OneOpened(env, actor, basis, key), c);
    OpenCallIs(env, t, actor, basis, key, 1);
    OpenStep(env, t, actor, signer, Door(env, 1), basis, KeyOf(key));
    ShadowOpened(env, t, actor, signer, Door(env, 1), basis, KeyOf(key));
    ReplayedIs(env, m, t);
  }

  /** What opening a door under a used key leaves: the journal as it was. */
  lemma ShadowOpened(env: Env, s: State, actor: Actor, signer: string, rid: Rid, basis: Basis, key: Key)
    requires s.view.model == GateModel(actor.role, "", signer) && rid in s.view.records && rid.entity == "Door"
    requires s.view.records[rid] == map[] && Prior(s.log, key).Some?
    ensures var tr := Transition("any", "open", "open", false, "", "", "");
      var t := CommitTransition(env, s, actor, rid, tr, StateOf(s.view, rid), Some(basis), key, 0);
      t.log == s.log && t.view.records == s.view.records[rid := map["state" := Str("open")]]
  {
    GateShape(actor.role, "", signer);
    hide GateModel;
    assert s.view.records[rid]["state" := Str("open")] == map["state" := Str("open")];
  }

  // ---- who grants -----------------------------------------------------------------------------

  /** A made door is asked to open, and a human of another role grants it. */
  function Granted(env: Env, actor: Actor, y: string, signer: string, basis: Basis): seq<TimedCall> {
    Asked(env, actor, basis, "") + [GrantCall(env, y, signer, basis)]
  }

  function GrantCall(env: Env, y: string, signer: string, basis: Basis): TimedCall {
    TimedCall(DecideCall(Actor(Human, y, signer, map[]), env.ids(1), true, None, Some(basis)), 0)
  }

  /** A reachable failure: the gate names one role, another grants, and the door opens. */
  lemma ForeignRoleGrants(env: Env, actor: Actor, gate: string, y: string, signer: string, basis: Basis)
    requires FreshIds(env) && actor.id != "" && y != "" && !env.requireSignatures
    requires gate != "" && signer != gate && signer != actor.role
    ensures var m := GateModel(actor.role, gate, signer);
      var t := Run(env, Start(m), Granted(env, actor, y, signer, basis));
      && AdmissibleRun(env, Start(m), Granted(env, actor, y, signer, basis)) && CompiledWorkflows(m)
      && |t.log| == 4 && t.log[2].body.ApprovalGranted? && t.log[2].body.role == gate && t.log[2].actor.role == signer
      && t.log[3].body.RecordAction? && TakesGatedTransition(m, t.log[3])
      && t.view.records == map[Door(env, 0) := map["state" := Str("open")]]
  {
    hide *;
    var m := GateModel(actor.role, gate, signer);
    var c := GrantCall(env, y, signer, basis);
    StartIs(env, m);
    AskedIs(env, actor, gate, signer, basis, "");
    var t := Run(env, Start(m), Asked(env, actor, basis, ""));
    assert Granted(env, actor, y, signer, basis) == Asked(env, actor, basis, "") + [c] by {
      GrantedCalls(env, actor, y, signer, basis);
    }
    RunMore(env, Start(m), Asked(env, actor, basis, ""), c);
    GrantCallIs(env, t, y, signer, basis);
    GateCompiles(actor.role, gate, signer);
    GrantStep(env, t, actor, gate, y, signer, basis);
  }

  lemma GrantedCalls(env: Env, actor: Actor, y: string, signer: string, basis: Basis)
    ensures Granted(env, actor, y, signer, basis) ==
      Asked(env, actor, basis, "") + [GrantCall(env, y, signer, basis)]
  {
  }

  lemma GrantCallIs(env: Env, s: State, y: string, signer: string, basis: Basis)
    ensures var c := GrantCall(env, y, signer, basis);
      && Admissible(s, c.call)
      && Step(env, s, c.call, c.now).state ==
         Decide(env, s, Actor(Human, y, signer, map[]), env.ids(1), true, None, Some(basis), 0).state
  {
    hide Decide;
  }

  lemma GateCompiles(role: string, gate: string, signer: string)
    ensures CompiledWorkflows(GateModel(role, gate, signer))
  {
    GateShape(role, gate, signer);
    hide GateModel;
  }

  lemma GrantStep(env: Env, s: State, actor: Actor, gate: string, y: string, signer: string, basis: Basis)
    requires s.view.model == GateModel(actor.role, gate, signer) && y != "" && !env.requireSignatures
    requires gate != "" && signer != actor.role && |s.log| == 2
    requires s.view.records == map[Door(env, 0) := map[]]
    requires s.view.approvals ==
      map[env.ids(1) := Approval("Door", env.ids(0), "open", "", "open", gate, actor, Pending)]
    ensures var t := Decide(env, s, Actor(Human, y, signer, map[]), env.ids(1), true, None, Some(basis), 0).state;
      && |t.log| == 4 && t.log[2].body.ApprovalGranted? && t.log[2].body.role == gate && t.log[2].actor.role == signer
      && t.log[3].body.RecordAction? && TakesGatedTransition(s.view.model, t.log[3])
      && t.view.records == map[Door(env, 0) := map["state" := Str("open")]]
  {
    hide *;
    var human, id, a := Actor(Human, y, signer, map[]), env.ids(1), s.view.approvals[env.ids(1)];
    GrantPasses(env, s, actor.role, gate, human, id);
    DoorIs(env, 0);
    var t := Commit(env, s, DecisionEntry(s, human, id, a, true, Some(basis), 0));
    GrantCommitted(env, s, human, id, a, basis);
    GateShape(actor.role, gate, signer);
    DoorIsShut(t, Door(env, 0));
    var u := CommitTransition(env, t, human, Door(env, 0), ApprovedTransition(a), "", Some(Basis("approval", id)),
      NoKey, 0);
    MoveCommitted(env, t, human, Door(env, 0), a, id, gate);
    GateSettles(env, u, actor.role, gate, signer, Door(env, 0), "");
    DecideGoes(env, s, human, id, a, basis, Door(env, 0));
  }

  lemma DoorIs(env: Env, n: nat)
    ensures Door(env, n) == Rid("Door", env.ids(n))
  {
  }

  lemma GrantPasses(env: Env, s: State, role: string, gate: string, human: Actor, id: string)
    requires s.view.model == GateModel(role, gate, human.role) && human.role != role && !env.requireSignatures
    requires id in s.view.approvals && s.view.approvals[id].status == Pending && s.view.approvals[id].action == "open"
    ensures DecideCheck(env, s.view, human, id, true, None).None?
  {
    MayAct(role, gate, human.role, "open");
    hide GateModel, CanNamed;
  }

  lemma GrantCommitted(env: Env, s: State, human: Actor, id: string, a: Approval, basis: Basis)
    ensures var e := DecisionEntry(s, human, id, a, true, Some(basis), 0);
      var t := Commit(env, s, e);
      && t.view.model == s.view.model && t.view.records == s.view.records && t.log == s.log + [e]
      && e.body.ApprovalGranted? && e.body.role == a.role && e.actor == human
  {
  }

  lemma DoorIsShut(s: State, rid: Rid)
    requires rid in s.view.records && s.view.records[rid] == map[]
    requires rid.entity in s.view.model.workflows ==> s.view.model.workflows[rid.entity].field == "state"
    ensures StateOf(s.view, rid) == ""
  {
  }

  lemma MoveCommitted(env: Env, s: State, human: Actor, rid: Rid, a: Approval, id: string, gate: string)
    requires rid in s.view.records && s.view.records[rid] == map[] && rid.entity in s.view.model.workflows
    requires s.view.model.workflows[rid.entity] ==
      Workflow("state", [Transition("any", "open", "open", false, "", "", gate)])
    requires gate != "" && a.action == "open" && a.to == "open"
    ensures var e := TransitionEntry(s, human, rid, ApprovedTransition(a), "", Some(Basis("approval", id)), NoKey, 0);
      var t := CommitTransition(env, s, human, rid, ApprovedTransition(a), "", Some(Basis("approval", id)), NoKey, 0);
      && t.view.model == s.view.model && t.log == s.log + [e] && e.body.RecordAction?
      && TakesGatedTransition(s.view.model, e) && t.view.records == s.view.records[rid := map["state" := Str("open")]]
  {
    assert s.view.records[rid]["state" := Str("open")] == map["state" := Str("open")];
    var tr := s.view.model.workflows[rid.entity].transitions[0];
    assert tr in s.view.model.workflows[rid.entity].transitions && tr.action == "open";
  }

  /** A grant that passes its checks, of a record that is where the request found it, moves the record. */
  lemma DecideGoes(env: Env, s: State, human: Actor, id: string, a: Approval, basis: Basis, rid: Rid)
    requires id in s.view.approvals && a == s.view.approvals[id] && rid == Rid(a.entity, a.recordId) && human.id != ""
    requires DecideCheck(env, s.view, human, id, true, None).None?
    requires var t := Commit(env, s, DecisionEntry(s, human, id, a, true, Some(basis), 0));
      rid in t.view.records && rid.entity in t.view.model.workflows && StateOf(t.view, rid) == a.from
    ensures var t := Commit(env, s, DecisionEntry(s, human, id, a, true, Some(basis), 0));
      Decide(env, s, human, id, true, None, Some(basis), 0).state ==
      Settle(env, CommitTransition(env, t, human, rid, ApprovedTransition(a), a.from, Some(Basis("approval", id)),
        NoKey, 0), rid, 0)
  {
    hide DecideCheck, Commit, Settle, CommitTransition, StateOf, DecisionEntry;
  }
}
