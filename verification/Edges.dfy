/** The state field moves only along declared edges. */
module Edges {
  // Every move starts where the previous one ended, and follows a transition the workflow declares.

  import opened Values
  import opened Model
  import opened Journal
  import opened Projection
  import opened Environment
  import opened Permissions
  import opened Records
  import opened Steps
  import opened Protocol
  import opened Conformance
  import opened Approvals
  import opened Replay
  import Serial

  /** The workflow field is a declared enum field, and fields are declared once; the compiler checks both. */
  ghost predicate StateFieldsDeclared(m: Model) {
    forall entity <- m.workflows ::
      && entity in m.entities && DistinctFields(m.entities[entity].fields)
      && exists f <- m.entities[entity].fields :: f.name == m.workflows[entity].field && f.ty.Enum? && f.computed == ""
  }

  /** The state a record is in after the journal: its creation state, then the target of each move. */
  function StateBy(m: Model, log: seq<Entry>, rid: Rid): string
    requires rid.entity in m.workflows
    decreases |log|
  {
    if log == [] then ""
    else
      var e := log[|log| - 1];
      if RidOf(e.subject) == rid
        && e.body.RecordCreated? then AsString(Get(e.body.values, m.workflows[rid.entity].field))
      else if RidOf(e.subject) == rid && e.body.RecordAction? then e.body.to
      else StateBy(m, log[..|log| - 1], rid)
  }

  predicate Declared(m: Model, entity: string, from: string, action: string, to: string) {
    && entity in m.workflows
    && exists tr <- m.workflows[entity].transitions :: Leaves(tr, from) && tr.action == action && tr.to == to
  }

  /** The move at j continues the chain and follows a declared edge. */
  ghost predicate MoveOk(m: Model, log: seq<Entry>, j: nat)
    requires j < |log| && log[j].body.RecordAction?
  {
    var rid := RidOf(log[j].subject);
    && Declared(m, rid.entity, log[j].body.from, log[j].body.action, log[j].body.to)
    && log[j].body.from == StateBy(m, log[..j], rid)
  }

  ghost predicate MovesOk(m: Model, log: seq<Entry>) {
    forall j :: 0 <= j < |log| && log[j].body.RecordAction? ==> MoveOk(m, log, j)
  }

  /** The stored state is where the chain of moves ends. */
  ghost predicate StoredAtEnd(m: Model, s: State) {
    forall rid <- s.view.records :: rid.entity in m.workflows ==> StateOf(s.view, rid) == StateBy(m, s.log, rid)
  }

  ghost predicate RequestsDeclared(m: Model, s: State) {
    forall id <- s.view.approvals ::
      var a := s.view.approvals[id];
      Declared(m, a.entity, a.from, a.action, a.to)
  }

  ghost predicate Inv(env: Env, m: Model, s: State) {
    Good(env, s) && s.view.model == m && StoredAtEnd(m, s) && RequestsDeclared(m, s) && MovesOk(m, s.log)
  }

  // ---- the steps of the invariant -------------------------------------------------------

  lemma UpdateKeepsState(env: Env, s: State, e: Entry)
    requires e.body.RecordUpdated? && UpdateLegal(env, s, e, e.body.changes)
    requires RidOf(e.subject).entity in s.view.model.workflows
    ensures RidOf(e.subject) in s.view.records
    ensures StateOf(Apply(env.compile, s.view, e), RidOf(e.subject)) == StateOf(s.view, RidOf(e.subject))
  {
    var rid := RidOf(e.subject);
    var given :| UpdateCheck(env, s.view, e.actor, rid, given, e.ts) == Success(e.body.changes);
    UpdateChanges(env, s.view, e.actor, rid, given, e.ts);
  }

  lemma UpdateChanges(env: Env, v: View, actor: Actor, rid: Rid, given: Fields, now: int)
    requires UpdateCheck(env, v, actor, rid, given, now).Success?
    ensures rid in v.records && rid.entity in v.model.entities && !TouchesState(v.model, rid.entity, given)
    ensures UpdateCheck(env, v, actor, rid, given, now) == Success(Changes(v.records[rid], given))
    ensures UniqueOk(v.records, v.model.entities[rid.entity], rid.entity, v.records[rid] + given, rid.id)
    ensures RefsExist(v.records, v.model.entities[rid.entity].fields, given)
  {
    hide Can;
    hide FieldWritesOk;
    hide GivenOk;
    hide UniqueOk;
    hide UniquePanics;
    hide RefsExist;
  }

  lemma StoredStays(env: Env, m: Model, s: State, e: Entry)
    requires Good(env, s) && s.view.model == m && Legal(env, s, e) && !e.body.DefinitionApplied? && StoredAtEnd(m, s)
    ensures StoredAtEnd(m, Commit(env, s, e))
  {
    var t := Commit(env, s, e);
    assert t.log[..|s.log|] == s.log;
    forall rid | rid in t.view.records && rid.entity in m.workflows
      ensures StateOf(t.view, rid) == StateBy(m, t.log, rid)
    {
      StoredStaysAt(env, m, s, e, rid);
    }
  }

  lemma StoredStaysAt(env: Env, m: Model, s: State, e: Entry, rid: Rid)
    requires s.view.model == m && Legal(env, s, e) && !e.body.DefinitionApplied? && StoredAtEnd(m, s)
    requires rid in Commit(env, s, e).view.records && rid.entity in m.workflows
    ensures StateOf(Commit(env, s, e).view, rid) == StateBy(m, s.log + [e], rid)
  {
    if RidOf(e.subject) == rid && e.body.RecordUpdated? {
      assert UpdateLegal(env, s, e, e.body.changes);
      UpdateKeepsState(env, s, e);
    }
    hide Legal, UpdateLegal, CanNamed, UpdateCheck;
    StateAfter(env, m, s, e, rid);
  }

  /** Only creations and moves change a record's state. */
  lemma StateAfter(env: Env, m: Model, s: State, e: Entry, rid: Rid)
    requires s.view.model == m && !e.body.DefinitionApplied? && StoredAtEnd(m, s)
    requires rid in Commit(env, s, e).view.records && rid.entity in m.workflows
    requires RidOf(e.subject) == rid && e.body.RecordUpdated? ==>
      rid in s.view.records && StateOf(Apply(env.compile, s.view, e), rid) == StateOf(s.view, rid)
    ensures StateOf(Commit(env, s, e).view, rid) == StateBy(m, s.log + [e], rid)
  {
    var more := s.log + [e];
    assert more[..|s.log|] == s.log && more[|s.log|] == e;
    hide NextSince, NextApprovals, NextTasks, NextProposals, NextLinks;
  }

  lemma RequestStaysDeclared(env: Env, m: Model, s: State, e: Entry)
    requires s.view.model == m && Legal(env, s, e) && RequestsDeclared(m, s)
    ensures RequestsDeclared(m, Commit(env, s, e))
  {
    if e.body.ApprovalRequested? {
      assert RequestLegal(env, s, e);
      hide Legal;
      var b := e.body;
      var tr :| ActCheck(env, s.view, e.actor, Rid(b.entity, b.recordId), b.action, e.ts) == Success(tr)
        && b.to == tr.to;
      assert Leaves(tr, b.from);
      assert Declared(m, b.entity, b.from, b.action, b.to);
    } else {
      hide Legal;
    }
  }

  lemma MoveIsDeclared(env: Env, m: Model, s: State, e: Entry)
    requires s.view.model == m && RequestsDeclared(m, s) && ActionLegal(env, s, e)
    ensures Declared(m, RidOf(e.subject).entity, e.body.from, e.body.action, e.body.to)
  {
    var rid := RidOf(e.subject);
    if NamedLegal(env, s, e) {
      var tr :| ActCheck(env, s.view, e.actor, rid, e.body.action, e.ts) == Success(tr) && e.body.to == tr.to;
      assert Leaves(tr, e.body.from);
    } else if ApprovedLegal(s, e) {
      assert MatchesApproval(e.body, rid, s.view.approvals[e.basis.value.id]);
    } else {
      var tr :| tr in m.workflows[rid.entity].transitions && AutoEnabled(env, s.view, rid, tr, e.body.from, e.ts)
                && e.body.action == tr.action && e.body.to == tr.to;
    }
  }

  lemma MovesStay(env: Env, m: Model, s: State, e: Entry)
    requires Inv(env, m, s) && Legal(env, s, e)
    ensures MovesOk(m, s.log + [e])
  {
    var more := s.log + [e];
    if e.body.RecordAction? {
      assert ActionLegal(env, s, e);
      MoveIsDeclared(env, m, s, e);
    }
    hide Legal;
    hide Good;
    forall j | 0 <= j < |more| && more[j].body.RecordAction? ensures MoveOk(m, more, j) {
      if j < |s.log| {
        assert more[j] == s.log[j] && more[..j] == s.log[..j];
        assert MoveOk(m, s.log, j);
      } else {
        assert more[..j] == s.log && more[j] == e;
      }
    }
  }

  lemma {:induction false} InvHolds(env: Env, m: Model, s: State, es: seq<Entry>)
    requires Inv(env, m, s) && LegalRun(env, s, es) && FixedDefinition(es)
    ensures Inv(env, m, CommitAll(env, s, es))
    decreases |es|
  {
    if es != [] {
      CommitKeepsGood(env, s, es[0]);
      StoredStays(env, m, s, es[0]);
      RequestStaysDeclared(env, m, s, es[0]);
      MovesStay(env, m, s, es[0]);
      hide Legal;
      hide StoredAtEnd;
      hide RequestsDeclared;
      hide MovesOk;
      hide Good;
      InvHolds(env, m, Commit(env, s, es[0]), es[1..]);
    }
  }

  /** In every admissible run under one definition, the moves of each record form a chain of declared edges
      that starts at its creation state and ends at its stored state. */
  lemma MovesAlongDeclaredEdges(env: Env, m: Model, calls: seq<TimedCall>)
    requires FreshIds(env) && AdmissibleRun(env, Start(m), calls)
    requires FixedDefinition(Run(env, Start(m), calls).log)
    ensures var t := Run(env, Start(m), calls);
      MovesOk(m, t.log) && StoredAtEnd(m, t)
  {
    var t := Run(env, Start(m), calls);
    var es := RunEntries(env, m, calls);
    hide Run, LegalRun, AdmissibleRun, Good, FreshIds, CommitAll;
    assert Inv(env, m, Start(m));
    InvHolds(env, m, Start(m), es);
  }

  // ---- the creation state ------------------------------------------------------------------

  lemma {:induction false} SerialsKeepOthers(env: Env, v: View, entity: string, fields: seq<Field>, values: Fields,
                                        now: int, name: string)
    requires forall f <- fields :: f.name == name ==> f.ty != Scalar("serial")
    ensures Get(AssignSerials(env, v, entity, fields, values, now), name) == Get(values, name)
    ensures name in AssignSerials(env, v, entity, fields, values, now) <==> name in values
    decreases |fields|
  {
    if fields != [] {
      var f := fields[0];
      var filled :=
        if f.ty == Scalar("serial") && Get(values, f.name) in {Null, Str("")}
        then values[f.name :=
          Str(Serial.FormatSerial(f.format, Serial.NextSeq(Column(v, entity, f.name), f.format), env.year(now)))]
        else values;
      SerialsKeepOthers(env, v, entity, fields[1..], filled, now, name);
    }
  }

  /** The i-th field holds what its default gives, seeing the values filled before it; without a default, or
      where the default gives none, the field is absent. */
  predicate Defaulted(env: Env, v: View, fields: seq<Field>, i: nat, given: Fields, values: Fields, actorId: string,
                      now: int)
    requires i < |fields|
  {
    var f := fields[i];
    var d := env.defaultValue(f.default, v.records, WithDefaults(env, v, fields[..i], given, actorId, now), actorId,
      now);
    && (f.name in values <==> f.default != "" && f.computed == "" && d.Some?)
    && (f.name in values ==> values[f.name] == d.value)
  }

  lemma {:induction false} DefaultOrAbsent(env: Env, v: View, fields: seq<Field>, i: nat, given: Fields,
                                        actorId: string, now: int)
    requires DistinctFields(fields) && i < |fields| && fields[i].name !in given
    ensures Defaulted(env, v, fields, i, given, WithDefaults(env, v, fields, given, actorId, now), actorId, now)
    decreases i
  {
    var g, name := fields[0], fields[i].name;
    var d := env.defaultValue(g.default, v.records, given, actorId, now);
    var filled := if g.name in given || g.default == "" || g.computed != ""
      || d.None? then given else given[g.name := d.value];
    if i == 0 {
      assert fields[..0] == [];
      if name !in filled {
        DefaultsSkip(env, v, fields[1..], filled, actorId, now, name);
      }
    } else {
      assert fields[..i][0] == g && fields[..i][1..] == fields[1..][..i - 1] && fields[1..][i - 1] == fields[i];
      DefaultOrAbsent(env, v, fields[1..], i - 1, filled, actorId, now);
    }
  }

  lemma {:induction false} DefaultsSkip(env: Env, v: View, fields: seq<Field>, values: Fields, actorId: string,
                                        now: int, name: string)
    requires name !in values && forall f <- fields :: f.name != name
    ensures name !in WithDefaults(env, v, fields, values, actorId, now)
    decreases |fields|
  {
    if fields != [] {
      var g := fields[0];
      var d := env.defaultValue(g.default, v.records, values, actorId, now);
      var filled := if g.name in values || g.default == "" || g.computed != ""
        || d.None? then values else values[g.name := d.value];
      DefaultsSkip(env, v, fields[1..], filled, actorId, now, name);
    }
  }

  lemma CreateSteps(env: Env, v: View, actor: Actor, entity: string, given: Fields, now: int)
    requires CreateCheck(env, v, actor, entity, given, now).Success?
    ensures entity in v.model.entities && !TouchesState(v.model, entity, given)
    ensures var decl := v.model.entities[entity];
      var vals := WithDefaults(env, v, decl.fields, AssignSerials(env, v, entity, decl.fields, given, now), actor.id,
        now);
      && CreateCheck(env, v, actor, entity, given, now) == Success(vals)
      && (decl.singleton ==> IdsOf(v.records, entity) == {})
      && RefsExist(v.records, decl.fields, vals)
      && UniqueOk(v.records, decl, entity, vals, "")
  {
    hide Can;
    hide FieldWritesOk;
    hide GivenOk;
    hide UniqueOk;
    hide UniquePanics;
    hide RefsExist;
    hide RequiredPresent;
    hide AssignSerials;
    hide WithDefaults;
    hide IdsOf;
  }

  /** A record of this entity, created with these values given, has its workflow's default state: the caller's
      values reach the state only through the defaults' expressions. */
  ghost predicate BornDefault(env: Env, v: View, entity: string, given: Fields, values: Fields, actorId: string,
                              now: int)
  {
    && entity in v.model.entities && entity in v.model.workflows
    && var fields := v.model.entities[entity].fields;
       exists i :: 0 <= i < |fields| && fields[i].name == v.model.workflows[entity].field &&
         Defaulted(env, v, fields, i, AssignSerials(env, v, entity, fields, given, now), values, actorId, now)
  }

  lemma CreatedDefault(env: Env, v: View, actor: Actor, entity: string, given: Fields, now: int)
    requires StateFieldsDeclared(v.model) && entity in v.model.workflows
    requires CreateCheck(env, v, actor, entity, given, now).Success?
    ensures BornDefault(env, v, entity, given, CreateCheck(env, v, actor, entity, given, now).value, actor.id, now)
  {
    CreateSteps(env, v, actor, entity, given, now);
    hide CreateCheck;
    var fields, name := v.model.entities[entity].fields, v.model.workflows[entity].field;
    var h :| h in fields && h.name == name && h.ty.Enum?;
    var i :| 0 <= i < |fields| && fields[i] == h;
    SerialsKeepOthers(env, v, entity, fields, given, now, name);
    DefaultOrAbsent(env, v, fields, i, AssignSerials(env, v, entity, fields, given, now), actor.id, now);
  }

  /** In every admissible run, every record of a workflow's entity was created in its default state, whatever
      the caller passed. */
  lemma BornInDefaultState(env: Env, m: Model, calls: seq<TimedCall>, j: nat) returns (given: Fields)
    requires FreshIds(env) && AdmissibleRun(env, Start(m), calls)
    requires j < |Run(env, Start(m), calls).log| && Run(env, Start(m), calls).log[j].body.RecordCreated?
    requires var v := Fold(env.compile, Genesis(m), Run(env, Start(m), calls).log[..j]);
      StateFieldsDeclared(v.model) && Run(env, Start(m), calls).log[j].subject.entity in v.model.workflows
    ensures var log := Run(env, Start(m), calls).log;
      var v, e := Fold(env.compile, Genesis(m), log[..j]), log[j];
      !TouchesState(v.model, e.subject.entity, given)
      && BornDefault(env, v, e.subject.entity, given, e.body.values, e.actor.id, e.ts)
  {
    StartIsGood(env, m);
    RunConforms(env, Start(m), calls);
    var t := Run(env, Start(m), calls);
    hide Run, AdmissibleRun, BornDefault, Good;
    LegalHistory(env, m, t);
    var v, e := Fold(env.compile, Genesis(m), t.log[..j]), t.log[j];
    assert Legal(env, State(v, t.log[..j]), e);
    given := LegalCreation(env, State(v, t.log[..j]), e);
    hide Legal, CreateCheck, Fold;
    CreatedDefault(env, v, e.actor, e.subject.entity, given, e.ts);
    CreateSteps(env, v, e.actor, e.subject.entity, given, e.ts);
  }

  lemma LegalCreation(env: Env, s: State, e: Entry) returns (given: Fields)
    requires Legal(env, s, e) && e.body.RecordCreated?
    ensures CreateCheck(env, s.view, e.actor, e.subject.entity, given, e.ts) == Success(e.body.values)
  {
    hide CreateCheck;
    given :| CreateCheck(env, s.view, e.actor, e.subject.entity, given, e.ts) == Success(e.body.values);
  }
}
