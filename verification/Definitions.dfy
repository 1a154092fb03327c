/** The history of definitions: linear in its version numbers, additive at every step, and kind to stored values. */
module Definitions {
  import opened Values
  import opened Model
  import opened Journal
  import opened Projection
  import opened Environment
  import opened Records
  import opened Steps
  import opened Protocol
  import opened Conformance
  import Replay

  // ---- additive changes compose -----------------------------------------------------------

  lemma SameTypeReflexive(t: FieldType)
    ensures SameType(t, t)
  {
  }

  lemma SameTypeTransitive(a: FieldType, b: FieldType, c: FieldType)
    requires SameType(a, b) && SameType(b, c)
    ensures SameType(a, c)
  {
  }

  ghost predicate DistinctModel(m: Model) {
    forall name <- m.entities :: DistinctFields(m.entities[name].fields)
  }

  lemma {:induction false} FindsDeclared(fields: seq<Field>, f: Field)
    requires DistinctFields(fields) && f in fields
    ensures FindField(fields, f.name) == Some(f)
    decreases |fields|
  {
    var i :| 0 <= i < |fields| && fields[i] == f;
    if i > 0 {
      assert fields[1..][i - 1] == f && fields[0].name != fields[i].name;
      FindsDeclared(fields[1..], f);
    }
  }

  lemma AdditiveReflexive(m: Model)
    requires DistinctModel(m)
    ensures Additive(m, m)
  {
    forall name | name in m.entities
      ensures forall f <- m.entities[name].fields ::
        FindField(m.entities[name].fields, f.name).Some?
          && SameType(f.ty, FindField(m.entities[name].fields, f.name).value.ty)
    {
      forall f | f in m.entities[name].fields
        ensures FindField(m.entities[name].fields, f.name).Some?
          && SameType(f.ty, FindField(m.entities[name].fields, f.name).value.ty)
      {
        FindsDeclared(m.entities[name].fields, f);
        SameTypeReflexive(f.ty);
      }
    }
  }

  lemma AdditiveTransitive(a: Model, b: Model, c: Model)
    requires Additive(a, b) && Additive(b, c)
    ensures Additive(a, c)
  {
    forall name | name in a.entities
      ensures name in c.entities
      ensures forall f <- a.entities[name].fields ::
        FindField(c.entities[name].fields, f.name).Some?
          && SameType(f.ty, FindField(c.entities[name].fields, f.name).value.ty)
    {
      forall f | f in a.entities[name].fields
        ensures FindField(c.entities[name].fields, f.name).Some?
          && SameType(f.ty, FindField(c.entities[name].fields, f.name).value.ty)
      {
        var g := FindField(b.entities[name].fields, f.name).value;
        var h := FindField(c.entities[name].fields, g.name).value;
        SameTypeTransitive(f.ty, g.ty, h.ty);
      }
    }
  }

  // ---- stored values stay acceptable -----------------------------------------------------------

  /** A value accepted for a type is accepted for every additive successor of it, array[enum] aside. */
  lemma AcceptedStaysAccepted(wf: (string, string) -> bool, old_: FieldType, next: FieldType, v: Value)
    requires SameType(old_, next) && !old_.MultiEnum? && TypeOk(wf, old_, v)
    ensures TypeOk(wf, next, v)
  {
    if old_.Enum? {
      var i :| 0 <= i < |old_.values| && old_.values[i] == v.s;
      assert next.values[i] == v.s;
    }
  }

  /** For array[enum] the additive check looks at nothing but the kind: every accepted value stays accepted
      exactly when no option was dropped. */
  lemma MultiEnumStaysAcceptedIff(wf: (string, string) -> bool, old_: FieldType, next: FieldType)
    requires old_.MultiEnum? && SameType(old_, next)
    ensures (forall v :: TypeOk(wf, old_, v) ==> TypeOk(wf, next, v)) <==>
      (forall o <- old_.options :: o in next.options)
  {
    if forall v :: TypeOk(wf, old_, v) ==> TypeOk(wf, next, v) {
      forall o | o in old_.options ensures o in next.options {
        var v := List([Str(o)]);
        assert TypeOk(wf, old_, v);
        assert TypeOk(wf, next, v);
        assert v.items[0] in v.items;
      }
    }
  }

  /** A definition change the additive check lets through, after which a stored value is no longer valid. */
  lemma MultiEnumMayShrink(wf: (string, string) -> bool)
    ensures SameType(MultiEnum(["Backend", "Infra"]), MultiEnum(["Backend"]))
    ensures TypeOk(wf, MultiEnum(["Backend", "Infra"]), List([Str("Infra")]))
    ensures !TypeOk(wf, MultiEnum(["Backend"]), List([Str("Infra")]))
  {
    var v := List([Str("Infra")]);
    assert v.items[0] in v.items;
    assert "Backend"[0] != "Infra"[0];
  }

  // ---- the version numbers ---------------------------------------------------------------------

  function CountApplied(log: seq<Entry>): nat
    decreases |log|
  {
    if log == [] then 0
    else CountApplied(log[..|log| - 1]) + if log[|log| - 1].body.DefinitionApplied? then 1 else 0
  }

  /** An applied event carries the version it was decided against: one more than the applied events before it. */
  ghost predicate Numbered(log: seq<Entry>) {
    forall j :: 0 <= j < |log| && log[j].body.DefinitionApplied? ==> log[j].defVersion == CountApplied(log[..j]) + 1
  }

  /** A proposal that can still be decided against the running version is additive over the running model. */
  ghost predicate ProposalsAdditive(env: Env, v: View) {
    forall id <- v.proposals ::
      var p := v.proposals[id];
      && p.base <= v.defVersion
      && (p.base == v.defVersion && p.status in {Parked, Approved} ==>
            env.compile(p.files).Some? && Additive(v.model, env.compile(p.files).value))
  }

  /** Applied events of proposals were decided against the version the proposal was based on. */
  ghost predicate AppliedOnBase(s: State) {
    forall e <- s.log :: e.body.DefinitionApplied? && e.subject.proposalId != "" ==>
      e.subject.proposalId in s.view.proposals && s.view.proposals[e.subject.proposalId].base == e.defVersion
  }

  ghost predicate Inv(env: Env, s: State) {
    && Good(env, s) && ProposalsAdditive(env, s.view) && Numbered(s.log) && AppliedOnBase(s)
    && s.view.defVersion == CountApplied(s.log) + 1
  }

  lemma NumberedAppend(log: seq<Entry>, e: Entry)
    requires Numbered(log) && (e.body.DefinitionApplied? ==> e.defVersion == CountApplied(log) + 1)
    ensures Numbered(log + [e])
    ensures CountApplied(log + [e]) == CountApplied(log) + if e.body.DefinitionApplied? then 1 else 0
  {
    var more := log + [e];
    assert more[..|log|] == log;
    forall j | 0 <= j < |more|
      && more[j].body.DefinitionApplied? ensures more[j].defVersion == CountApplied(more[..j]) + 1 {
      assert more[..j] == log[..j];
    }
  }

  lemma CommitKeepsProposals(env: Env, s: State, e: Entry)
    requires Good(env, s) && ProposalsAdditive(env, s.view) && Legal(env, s, e)
    ensures ProposalsAdditive(env, Commit(env, s, e).view)
    ensures Additive(s.view.model, Commit(env, s, e).view.model) || s.view.model == Commit(env, s, e).view.model
  {
    if e.body.DefinitionProposed? || e.body.DefinitionApproved? || e.body.DefinitionRejected?
      || e.body.DefinitionApplied? {
      assert ProposalLegal(env, s, e);
    }
    hide Legal, Additive, NextRecords, NextSince, NextTasks, NextApprovals, NextLinks, FreshIds, TaskKeys, UniqueKeys,
      IdsDrawn;
  }

  lemma CommitKeepsApplied(env: Env, s: State, e: Entry)
    requires Good(env, s) && AppliedOnBase(s) && Legal(env, s, e)
    ensures AppliedOnBase(Commit(env, s, e))
  {
    if e.body.DefinitionProposed? || e.body.DefinitionApplied? {
      assert ProposalLegal(env, s, e);
    }
    FreshNotDrawn(env, |s.log|);
    hide Legal, Decidable, ProposeCheck, FreshIds, TaskKeys, UniqueKeys, SourcesCompile, NextRecords, NextSince,
      NextTasks, NextApprovals, NextLinks, NextModel;
    var t := Commit(env, s, e);
    forall d | d in t.log && d.body.DefinitionApplied? && d.subject.proposalId != ""
      ensures d.subject.proposalId in t.view.proposals && t.view.proposals[d.subject.proposalId].base == d.defVersion
    {
      var id := d.subject.proposalId;
      assert id in s.view.proposals && s.view.proposals[id].base == d.defVersion by {
        if d !in s.log {
          assert d == e;
        }
      }
    }
  }

  lemma InvStays(env: Env, s: State, e: Entry)
    requires Inv(env, s) && Legal(env, s, e)
    ensures Inv(env, Commit(env, s, e))
    ensures Additive(s.view.model, Commit(env, s, e).view.model) || s.view.model == Commit(env, s, e).view.model
  {
    CommitKeepsGood(env, s, e);
    CommitKeepsProposals(env, s, e);
    CommitKeepsApplied(env, s, e);
    assert e.defVersion == s.view.defVersion;
    hide Legal;
    hide Good;
    hide ProposalsAdditive;
    hide AppliedOnBase;
    NumberedAppend(s.log, e);
  }

  /** The later model is the earlier one or an additive successor of it. */
  ghost predicate Grown(m: Model, n: Model) {
    m == n || Additive(m, n)
  }

  /** A field may keep its type, or add options to it at the end; options of a list of options are free. */
  predicate StillOf(a: FieldType, b: FieldType) {
    match a
    case Enum(options) =>
      b.Enum? && |options| <= |b.values| && forall i :: 0 <= i < |options| ==> b.values[i] == options[i]
    case MultiEnum(_) => b.MultiEnum?
    case _ => a == b
  }

  /** Every entity and every field of it is still there, with its type. */
  predicate Extends(m: Model, n: Model) {
    forall name <- m.entities :: name in n.entities &&
      forall f <- m.entities[name].fields ::
        exists g <- n.entities[name].fields :: g.name == f.name && StillOf(f.ty, g.ty)
  }

  /** Where fields are declared once, the additive check says exactly that. */
  lemma AdditiveExtends(m: Model, n: Model)
    ensures Additive(m, n) ==> Extends(m, n)
    ensures Extends(m, n) && (forall name <- n.entities :: DistinctFields(n.entities[name].fields)) ==> Additive(m, n)
  {
    forall a, b ensures SameType(a, b) <==> StillOf(a, b) {
      if a.Enum? && b.Enum? && StillOf(a, b) {
        assert a.values == b.values[..|a.values|];
      }
    }
    hide SameType, StillOf;
    if Additive(m, n) {
      forall name, f | name in m.entities && f in m.entities[name].fields
        ensures name in n.entities && exists g <- n.entities[name].fields :: g.name == f.name && StillOf(f.ty, g.ty)
      {
        var g := FindField(n.entities[name].fields, f.name);
        assert g.value in n.entities[name].fields;
      }
    }
    if Extends(m, n) && forall name <- n.entities :: DistinctFields(n.entities[name].fields) {
      forall name, f | name in m.entities && f in m.entities[name].fields
        ensures FindField(n.entities[name].fields, f.name).Some?
        ensures SameType(f.ty, FindField(n.entities[name].fields, f.name).value.ty)
      {
        var fields := n.entities[name].fields;
        var g :| g in fields && g.name == f.name && StillOf(f.ty, g.ty);
        OnlyField(fields, g);
      }
    }
  }

  lemma OnlyField(fields: seq<Field>, g: Field)
    requires DistinctFields(fields) && g in fields
    ensures FindField(fields, g.name) == Some(g)
  {
    var h := FindField(fields, g.name).value;
    var i :| 0 <= i < |fields| && fields[i] == g;
    var j :| 0 <= j < |fields| && fields[j] == h;
  }

  lemma ExtendsItself(m: Model)
    ensures Extends(m, m)
  {
    forall name, f | name in m.entities && f in m.entities[name].fields
      ensures exists g <- m.entities[name].fields :: g.name == f.name && StillOf(f.ty, g.ty)
    {
      assert StillOf(f.ty, f.ty);
    }
  }

  lemma GrownTransitive(a: Model, b: Model, c: Model)
    requires Grown(a, b) && Grown(b, c)
    ensures Grown(a, c)
  {
    if a != b && b != c {
      AdditiveTransitive(a, b, c);
    }
  }

  lemma {:induction false} InvHolds(env: Env, s: State, es: seq<Entry>)
    requires Inv(env, s) && LegalRun(env, s, es)
    ensures Inv(env, CommitAll(env, s, es)) && Grown(s.view.model, CommitAll(env, s, es).view.model)
    decreases |es|
  {
    if es != [] {
      InvStays(env, s, es[0]);
      hide Inv;
      hide Legal;
      hide Apply;
      hide Additive;
      var t := Commit(env, s, es[0]);
      InvHolds(env, t, es[1..]);
      GrownTransitive(s.view.model, t.view.model, CommitAll(env, t, es[1..]).view.model);
    }
  }

  lemma SwapKeepsGood(env: Env, s: State, e: Entry, next: Model)
    requires Good(env, s) && e.key == NoKey
    ensures Good(env, State(s.view.(model := next, defVersion := s.view.defVersion + 1), s.log + [e]))
  {
    var n := |s.log|;
    forall r | r in s.view.records ensures Drawn(env, r.id, n + 1) { DrawnLater(env, r.id, n); }
    forall id | id in s.view.approvals ensures Drawn(env, id, n + 1) { DrawnLater(env, id, n); }
    forall id | id in s.view.tasks ensures Drawn(env, id, n + 1) { DrawnLater(env, id, n); }
    forall id | id in s.view.proposals ensures Drawn(env, id, n + 1) { DrawnLater(env, id, n); }
    AppendKeepsUniqueKeys(s.log, e);
  }

  lemma SwapKeepsProposals(env: Env, v: View, next: Model)
    requires ProposalsAdditive(env, v)
    ensures ProposalsAdditive(env, v.(model := next, defVersion := v.defVersion + 1))
  {
    hide Additive;
  }

  lemma SwapKeepsApplied(s: State, e: Entry, next: Model)
    requires AppliedOnBase(s) && e.subject.proposalId == ""
    ensures AppliedOnBase(State(s.view.(model := next, defVersion := s.view.defVersion + 1), s.log + [e]))
  {
  }

  /** The prototype model swap also moves to the next version, with an additive model. */
  lemma SwapKeepsInv(env: Env, s: State, actor: Actor, next: Model, basis: Option<Basis>, now: int)
    requires Inv(env, s)
    ensures var t := ApplyAdditive(s, actor, next, basis, now).state;
      Inv(env, t) && Grown(s.view.model, t.view.model)
  {
    hide Additive;
    hide Good;
    hide ProposalsAdditive;
    hide AppliedOnBase;
    hide Numbered;
    var t := ApplyAdditive(s, actor, next, basis, now).state;
    if t != s {
      var e := ProposalEntry(s, actor, "", DefinitionApplied(""), basis, now);
      NumberedAppend(s.log, e);
      SwapKeepsGood(env, s, e, next);
      SwapKeepsProposals(env, s.view, next);
      SwapKeepsApplied(s, e, next);
    }
  }

  /** Runs for the history of definitions: the prototype swap is allowed as well. */
  ghost predicate HistoryRun(env: Env, s: State, calls: seq<TimedCall>) {
    forall i :: 0 <= i < |calls| ==>
      calls[i].call.ApplyAdditiveCall? || Admissible(Run(env, s, calls[..i]), calls[i].call)
  }

  lemma StepKeepsInv(env: Env, s: State, call: Call, now: int)
    requires Inv(env, s) && (call.ApplyAdditiveCall? || Admissible(s, call))
    ensures var t := Step(env, s, call, now).state;
      Inv(env, t) && Grown(s.view.model, t.view.model)
  {
    if call.ApplyAdditiveCall? {
      SwapKeepsInv(env, s, call.actor, call.next, call.basis, now);
    } else {
      StepConforms(env, s, call, now);
      var t := Step(env, s, call, now).state;
      hide Step;
      var es :| LegalRun(env, s, es) && CommitAll(env, s, es) == t;
      InvHolds(env, s, es);
    }
  }

  lemma {:induction false} RunKeepsInv(env: Env, s: State, calls: seq<TimedCall>)
    requires Inv(env, s) && HistoryRun(env, s, calls)
    ensures Inv(env, Run(env, s, calls)) && Grown(s.view.model, Run(env, s, calls).view.model)
    decreases |calls|
  {
    hide Inv;
    hide Additive;
    hide Step;
    if calls != [] {
      var n := |calls| - 1;
      var most := calls[..n];
      forall i | 0 <= i < n ensures most[i].call.ApplyAdditiveCall?
        || Admissible(Run(env, s, most[..i]), most[i].call) {
        assert most[..i] == calls[..i];
      }
      RunKeepsInv(env, s, most);
      var t := Run(env, s, most);
      StepKeepsInv(env, t, calls[n].call, calls[n].now);
      GrownTransitive(s.view.model, t.view.model, Run(env, s, calls).view.model);
    }
  }

  lemma {:induction false} RunSplit(env: Env, s: State, calls: seq<TimedCall>, i: nat)
    requires i <= |calls|
    ensures Run(env, s, calls) == Run(env, Run(env, s, calls[..i]), calls[i..])
    decreases |calls| - i
  {
    hide Step;
    if i == |calls| {
      assert calls[..i] == calls;
    } else {
      RunSplitLast(env, s, calls, i);
    }
  }

  lemma {:induction false} RunSplitLast(env: Env, s: State, calls: seq<TimedCall>, i: nat)
    requires i < |calls|
    ensures Run(env, s, calls) == Run(env, Run(env, s, calls[..i]), calls[i..])
    decreases |calls|
  {
    hide Step;
    var n := |calls| - 1;
    var most := calls[..n];
    assert calls[i..][..n - i] == most[i..] && calls[..i] == most[..i] && calls[i..][n - i] == calls[n];
    if i < n {
      RunSplitLast(env, s, most, i);
    } else {
      assert most[i..] == [] && most[..i] == most;
    }
  }

  /** Over any run: versions count the applied definitions, no version is the base of two of them, every
      model is additive over every earlier one, and so no stored value other than an array[enum] stops
      being acceptable. */
  lemma DefinitionHistory(env: Env, genesis: Model, calls: seq<TimedCall>, i: nat)
    requires FreshIds(env) && HistoryRun(env, Start(genesis), calls) && i <= |calls|
    ensures var s, t := Run(env, Start(genesis), calls[..i]), Run(env, Start(genesis), calls);
      && Grown(s.view.model, t.view.model) && Extends(s.view.model, t.view.model)
      && t.view.defVersion == CountApplied(t.log) + 1
      && AppliedOnBase(t)
      && forall j, k :: 0 <= j < k < |t.log| && t.log[j].body.DefinitionApplied? && t.log[k].body.DefinitionApplied? ==>
           t.log[j].defVersion < t.log[k].defVersion
  {
    var start := Start(genesis);
    StartIsGood(env, genesis);
    assert Inv(env, start);
    var first, rest := calls[..i], calls[i..];
    hide Inv;
    hide Additive;
    hide Step;
    forall k | 0 <= k < |first| ensures first[k].call.ApplyAdditiveCall?
      || Admissible(Run(env, start, first[..k]), first[k].call) {
      assert first[..k] == calls[..k];
    }
    RunKeepsInv(env, start, first);
    var s := Run(env, start, first);
    forall k | 0 <= k < |rest| ensures rest[k].call.ApplyAdditiveCall?
      || Admissible(Run(env, s, rest[..k]), rest[k].call) {
      var upTo := calls[..i + k];
      RunSplit(env, start, upTo, i);
      assert upTo[..i] == first && upTo[i..] == rest[..k];
    }
    RunSplit(env, start, calls, i);
    RunKeepsInv(env, s, rest);
    var t := Run(env, start, calls);
    InvOrders(env, t);
    AdditiveExtends(s.view.model, t.view.model);
    ExtendsItself(s.view.model);
  }

  /** What a definition entry needs: a proposal is for the version in force, and its sources compile to a model
      that extends it; an applied one was approved right before, by a human approver, for the version in force. */
  ghost predicate Fits(env: Env, v: View, before: seq<Entry>, e: Entry) {
    match e.body
    case DefinitionProposed(_, base, files) =>
      && base == v.defVersion && files != map[]
      && env.compile(files).Some? && Extends(v.model, env.compile(files).value)
    case DefinitionApplied(_) =>
      && e.subject.proposalId in v.proposals && v.proposals[e.subject.proposalId].base == v.defVersion
      && before != [] && before[|before| - 1].body.DefinitionApproved?
      && before[|before| - 1].subject.proposalId == e.subject.proposalId
    case _ => true
  }

  lemma LegalFits(env: Env, s: State, e: Entry)
    requires Legal(env, s, e) && (e.body.DefinitionProposed? || e.body.DefinitionApplied?)
    ensures Fits(env, s.view, s.log, e)
  {
    hide Additive, Extends;
    assert ProposalLegal(env, s, e);
    if e.body.DefinitionProposed? && env.compile(e.body.files).Some? {
      AdditiveExtends(s.view.model, env.compile(e.body.files).value);
    }
  }

  /** In every admissible run, every definition entry fits where it stands. */
  lemma EveryDefinitionFits(env: Env, genesis: Model, calls: seq<TimedCall>, j: nat)
    requires FreshIds(env) && AdmissibleRun(env, Start(genesis), calls)
    requires j < |Run(env, Start(genesis), calls).log|
    ensures var log := Run(env, Start(genesis), calls).log;
      Fits(env, Fold(env.compile, Genesis(genesis), log[..j]), log[..j], log[j])
  {
    StartIsGood(env, genesis);
    RunConforms(env, Start(genesis), calls);
    var t := Run(env, Start(genesis), calls);
    hide Run, AdmissibleRun, Good;
    Replay.LegalHistory(env, genesis, t);
    var s := State(Fold(env.compile, Genesis(genesis), t.log[..j]), t.log[..j]);
    assert Legal(env, s, t.log[j]);
    hide Legal, Fold;
    if t.log[j].body.DefinitionProposed? || t.log[j].body.DefinitionApplied? {
      LegalFits(env, s, t.log[j]);
    }
  }

  lemma InvOrders(env: Env, t: State)
    requires Inv(env, t)
    ensures t.view.defVersion == CountApplied(t.log) + 1 && AppliedOnBase(t)
    ensures forall j, k ::
      (0 <= j < k < |t.log| && t.log[j].body.DefinitionApplied? && t.log[k].body.DefinitionApplied?) ==>
      t.log[j].defVersion < t.log[k].defVersion
  {
    hide Good;
    hide ProposalsAdditive;
    forall j, k | 0 <= j < k < |t.log| && t.log[j].body.DefinitionApplied? && t.log[k].body.DefinitionApplied?
      ensures t.log[j].defVersion < t.log[k].defVersion
    {
      CountGrows(t.log, j, k);
    }
  }

  lemma {:induction false} CountGrows(log: seq<Entry>, j: nat, k: nat)
    requires j < k <= |log| && log[j].body.DefinitionApplied?
    ensures CountApplied(log[..j]) < CountApplied(log[..k])
    decreases k
  {
    assert log[..k][..k - 1] == log[..k - 1];
    if j < k - 1 {
      CountGrows(log, j, k - 1);
    }
  }

  /** What additive growth means for a stored value: the field is still there and still accepts it. */
  lemma GrownAccepts(wf: (string, string) -> bool, m: Model, n: Model, entity: string, f: Field, v: Value)
    requires DistinctModel(m) && Grown(m, n) && entity in m.entities && f in m.entities[entity].fields
    requires !f.ty.MultiEnum? && TypeOk(wf, f.ty, v)
    ensures entity in n.entities && FindField(n.entities[entity].fields, f.name).Some?
    ensures TypeOk(wf, FindField(n.entities[entity].fields, f.name).value.ty, v)
  {
    if m == n {
      AdditiveReflexive(m);
    }
    AcceptedStaysAccepted(wf, f.ty, FindField(n.entities[entity].fields, f.name).value.ty, v);
  }
}
