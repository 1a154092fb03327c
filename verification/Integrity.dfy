/** Integrity of stored data over whole runs: uniqueness, references and singletons. */
module Integrity {
  import opened Values
  import opened Model
  import opened Journal
  import opened Projection
  import opened Environment
  import opened Permissions
  import opened Records
  import opened Steps
  import opened Protocol
  import opened Conformance
  import opened Approvals
  import opened Edges

  /** Whether a field is the one the entity's workflow moves. */
  predicate IsStateField(m: Model, entity: string, name: string) {
    entity in m.workflows && m.workflows[entity].field == name
  }

  /** Two records carry the same non-null value in a unique field. */
  predicate SharesValue(records: map<Rid, Fields>, a: Rid, b: Rid, f: Field)
    requires a in records && b in records
  {
    f.unique && Get(records[a], f.name) != Null && Get(records[a], f.name) == Get(records[b], f.name)
  }

  /** No pair of records of the entity clashes on a unique field or a unique(...) tuple: on any of them
      (whole), or on those the workflow does not move. */
  predicate PairOk(m: Model, records: map<Rid, Fields>, a: Rid, b: Rid, whole: bool)
    requires a in records && b in records && a.entity in m.entities
  {
    var decl := m.entities[a.entity];
    && (forall f <- decl.fields :: whole || !IsStateField(m, a.entity, f.name) ==> !SharesValue(records, a, b, f))
    && (forall names <- decl.constraints ::
          whole || (forall k <- names :: !IsStateField(m, a.entity, k)) ==> !SameTuple(names, records[a], records[b]))
  }

  ghost predicate Unique(m: Model, records: map<Rid, Fields>, whole: bool) {
    forall a, b :: a in records && b in records && a.entity == b.entity && a != b && a.entity in m.entities ==>
      PairOk(m, records, a, b, whole)
  }

  ghost predicate Referenced(m: Model, records: map<Rid, Fields>) {
    forall r :: r in records && r.entity in m.entities ==> RefsExist(records, m.entities[r.entity].fields, records[r])
  }

  ghost predicate Singletons(m: Model, records: map<Rid, Fields>) {
    forall a, b ::
      (a in records && b in records && a.entity == b.entity && a.entity in m.entities && m.entities[a.entity].singleton)
      ==> a == b
  }

  ghost predicate Intact(m: Model, records: map<Rid, Fields>) {
    Unique(m, records, false) && Referenced(m, records) && Singletons(m, records)
  }

  // ---- creation -------------------------------------------------------------------------

  lemma CreationKeepsUnique(m: Model, records: map<Rid, Fields>, rid: Rid, values: Fields, whole: bool)
    requires Unique(m, records, whole) && rid !in records && rid.entity in m.entities
    requires (forall r <- records :: r.id != "") && UniqueOk(records, m.entities[rid.entity], rid.entity, values, "")
    ensures Unique(m, records[rid := values], whole)
  {
    var more := records[rid := values];
    forall a, b | a in more && b in more && a.entity == b.entity && a != b && a.entity in m.entities
      ensures PairOk(m, more, a, b, whole)
    {
      if a in records && b in records {
        assert PairOk(m, records, a, b, whole);
        assert more[a] == records[a] && more[b] == records[b];
      }
    }
  }

  lemma CreationKeepsReferenced(m: Model, records: map<Rid, Fields>, rid: Rid, values: Fields)
    requires Referenced(m, records) && rid.entity in m.entities
      && RefsExist(records, m.entities[rid.entity].fields, values)
    ensures Referenced(m, records[rid := values])
  {
    var more := records[rid := values];
    forall r | r in more && r.entity in m.entities ensures RefsExist(more, m.entities[r.entity].fields, more[r]) {
      assert r != rid ==> RefsExist(records, m.entities[r.entity].fields, records[r]);
    }
  }

  lemma CreationKeepsSingletons(m: Model, records: map<Rid, Fields>, rid: Rid, values: Fields)
    requires Singletons(m, records) && rid.entity in m.entities
    requires m.entities[rid.entity].singleton ==> IdsOf(records, rid.entity) == {}
    ensures Singletons(m, records[rid := values])
  {
    var more := records[rid := values];
    forall a, b | a in more && b in more && a.entity == b.entity && a.entity in m.entities
      && m.entities[a.entity].singleton
      ensures a == b
    {
      assert a in records ==> a.id in IdsOf(records, a.entity);
      assert b in records ==> b.id in IdsOf(records, b.entity);
    }
  }

  lemma CreationKeepsIntact(env: Env, s: State, e: Entry)
    requires Good(env, s) && Intact(s.view.model, s.view.records)
    requires e.body.RecordCreated? && CreationLegal(env, s, e, e.body.values)
    ensures Intact(s.view.model, Apply(env.compile, s.view, e).records)
  {
    var rid := RidOf(e.subject);
    var given :| CreateCheck(env, s.view, e.actor, rid.entity, given, e.ts) == Success(e.body.values);
    CreateSteps(env, s.view, e.actor, rid.entity, given, e.ts);
    hide CreateCheck;
    FreshNotDrawn(env, |s.log|);
    forall r | r in s.view.records ensures r.id != "" {
      assert Drawn(env, r.id, |s.log|);
    }
    hide Intact;
    hide Good;
    assert Unique(s.view.model, s.view.records, false) && Referenced(s.view.model, s.view.records)
      && Singletons(s.view.model, s.view.records) by {
      IntactParts(s.view.model, s.view.records);
    }
    CreationKeepsUnique(s.view.model, s.view.records, rid, e.body.values, false);
    CreationKeepsReferenced(s.view.model, s.view.records, rid, e.body.values);
    CreationKeepsSingletons(s.view.model, s.view.records, rid, e.body.values);
    IntactWhole(s.view.model, s.view.records[rid := e.body.values]);
  }

  lemma IntactParts(m: Model, records: map<Rid, Fields>)
    requires Intact(m, records)
    ensures Unique(m, records, false) && Referenced(m, records) && Singletons(m, records)
  {
  }

  lemma IntactWhole(m: Model, records: map<Rid, Fields>)
    requires Unique(m, records, false) && Referenced(m, records) && Singletons(m, records)
    ensures Intact(m, records)
  {
  }

  // ---- changes to one record ---------------------------------------------------------------

  /** Reading the changed record is reading the given values over the old ones. */
  lemma ChangedReads(record: Fields, given: Fields, name: string)
    ensures Get(ApplyChanges(record, Changes(record, given)), name) == Get(record + given, name)
  {
  }

  lemma ChangeKeepsUnique(m: Model, records: map<Rid, Fields>, rid: Rid, values: Fields, merged: Fields, whole: bool)
    requires Unique(m, records, whole) && rid in records && rid.entity in m.entities
    requires forall k :: Get(values, k) == Get(merged, k)
    requires UniqueOk(records, m.entities[rid.entity], rid.entity, merged, rid.id)
    ensures Unique(m, records[rid := values], whole)
  {
    var more := records[rid := values];
    forall a, b | a in more && b in more && a.entity == b.entity && a != b && a.entity in m.entities
      ensures PairOk(m, more, a, b, whole)
    {
      if a != rid && b != rid {
        assert PairOk(m, records, a, b, whole);
        assert more[a] == records[a] && more[b] == records[b];
      } else {
        ChangedPairOk(m, records, rid, values, merged, a, b, whole);
      }
    }
  }

  lemma ChangedPairOk(m: Model, records: map<Rid, Fields>, rid: Rid, values: Fields, merged: Fields, a: Rid, b: Rid,
                      whole: bool)
    requires rid in records && rid.entity in m.entities && a in records && b in records
    requires a.entity == b.entity == rid.entity && a != b && (a == rid || b == rid)
    requires forall k :: Get(values, k) == Get(merged, k)
    requires UniqueOk(records, m.entities[rid.entity], rid.entity, merged, rid.id)
    ensures PairOk(m, records[rid := values], a, b, whole)
  {
    var more, decl := records[rid := values], m.entities[rid.entity];
    var other := if a == rid then b else a;
    forall f | f in decl.fields ensures !SharesValue(more, a, b, f) {
      assert Get(values, f.name) == Get(merged, f.name);
    }
    forall names | names in decl.constraints ensures !SameTuple(names, more[a], more[b]) {
      assert !SameTuple(names, records[other], merged);
      var k :| k in names && Get(records[other], k) != Get(merged, k);
      assert Get(values, k) == Get(merged, k);
    }
  }

  lemma ChangeKeepsReferenced(m: Model, records: map<Rid, Fields>, rid: Rid, values: Fields, given: Fields)
    requires Referenced(m, records) && rid in records && rid.entity in m.entities
    requires forall k :: Get(values, k) == Get(records[rid] + given, k)
    requires RefsExist(records, m.entities[rid.entity].fields, given)
    ensures Referenced(m, records[rid := values])
  {
    var more := records[rid := values];
    forall r | r in more && r.entity in m.entities ensures RefsExist(more, m.entities[r.entity].fields, more[r]) {
      assert RefsExist(records, m.entities[r.entity].fields, records[r]);
      if r == rid {
        forall f | f in m.entities[r.entity].fields && f.ty.Ref? && !IsCore(f.ty.target) && Get(more[r], f.name) != Null
          ensures Rid(f.ty.target, AsString(Get(more[r], f.name))) in more
        {
          assert Get(values, f.name) == Get(records[rid] + given, f.name);
        }
      }
    }
  }

  lemma UpdateKeepsIntact(env: Env, s: State, e: Entry)
    requires Intact(s.view.model, s.view.records)
    requires e.body.RecordUpdated? && UpdateLegal(env, s, e, e.body.changes)
    ensures Intact(s.view.model, Apply(env.compile, s.view, e).records)
  {
    var rid := RidOf(e.subject);
    var given :| UpdateCheck(env, s.view, e.actor, rid, given, e.ts) == Success(e.body.changes);
    UpdateChanges(env, s.view, e.actor, rid, given, e.ts);
    hide UpdateCheck;
    var m, records := s.view.model, s.view.records;
    var values := ApplyChanges(records[rid], e.body.changes);
    forall k ensures Get(values, k) == Get(records[rid] + given, k) { ChangedReads(records[rid], given, k); }
    IntactParts(m, records);
    hide Intact;
    ChangeKeepsUnique(m, records, rid, values, records[rid] + given, false);
    ChangeKeepsReferenced(m, records, rid, values, given);
    assert records[rid := values].Keys == records.Keys;
    IntactWhole(m, records[rid := values]);
  }

  lemma MoveKeepsIntact(m: Model, records: map<Rid, Fields>, rid: Rid, to: string)
    requires StateFieldsDeclared(m) && Intact(m, records) && rid in records && rid.entity in m.workflows
    ensures Intact(m, records[rid := MoveState(m, rid.entity, records[rid], to)])
  {
    var more := records[rid := MoveState(m, rid.entity, records[rid], to)];
    assert forall r, k :: r in records && !IsStateField(m, r.entity, k) ==> Get(more[r], k) == Get(records[r], k);
    forall a, b | a in more && b in more && a.entity == b.entity && a != b && a.entity in m.entities
      ensures PairOk(m, more, a, b, false)
    {
      assert PairOk(m, records, a, b, false);
      MovePairOk(m, records, more, a, b);
    }
    forall r | r in more && r.entity in m.entities ensures RefsExist(more, m.entities[r.entity].fields, more[r]) {
      assert RefsExist(records, m.entities[r.entity].fields, records[r]);
      forall f | f in m.entities[r.entity].fields && f.ty.Ref? ensures !IsStateField(m, r.entity, f.name) {
        if IsStateField(m, r.entity, f.name) { StateFieldIsEnum(m, r.entity, f); }
      }
    }
  }

  lemma StateFieldIsEnum(m: Model, entity: string, f: Field)
    requires StateFieldsDeclared(m) && entity in m.entities && IsStateField(m, entity, f.name)
      && f in m.entities[entity].fields
    ensures f.ty.Enum?
  {
    var fields := m.entities[entity].fields;
    var h :| h in fields && h.name == f.name && h.ty.Enum?;
    var i :| 0 <= i < |fields| && fields[i] == f;
    var j :| 0 <= j < |fields| && fields[j] == h;
    assert i == j;
  }

  lemma MovePairOk(m: Model, records: map<Rid, Fields>, more: map<Rid, Fields>, a: Rid, b: Rid)
    requires a in records && b in records && a in more && b in more && a.entity == b.entity && a.entity in m.entities
    requires forall r, k :: r in records && r in more && !IsStateField(m, r.entity, k) ==>
      Get(more[r], k) == Get(records[r], k)
    requires PairOk(m, records, a, b, false)
    ensures PairOk(m, more, a, b, false)
  {
    var decl := m.entities[a.entity];
    forall f | f in decl.fields && !IsStateField(m, a.entity, f.name) ensures !SharesValue(more, a, b, f) {
      assert !SharesValue(records, a, b, f);
    }
    forall names | names in decl.constraints && forall k <- names :: !IsStateField(m, a.entity, k)
      ensures !SameTuple(names, more[a], more[b])
    {
      assert !SameTuple(names, records[a], records[b]);
    }
  }

  // ---- the whole run -----------------------------------------------------------------------

  lemma CommitKeepsIntact(env: Env, s: State, e: Entry)
    requires Good(env, s) && Legal(env, s, e) && !e.body.DefinitionApplied?
    requires StateFieldsDeclared(s.view.model) && Intact(s.view.model, s.view.records)
    ensures Commit(env, s, e).view.model == s.view.model
    ensures Intact(s.view.model, Commit(env, s, e).view.records)
  {
    if e.body.RecordCreated? {
      assert CreationLegal(env, s, e, e.body.values);
      hide Legal;
      CreationKeepsIntact(env, s, e);
    } else if e.body.RecordUpdated? {
      assert UpdateLegal(env, s, e, e.body.changes);
      hide Legal;
      UpdateKeepsIntact(env, s, e);
    } else if e.body.RecordAction? {
      assert ActionLegal(env, s, e);
      hide Legal;
      hide Intact;
      MoveKeepsIntact(s.view.model, s.view.records, RidOf(e.subject), e.body.to);
    } else {
      hide Legal;
    }
  }

  lemma {:induction false} IntactHolds(env: Env, m: Model, s: State, es: seq<Entry>)
    requires Good(env, s) && StateFieldsDeclared(m) && s.view.model == m && Intact(m, s.view.records)
    requires LegalRun(env, s, es) && FixedDefinition(es)
    ensures Intact(m, CommitAll(env, s, es).view.records)
    decreases |es|
  {
    if es != [] {
      CommitKeepsGood(env, s, es[0]);
      CommitKeepsIntact(env, s, es[0]);
      hide Legal;
      hide Good;
      hide Intact;
      IntactHolds(env, m, Commit(env, s, es[0]), es[1..]);
    }
  }

  /** In every admissible run under one definition, the stored data stays intact. */
  lemma StoredDataIntact(env: Env, m: Model, calls: seq<TimedCall>)
    requires FreshIds(env) && StateFieldsDeclared(m) && AdmissibleRun(env, Start(m), calls)
    requires FixedDefinition(Run(env, Start(m), calls).log)
    ensures Intact(m, Run(env, Start(m), calls).view.records)
  {
    var t := Run(env, Start(m), calls);
    var es := RunEntries(env, m, calls);
    assert Intact(m, Start(m).view.records);
    hide Run, Intact, LegalRun, AdmissibleRun, Good, FreshIds, CommitAll, StateFieldsDeclared;
    IntactHolds(env, m, Start(m), es);
  }

  // ---- values and tuples the workflow moves ------------------------------------------------

  /** Another record already carries what the move would give this one: the target state in a unique state
      field, or the same tuple but for the state, which is the target there. */
  ghost predicate WouldClash(m: Model, records: map<Rid, Fields>, rid: Rid, to: string)
    requires rid in records && rid.entity in m.workflows && rid.entity in m.entities
  {
    var decl, field := m.entities[rid.entity], m.workflows[rid.entity].field;
    exists b :: b in records && b.entity == rid.entity && b != rid && Get(records[b], field) == Str(to) &&
      (|| (exists f <- decl.fields :: f.unique && f.name == field)
       || (exists names <- decl.constraints :: field in names && SameButFor(field, names, records[rid], records[b])))
  }

  predicate SameButFor(field: string, names: seq<string>, a: Fields, b: Fields) {
    forall k <- names :: k != field ==> Get(a, k) == Get(b, k)
  }

  /** A transition keeps every unique value and tuple, those with the state field included, exactly when no
      other record would clash; no write path checks it. */
  lemma MoveKeepsUniqueIff(m: Model, records: map<Rid, Fields>, rid: Rid, to: string)
    requires Unique(m, records, true) && rid in records && rid.entity in m.workflows && rid.entity in m.entities
    ensures Unique(m, records[rid := MoveState(m, rid.entity, records[rid], to)], true) <==>
      !WouldClash(m, records, rid, to)
  {
    var more := records[rid := MoveState(m, rid.entity, records[rid], to)];
    var decl, field := m.entities[rid.entity], m.workflows[rid.entity].field;
    assert forall r, k :: r in records && (r != rid || k != field) ==> Get(more[r], k) == Get(records[r], k);
    if WouldClash(m, records, rid, to) {
      var b :| b in records && b.entity == rid.entity && b != rid && Get(records[b], field) == Str(to) &&
        (|| (exists f <- decl.fields :: f.unique && f.name == field)
         || (exists names <- decl.constraints :: field in names && SameButFor(field, names, records[rid], records[b])));
      if f :| f in decl.fields && f.unique && f.name == field {
        assert SharesValue(more, rid, b, f);
      } else {
        var names :| names in decl.constraints && field in names && SameButFor(field, names, records[rid], records[b]);
        assert SameTuple(names, more[rid], more[b]);
      }
      assert !PairOk(m, more, rid, b, true);
    } else {
      forall a, b | a in more && b in more && a.entity == b.entity && a != b && a.entity in m.entities
        ensures PairOk(m, more, a, b, true)
      {
        assert PairOk(m, records, a, b, true) && PairOk(m, records, b, a, true);
        if a == rid {
          MovedPairOk(m, records, rid, to, b);
        } else if b == rid {
          MovedPairOk(m, records, rid, to, a);
        }
      }
    }
  }

  lemma MovedPairOk(m: Model, records: map<Rid, Fields>, rid: Rid, to: string, b: Rid)
    requires rid in records && rid.entity in m.workflows && rid.entity in m.entities && !WouldClash(m, records, rid, to)
    requires b in records && b.entity == rid.entity && b != rid
    requires PairOk(m, records, rid, b, true) && PairOk(m, records, b, rid, true)
    ensures var more := records[rid := MoveState(m, rid.entity, records[rid], to)];
      PairOk(m, more, rid, b, true) && PairOk(m, more, b, rid, true)
  {
    var more := records[rid := MoveState(m, rid.entity, records[rid], to)];
    var decl, field := m.entities[rid.entity], m.workflows[rid.entity].field;
    forall f | f in decl.fields ensures !SharesValue(more, rid, b, f) && !SharesValue(more, b, rid, f) {
      assert !SharesValue(records, rid, b, f) && !SharesValue(records, b, rid, f);
    }
    forall names | names in decl.constraints ensures !SameTuple(names, more[rid], more[b]) {
      assert !SameTuple(names, records[rid], records[b]);
      var k :| k in names && Get(records[rid], k) != Get(records[b], k);
      if field in names && SameButFor(field, names, records[rid], records[b]) {
        assert Get(records[b], field) != Str(to);
        assert Get(more[rid], field) != Get(more[b], field);
      } else if field in names {
        var h :| h in names && h != field && Get(records[rid], h) != Get(records[b], h);
        assert Get(more[rid], h) != Get(more[b], h);
      }
    }
  }

  /** A commit keeps all unique values and tuples, unless it is a move that would clash. */
  lemma CommitKeepsUniqueIff(env: Env, s: State, e: Entry)
    requires Good(env, s) && Legal(env, s, e) && !e.body.DefinitionApplied?
    requires StateFieldsDeclared(s.view.model) && Unique(s.view.model, s.view.records, true)
    ensures Commit(env, s, e).view.model == s.view.model
    ensures e.body.RecordAction? ==>
      RidOf(e.subject) in s.view.records && RidOf(e.subject).entity in s.view.model.workflows
    ensures Unique(s.view.model, Commit(env, s, e).view.records, true) <==>
      !(e.body.RecordAction? && WouldClash(s.view.model, s.view.records, RidOf(e.subject), e.body.to))
  {
    if e.body.RecordCreated? {
      assert CreationLegal(env, s, e, e.body.values);
      hide Legal;
      CreationKeepsWhole(env, s, e);
    } else if e.body.RecordUpdated? {
      assert UpdateLegal(env, s, e, e.body.changes);
      hide Legal;
      UpdateKeepsWhole(env, s, e);
    } else if e.body.RecordAction? {
      assert ActionLegal(env, s, e);
      hide Legal;
      MoveKeepsUniqueIff(s.view.model, s.view.records, RidOf(e.subject), e.body.to);
    } else {
      hide Legal;
    }
  }

  lemma CreationKeepsWhole(env: Env, s: State, e: Entry)
    requires Good(env, s) && Unique(s.view.model, s.view.records, true)
    requires e.body.RecordCreated? && CreationLegal(env, s, e, e.body.values)
    ensures Unique(s.view.model, Apply(env.compile, s.view, e).records, true)
  {
    var rid := RidOf(e.subject);
    var given :| CreateCheck(env, s.view, e.actor, rid.entity, given, e.ts) == Success(e.body.values);
    CreateSteps(env, s.view, e.actor, rid.entity, given, e.ts);
    hide CreateCheck, Unique;
    FreshNotDrawn(env, |s.log|);
    forall r | r in s.view.records ensures r.id != "" {
      assert Drawn(env, r.id, |s.log|);
    }
    CreationKeepsUnique(s.view.model, s.view.records, rid, e.body.values, true);
  }

  lemma UpdateKeepsWhole(env: Env, s: State, e: Entry)
    requires Unique(s.view.model, s.view.records, true)
    requires e.body.RecordUpdated? && UpdateLegal(env, s, e, e.body.changes)
    ensures Unique(s.view.model, Apply(env.compile, s.view, e).records, true)
  {
    var rid := RidOf(e.subject);
    var given :| UpdateCheck(env, s.view, e.actor, rid, given, e.ts) == Success(e.body.changes);
    UpdateChanges(env, s.view, e.actor, rid, given, e.ts);
    hide UpdateCheck, Unique;
    var m, records := s.view.model, s.view.records;
    var values := ApplyChanges(records[rid], e.body.changes);
    forall k ensures Get(values, k) == Get(records[rid] + given, k) { ChangedReads(records[rid], given, k); }
    ChangeKeepsUnique(m, records, rid, values, records[rid] + given, true);
  }

  /** No move of the journal clashed with a record of the state it was made in. */
  ghost predicate MovesClear(env: Env, s: State, es: seq<Entry>)
    decreases |es|
  {
    es != [] ==>
      && (IsMove(s, es[0]) ==> !WouldClash(s.view.model, s.view.records, RidOf(es[0].subject), es[0].body.to))
      && MovesClear(env, Commit(env, s, es[0]), es[1..])
  }

  predicate IsMove(s: State, e: Entry) {
    && e.body.RecordAction? && RidOf(e.subject) in s.view.records
    && RidOf(e.subject).entity in s.view.model.workflows && RidOf(e.subject).entity in s.view.model.entities
  }

  /** Every state along the journal has all unique values and tuples, the state field's included. */
  ghost predicate AlwaysUnique(env: Env, s: State, es: seq<Entry>)
    decreases |es|
  {
    && Unique(s.view.model, s.view.records, true)
    && (es != [] ==> AlwaysUnique(env, Commit(env, s, es[0]), es[1..]))
  }

  lemma {:induction false} UniqueIffClear(env: Env, m: Model, s: State, es: seq<Entry>)
    requires Good(env, s) && StateFieldsDeclared(m) && s.view.model == m && Unique(m, s.view.records, true)
    requires LegalRun(env, s, es) && FixedDefinition(es)
    ensures AlwaysUnique(env, s, es) <==> MovesClear(env, s, es)
    decreases |es|
  {
    if es != [] {
      CommitKeepsGood(env, s, es[0]);
      CommitKeepsUniqueIff(env, s, es[0]);
      hide Legal, Good, Unique, WouldClash, Commit;
      if Unique(m, Commit(env, s, es[0]).view.records, true) {
        UniqueIffClear(env, m, Commit(env, s, es[0]), es[1..]);
      }
    }
  }

  /** So over every admissible run under one definition: unique values and tuples that contain the state field
      hold throughout exactly when no transition moved a record onto another's value or tuple. */
  lemma StateTuplesUniqueIff(env: Env, m: Model, calls: seq<TimedCall>)
    requires FreshIds(env) && StateFieldsDeclared(m) && AdmissibleRun(env, Start(m), calls)
    requires FixedDefinition(Run(env, Start(m), calls).log)
    ensures var log := Run(env, Start(m), calls).log;
      AlwaysUnique(env, Start(m), log) <==> MovesClear(env, Start(m), log)
  {
    var es := RunEntries(env, m, calls);
    assert Unique(m, Start(m).view.records, true);
    hide Run, Unique, LegalRun, AdmissibleRun, Good, FreshIds, CommitAll, StateFieldsDeclared;
    UniqueIffClear(env, m, Start(m), es);
  }

  // ---- a run that breaks them --------------------------------------------------------------

  /** Doors carry a code; no two are open at once, and no two share code and state. */
  function DoorModel(role: string): Model {
    var fields := [Field("code", Scalar("string"), false, false, "", "", ""),
      Field("state", Enum(["open"]), false, true, "", "", "")];
    var all := [PermItem("", "", "", true, [], "")];
    Model(map["Door" := Entity("Door", false, fields, [["code", "state"]])],
          map[role := [PermRule("create", all), PermRule("act", all)]],
          map["Door" := Workflow("state", [Transition("any", "open", "open", false, "", "", "")])], [], [])
  }

  /** Two doors with one code, each opened after it is made. */
  function TwoDoors(env: Env, actor: Actor, basis: Basis): seq<TimedCall> {
    var make := CreateCall(actor, "Door", map["code" := Str("A")], Some(basis), "");
    [TimedCall(make, 0), TimedCall(ActCall(actor, Rid("Door", env.ids(0)), "open", Some(basis), ""), 0),
     TimedCall(make, 0), TimedCall(ActCall(actor, Rid("Door", env.ids(2)), "open", Some(basis), ""), 0)]
  }

  const OPEN_DOOR: Fields := map["code" := Str("A"), "state" := Str("open")]

  lemma DoorSettles(env: Env, s: State, role: string, rid: Rid)
    requires s.view.model == DoorModel(role) && rid in s.view.records
    ensures Settle(env, s, rid, 0) == s && After(env, s, "create", rid, 0) == s
  {
    if rid.entity == "Door" {
      var transitions := s.view.model.workflows["Door"].transitions;
      assert transitions[1..] == [];
      assert NextAuto(env, s.view, rid, transitions, 0).None?;
      assert AutoRun(env, s, rid, transitions, 0, MAX_HOPS) == s;
      assert EnsureTasks(env, s, rid, transitions[1..], StateOf(s.view, rid), SinceOf(s.view, rid), 0) == s;
    }
  }

  lemma DoorIsMade(env: Env, s: State, actor: Actor, basis: Basis)
    requires FreshIds(env) && s.view.model == DoorModel(actor.role) && actor.id != ""
    requires forall r <- s.view.records :: Drawn(env, r.id, |s.log|) && s.view.records[r] == OPEN_DOOR
    ensures var t := Create(env, s, actor, "Door", map["code" := Str("A")], Some(basis), NoKey, 0).state;
      && t.view.model == s.view.model && |t.log| == |s.log| + 1
      && t.view.records == s.view.records[Rid("Door", env.ids(|s.log|)) := map["code" := Str("A")]]
  {
    var values: Fields := map["code" := Str("A")];
    var rid := Rid("Door", env.ids(|s.log|));
    FreshNotDrawn(env, |s.log|);
    assert rid !in s.view.records;
    DoorPasses(env, s.view, actor);
    var t := CommitCreation(env, s, CreatedEntry(s, actor, rid, values, Some(basis), NoKey, 0));
    DoorSettles(env, t, actor.role, rid);
  }

  lemma DoorPasses(env: Env, v: View, actor: Actor)
    requires v.model == DoorModel(actor.role)
    requires forall r <- v.records :: v.records[r] == OPEN_DOOR
    ensures CreateCheck(env, v, actor, "Door", map["code" := Str("A")], 0) == Success(map["code" := Str("A")])
  {
    hide Can, GivenOk, RequiredPresent, RefsExist, UniqueCheck, WithDefaults, AssignSerials, DoorModel, IdsOf;
    DoorShape(actor.role);
    DoorAllowed(env, v, actor, "");
    DoorAllowed(env, v, actor, "code");
    DoorFilled(env, v, actor);
    DoorUnclashed(v.records, v.model.entities["Door"]);
  }

  lemma DoorShape(role: string)
    ensures var m := DoorModel(role);
      && "Door" in m.entities && "Door" in m.workflows && m.workflows["Door"].field == "state"
      && var decl := m.entities["Door"];
         && !decl.singleton && decl.constraints == [["code", "state"]] && |decl.fields| == 2
         && !decl.fields[0].unique && decl.fields[1].name == "state"
  {
  }

  lemma DoorAllowed(env: Env, v: View, actor: Actor, field: string)
    requires v.model == DoorModel(actor.role)
    ensures Can(env, v, actor, "create", "Door", field, None, 0)
  {
    var rules := v.model.perms[actor.role];
    assert rules[0].items[0] in rules[0].items && rules[0] in rules;
  }

  lemma DoorFilled(env: Env, v: View, actor: Actor)
    requires v.model == DoorModel(actor.role)
    ensures var fields, values: Fields := v.model.entities["Door"].fields, map["code" := Str("A")];
      && AssignSerials(env, v, "Door", fields, values, 0) == values
        && WithDefaults(env, v, fields, values, actor.id, 0) == values
      && GivenOk(env, fields, values) && RequiredPresent(fields, values) && RefsExist(v.records, fields, values)
  {
    var fields, values: Fields := v.model.entities["Door"].fields, map["code" := Str("A")];
    assert fields[1..] == [fields[1]] && [fields[1]][1..] == [];
    assert AssignSerials(env, v, "Door", [fields[1]], values, 0) == values;
    assert WithDefaults(env, v, [fields[1]], values, actor.id, 0) == values;
  }

  lemma DoorUnclashed(records: map<Rid, Fields>, decl: Entity)
    requires decl.constraints == [["code", "state"]]
    requires |decl.fields| == 2 && !decl.fields[0].unique && decl.fields[1].name == "state"
    requires forall r <- records :: records[r] == OPEN_DOOR
    ensures UniqueCheck(records, decl, "Door", map["code" := Str("A")], "").None?
  {
    var values: Fields := map["code" := Str("A")];
    var names := ["code", "state"];
    assert names[1..] == ["state"] && names[1] in names && names[1..][1..] == [];
    assert Get(values, "state") == Null && Get(OPEN_DOOR, "state") == Str("open");
    assert !TuplePanics(names[1..], OPEN_DOOR, values);
    assert !TuplePanics(names, OPEN_DOOR, values) && !SameTuple(names, OPEN_DOOR, values);
  }

  lemma DoorIsOpened(env: Env, s: State, actor: Actor, id: string, basis: Basis)
    requires s.view.model == DoorModel(actor.role) && actor.id != ""
    requires Rid("Door", id) in s.view.records && s.view.records[Rid("Door", id)] == map["code" := Str("A")]
    ensures var t := Act(env, s, actor, Rid("Door", id), "open", Some(basis), NoKey, 0).state;
      && t.view.model == s.view.model && |t.log| == |s.log| + 1
      && t.view.records == s.view.records[Rid("Door", id) := OPEN_DOOR]
  {
    var rid, rules := Rid("Door", id), s.view.model.perms[actor.role];
    var tr := s.view.model.workflows["Door"].transitions[0];
    assert rules[1] in rules && rules[1].items[0] in rules[1].items;
    assert ActCheck(env, s.view, actor, rid, "open", 0) == Success(tr);
    var t := CommitTransition(env, s, actor, rid, tr, StateOf(s.view, rid), Some(basis), NoKey, 0);
    DoorSettles(env, t, actor.role, rid);
  }

  /** A reachable failure: both doors end up open under one code, although the state is declared unique and so
      are code and state together. */
  lemma MovesBreakUniqueness(env: Env, actor: Actor, basis: Basis)
    requires FreshIds(env) && actor.id != ""
    ensures var m, calls := DoorModel(actor.role), TwoDoors(env, actor, basis);
      && StateFieldsDeclared(m) && AdmissibleRun(env, Start(m), calls)
      && var records := Run(env, Start(m), calls).view.records;
         var a, b := Rid("Door", env.ids(0)), Rid("Door", env.ids(2));
         && a in records && b in records && a != b
         && SharesValue(records, a, b, m.entities["Door"].fields[1])
         && SameTuple(m.entities["Door"].constraints[0], records[a], records[b])
  {
    hide Run, Start, TwoDoors, DoorModel, StateFieldsDeclared, AdmissibleRun;
    DoorsAreDeclared(actor.role);
    DoorsAreAdmissible(env, actor, basis);
    assert SameTuple(["code", "state"], OPEN_DOOR, OPEN_DOOR);
    OpenDoors(env, actor, basis);
  }

  lemma DoorsAreAdmissible(env: Env, actor: Actor, basis: Basis)
    ensures AdmissibleRun(env, Start(DoorModel(actor.role)), TwoDoors(env, actor, basis))
  {
    hide Run, Start, DoorModel;
    assert KeyOf("") == NoKey;
  }

  lemma DoorsAreDeclared(role: string)
    ensures StateFieldsDeclared(DoorModel(role))
    ensures "Door" in DoorModel(role).entities
    ensures var decl := DoorModel(role).entities["Door"];
      && |decl.fields| == 2 && decl.fields[1].unique && decl.fields[1].name == "state"
      && |decl.constraints| == 1 && decl.constraints[0] == ["code", "state"]
  {
    var fields := DoorModel(role).entities["Door"].fields;
    assert fields[1] in fields && fields[1].name == "state" && fields[0].name != "state";
  }

  lemma OpenDoors(env: Env, actor: Actor, basis: Basis)
    requires FreshIds(env) && actor.id != ""
    ensures var records := Run(env, Start(DoorModel(actor.role)), TwoDoors(env, actor, basis)).view.records;
      records == map[Rid("Door", env.ids(0)) := OPEN_DOOR, Rid("Door", env.ids(2)) := OPEN_DOOR]
  {
    var m, calls := DoorModel(actor.role), TwoDoors(env, actor, basis);
    var s := Start(m);
    assert calls[..0] == [] && calls[..4] == calls;
    RunNext(env, s, calls, 0);
    RunNext(env, s, calls, 1);
    RunNext(env, s, calls, 2);
    RunNext(env, s, calls, 3);
    assert Run(env, s, calls[..0]) == s;
    var u := Run(env, s, calls[..2]);
    hide Run, DoorModel, Step, FreshIds, AllOpen;
    assert AllOpen(env, s) by { StartAllOpen(env, m); }
    MakeAndOpen(env, s, actor, basis);
    assert u.view.records == map[Rid("Door", env.ids(0)) := OPEN_DOOR];
    MakeAndOpen(env, u, actor, basis);
  }

  /** Every record so far is an open door with code A. */
  ghost predicate AllOpen(env: Env, s: State) {
    forall r <- s.view.records :: Drawn(env, r.id, |s.log|) && s.view.records[r] == OPEN_DOOR
  }

  lemma StartAllOpen(env: Env, m: Model)
    ensures AllOpen(env, Start(m))
  {
  }

  lemma MakeAndOpen(env: Env, s: State, actor: Actor, basis: Basis)
    requires FreshIds(env) && s.view.model == DoorModel(actor.role) && actor.id != "" && AllOpen(env, s)
    ensures var t := Step(env, s, CreateCall(actor, "Door", map["code" := Str("A")], Some(basis), ""), 0).state;
      var u := Step(env, t, ActCall(actor, Rid("Door", env.ids(|s.log|)), "open", Some(basis), ""), 0).state;
      && u.view.model == s.view.model && |u.log| == |s.log| + 2 && AllOpen(env, u)
      && u.view.records == s.view.records[Rid("Door", env.ids(|s.log|)) := OPEN_DOOR]
  {
    hide Step, DoorModel, FreshIds, Drawn, AllOpen;
    AllOpenMeans(env, s);
    MakeStep(env, s, actor, basis);
    var t := Step(env, s, CreateCall(actor, "Door", map["code" := Str("A")], Some(basis), ""), 0).state;
    var id := env.ids(|s.log|);
    OpenStep(env, t, actor, id, basis);
    var u := Step(env, t, ActCall(actor, Rid("Door", id), "open", Some(basis), ""), 0).state;
    assert u.view.records == s.view.records[Rid("Door", id) := OPEN_DOOR];
    OneMoreOpen(env, s, u, id);
  }

  lemma AllOpenMeans(env: Env, s: State)
    requires AllOpen(env, s)
    ensures forall r <- s.view.records :: Drawn(env, r.id, |s.log|) && s.view.records[r] == OPEN_DOOR
  {
    hide Drawn;
  }

  lemma OneMoreOpen(env: Env, s: State, u: State, id: string)
    requires FreshIds(env) && AllOpen(env, s) && id == env.ids(|s.log|) && |u.log| == |s.log| + 2
    requires u.view.records == s.view.records[Rid("Door", id) := OPEN_DOOR]
    ensures AllOpen(env, u)
  {
    FreshNotDrawn(env, |s.log|);
    hide FreshIds, Drawn;
    DrawnLater(env, id, |s.log| + 1);
    forall r | r in u.view.records ensures Drawn(env, r.id, |u.log|) && u.view.records[r] == OPEN_DOOR {
      if r in s.view.records {
        DrawnLater(env, r.id, |s.log|);
        DrawnLater(env, r.id, |s.log| + 1);
      }
    }
  }

  lemma RunNext(env: Env, s: State, calls: seq<TimedCall>, k: nat)
    requires k < |calls|
    ensures Run(env, s, calls[..k + 1]) == Step(env, Run(env, s, calls[..k]), calls[k].call, calls[k].now).state
  {
    hide Step;
    assert calls[..k + 1][..k] == calls[..k];
  }

  lemma MakeStep(env: Env, s: State, actor: Actor, basis: Basis)
    requires FreshIds(env) && s.view.model == DoorModel(actor.role) && actor.id != ""
    requires forall r <- s.view.records :: Drawn(env, r.id, |s.log|) && s.view.records[r] == OPEN_DOOR
    ensures var t := Step(env, s, CreateCall(actor, "Door", map["code" := Str("A")], Some(basis), ""), 0).state;
      && t.view.model == s.view.model && |t.log| == |s.log| + 1
      && t.view.records == s.view.records[Rid("Door", env.ids(|s.log|)) := map["code" := Str("A")]]
  {
    hide Create;
    DoorIsMade(env, s, actor, basis);
  }

  lemma OpenStep(env: Env, s: State, actor: Actor, id: string, basis: Basis)
    requires s.view.model == DoorModel(actor.role) && actor.id != ""
    requires Rid("Door", id) in s.view.records && s.view.records[Rid("Door", id)] == map["code" := Str("A")]
    ensures var t := Step(env, s, ActCall(actor, Rid("Door", id), "open", Some(basis), ""), 0).state;
      && t.view.model == s.view.model && |t.log| == |s.log| + 1
      && t.view.records == s.view.records[Rid("Door", id) := OPEN_DOOR]
  {
    hide Act;
    DoorIsOpened(env, s, actor, id, basis);
  }
}
