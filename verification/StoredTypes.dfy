/** What values records hold: each stored value belongs to its field's type, or a default or a move put it there. */
module StoredTypes {
  import opened Values
  import opened Model
  import opened Journal
  import opened Projection
  import opened Environment
  import opened Records
  import opened Steps
  import opened Protocol
  import opened Conformance
  import opened Replay
  import Edges
  import Permissions
  import Serial

  // ---- what each type means ----------------------------------------------------------

  /** A number, or an object whose amount stands for one. */
  ghost predicate Amounts(x: Value, n: real)
    decreases x
  {
    x == Num(n) || (x.Obj? && "amount" in x.fields && Amounts(x.fields["amount"], n))
  }

  ghost predicate Whole(x: Value, n: int) {
    x == Num(n as real)
  }

  ghost predicate OneOf(x: Value, options: seq<string>, i: nat) {
    i < |options| && x == Str(options[i])
  }

  ghost predicate IsOption(x: Value, options: seq<string>) {
    exists i :: OneOf(x, options, i)
  }

  ghost predicate IsFile(x: Value) {
    x.Obj? && "hash" in x.fields && x.fields["hash"].Str? && x.fields["hash"] != Str("")
  }

  /** An amount, and a currency of three capital letters if it names one. */
  ghost predicate IsMoney(x: Value) {
    && x.Obj? && "amount" in x.fields && (exists n :: Amounts(x.fields["amount"], n))
    && ("currency" in x.fields && x.fields["currency"].Str? ==>
          var code := x.fields["currency"].s;
          code == "" || (|code| == 3 && forall i :: 0 <= i < 3 ==> 'A' <= code[i] <= 'Z'))
  }

  ghost predicate BelongsToScalar(env: Env, scalar: string, x: Value) {
    && (scalar in {"string", "text", "serial"} ==> x.Str?)
    && (scalar == "bool" ==> x == Bool(true) || x == Bool(false))
    && (scalar == "int" ==> exists n :: Whole(x, n))
    && (scalar == "float" ==> x.Num?)
    && (scalar == "money" ==> x.Num? || IsMoney(x))
    && (scalar == "decimal" ==> exists n :: Amounts(x, n))
    && (scalar == "percent" ==> exists n :: Amounts(x, n) && 0.0 <= n <= 100.0)
    && (scalar in {"date", "datetime", "email", "url", "phone", "color", "duration"} ==>
          x.Str? && env.wellFormatted(scalar, x.s))
    && (scalar == "duration" ==> x != Str(""))
    && (scalar == "file" ==> IsFile(x))
  }

  ghost predicate Belongs(env: Env, ty: FieldType, x: Value) {
    match ty
    case Scalar(scalar) => BelongsToScalar(env, scalar, x)
    case Enum(options) => IsOption(x, options)
    case Ref(_) => x.Str?
    case ArrayRef(_) => x.List? && forall i :: 0 <= i < |x.items| ==> x.items[i].Str?
    case Tags => x.List? && forall i :: 0 <= i < |x.items| ==> x.items[i].Str?
    case MultiEnum(options) => x.List? && forall i :: 0 <= i < |x.items| ==> IsOption(x.items[i], options)
    case ArrayFile => x.List? && forall i :: 0 <= i < |x.items| ==> IsFile(x.items[i])
  }

  lemma {:induction false} AmountsIs(x: Value)
    ensures ToNumber(x).Some? ==> Amounts(x, ToNumber(x).value)
    ensures forall n :: Amounts(x, n) ==> ToNumber(x) == Some(n)
    decreases x
  {
    if x.Obj? && "amount" in x.fields {
      AmountsIs(x.fields["amount"]);
    }
  }

  lemma OneOfIs(x: Value, options: seq<string>)
    ensures IsOption(x, options) <==> x.Str? && x.s in options
  {
    if x.Str? && x.s in options {
      var i :| 0 <= i < |options| && options[i] == x.s;
      assert OneOf(x, options, i);
    }
  }

  lemma ScalarIs(env: Env, scalar: string, x: Value)
    ensures ScalarOk(env.wellFormatted, scalar, x) <==> BelongsToScalar(env, scalar, x)
  {
    AmountsIs(x);
    if scalar == "int" && x.Num? && x.n == x.n.Floor as real {
      assert Whole(x, x.n.Floor);
    }
    if scalar == "money" && x.Obj? {
      MoneyIs(env, x);
    }
  }

  lemma MoneyIs(env: Env, x: Value)
    requires x.Obj?
    ensures ScalarOk(env.wellFormatted, "money", x) <==> IsMoney(x)
  {
    if "amount" in x.fields {
      AmountsIs(x.fields["amount"]);
    }
    if "currency" in x.fields && x.fields["currency"].Str? {
      var code := x.fields["currency"].s;
      assert |code| == 3 ==> forall i :: 0 <= i < 3 ==> code[i] in code;
    }
  }

  lemma ItemsAreOptions(items: seq<Value>, options: seq<string>)
    ensures (forall x <- items :: x.Str? && x.s in options) <==>
      forall i :: 0 <= i < |items| ==> IsOption(items[i], options)
  {
    hide IsOption;
    forall x ensures IsOption(x, options) <==> x.Str? && x.s in options {
      OneOfIs(x, options);
    }
    assert forall i :: 0 <= i < |items| ==> items[i] in items;
  }

  lemma TypeIs(env: Env, ty: FieldType, x: Value)
    ensures TypeOk(env.wellFormatted, ty, x) <==> Belongs(env, ty, x)
  {
    hide ScalarOk, BelongsToScalar, IsOption, HasHash, IsFile;
    match ty
    case Scalar(scalar) => ScalarIs(env, scalar, x);
    case Enum(options) => OneOfIs(x, options);
    case MultiEnum(options) =>
      if x.List? {
        ItemsAreOptions(x.items, options);
      }
    case ArrayFile =>
      if x.List? {
        FilesAre(x.items);
      }
    case _ =>
  }

  lemma FilesAre(items: seq<Value>)
    ensures (forall x <- items :: HasHash(x)) <==> forall i :: 0 <= i < |items| ==> IsFile(items[i])
  {
    forall x ensures HasHash(x) <==> IsFile(x) {
    }
    hide HasHash, IsFile;
    assert forall i :: 0 <= i < |items| ==> items[i] in items;
  }

  // ---- what a write lets through ------------------------------------------------------------

  /** A declared field that is not computed takes the value: null, or one of its type. */
  ghost predicate Takes(env: Env, fields: seq<Field>, name: string, x: Value) {
    exists f <- fields :: f.name == name && f.computed == "" && (x == Null || Belongs(env, f.ty, x))
  }

  /** The value is what the field's default gave at some time. */
  ghost predicate Defaulted(env: Env, fields: seq<Field>, name: string, x: Value) {
    exists f, records, seen, actorId, now :: f in fields && f.name == name && GivesDefault(env, f, records, seen,
      actorId, now, x)
  }

  predicate GivesDefault(env: Env, f: Field, records: map<Rid, Fields>, seen: Fields, actorId: string, now: int,
                         x: Value)
  {
    f.default != "" && f.computed == "" && env.defaultValue(f.default, records, seen, actorId, now) == Some(x)
  }

  lemma GivenTakes(env: Env, fields: seq<Field>, values: Fields)
    requires GivenOk(env, fields, values)
    ensures forall k <- values :: Takes(env, fields, k, values[k])
  {
    hide TypeOk, Belongs;
    forall k | k in values ensures Takes(env, fields, k, values[k]) {
      var f := FindField(fields, k).value;
      TypeIs(env, f.ty, values[k]);
      assert f in fields && f.name == k;
    }
  }

  /** Defaults keep what was given, and add only what a default gives. */
  lemma {:induction false} DefaultsAdd(env: Env, v: View, fields: seq<Field>, values: Fields, actorId: string, now: int)
    ensures forall k <- WithDefaults(env, v, fields, values, actorId, now) :: k !in values ==>
      Defaulted(env, fields, k, WithDefaults(env, v, fields, values, actorId, now)[k])
    decreases |fields|
  {
    if fields != [] {
      var f := fields[0];
      var d := env.defaultValue(f.default, v.records, values, actorId, now);
      var filled := if f.name in values || f.default == "" || f.computed != "" || d.None? then values
        else values[f.name := d.value];
      DefaultsAdd(env, v, fields[1..], filled, actorId, now);
      var out := WithDefaults(env, v, fields[1..], filled, actorId, now);
      forall k | k in out && k !in values ensures Defaulted(env, fields, k, out[k]) {
        if k in filled {
          assert GivesDefault(env, f, v.records, values, actorId, now, out[k]);
        } else {
          assert Defaulted(env, fields[1..], k, out[k]);
        }
      }
    }
  }

  /** The fields a serial field's number was put into. */
  lemma {:induction false} SerialsAdd(env: Env, v: View, entity: string, fields: seq<Field>, values: Fields, now: int)
    ensures forall k <- AssignSerials(env, v, entity, fields, values, now) ::
      (k in values && AssignSerials(env, v, entity, fields, values, now)[k] == values[k])
      || exists f <- fields :: f.name == k && f.ty == Scalar("serial")
    ensures values.Keys <= AssignSerials(env, v, entity, fields, values, now).Keys
    decreases |fields|
  {
    if fields != [] {
      var f := fields[0];
      var filled := if f.ty == Scalar("serial") && Get(values, f.name) in {Null, Str("")}
        then values[f.name :=
          Str(Serial.FormatSerial(f.format, Serial.NextSeq(Column(v, entity, f.name), f.format), env.year(now)))]
        else values;
      SerialsAdd(env, v, entity, fields[1..], filled, now);
      var out := AssignSerials(env, v, entity, fields[1..], filled, now);
      forall k | k in out ensures (k in values && out[k] == values[k])
                                  || exists f <- fields :: f.name == k && f.ty == Scalar("serial") {
        if k in filled && out[k] == filled[k] {
          assert (k in values && out[k] == values[k]) || (f in fields && f.name == k);
        } else {
          var g :| g in fields[1..] && g.name == k && g.ty == Scalar("serial");
          assert g in fields;
        }
      }
    }
  }

  /** Comparing two lists or two objects stops the program it is compared in. */
  predicate BothCompound(x: Value, y: Value) {
    (x.List? && y.List?) || (x.Obj? && y.Obj?)
  }

  /** What a creation stores: every value belongs to its field or is its default; what was given is stored as
      given, serial numbers aside; every required field has a value; and unique values can be compared. */
  ghost predicate CreatedWell(env: Env, v: View, entity: string, given: Fields, values: Fields) {
    && entity in v.model.entities
    && var fields := v.model.entities[entity].fields;
       && (forall k <- values ::
             Takes(env, fields, k, values[k]) || (k !in given && Defaulted(env, fields, k, values[k])))
       && given.Keys <= values.Keys
       && (forall k <- given :: values[k] == given[k] || exists f <- fields :: f.name == k && f.ty == Scalar("serial"))
       && (forall f <- fields :: f.required ==>
             f.name in values && values[f.name] != Null && values[f.name] != Str(""))
       && (forall r <- v.records, f <- fields :: r.entity == entity && r.id != "" && f.unique ==>
             !BothCompound(Get(v.records[r], f.name), Get(values, f.name)))
  }

  lemma CheckedCreation(env: Env, v: View, actor: Actor, entity: string, given: Fields, now: int)
    requires CreateCheck(env, v, actor, entity, given, now).Success?
    ensures CreatedWell(env, v, entity, given, CreateCheck(env, v, actor, entity, given, now).value)
  {
    hide Permissions.Can, FieldWritesOk, RefsExist, UniqueOk, UniquePanics, TouchesState, Takes, Defaulted, GivenOk;
    var fields := v.model.entities[entity].fields;
    UniqueCompares(v.records, v.model.entities[entity], entity,
      CreateCheck(env, v, actor, entity, given, now).value, "");
    var numbered := AssignSerials(env, v, entity, fields, given, now);
    var values := WithDefaults(env, v, fields, numbered, actor.id, now);
    SerialsAdd(env, v, entity, fields, given, now);
    GivenTakes(env, fields, numbered);
    DefaultsAdd(env, v, fields, numbered, actor.id, now);
  }

  lemma UniqueCompares(records: map<Rid, Fields>, decl: Entity, entity: string, values: Fields, selfId: string)
    requires !UniquePanics(records, decl, entity, values, selfId)
    ensures forall r <- records, f <- decl.fields :: r.entity == entity && r.id != selfId && f.unique ==>
      !BothCompound(Get(records[r], f.name), Get(values, f.name))
  {
  }

  /** What an update writes: each change is a real one, from the stored value to one that belongs to its field. */
  ghost predicate ChangedWell(env: Env, v: View, rid: Rid, changes: map<string, Change>) {
    && rid in v.records && rid.entity in v.model.entities
    && forall k <- changes ::
         && Takes(env, v.model.entities[rid.entity].fields, k, changes[k].new_)
         && changes[k].old_ == Get(v.records[rid], k) != changes[k].new_
         && !BothCompound(changes[k].old_, changes[k].new_)
  }

  lemma CheckedUpdate(env: Env, v: View, actor: Actor, rid: Rid, given: Fields, now: int)
    requires UpdateCheck(env, v, actor, rid, given, now).Success?
    ensures var changes := UpdateCheck(env, v, actor, rid, given, now).value;
      && ChangedWell(env, v, rid, changes)
      && changes.Keys <= given.Keys && forall k <- given :: k !in changes ==> Get(v.records[rid], k) == given[k]
  {
    hide Permissions.Can, FieldWritesOk, RefsExist, UniqueCheck, TouchesState, Takes, GivenOk;
    GivenTakes(env, v.model.entities[rid.entity].fields, given);
  }

  // ---- over a run -----------------------------------------------------------------------------

  /** In every admissible run, whatever a creation or an update journals belongs to its field. */
  lemma EveryWriteBelongs(env: Env, genesis: Model, calls: seq<TimedCall>, j: nat) returns (given: Fields)
    requires FreshIds(env) && AdmissibleRun(env, Start(genesis), calls)
    requires j < |Run(env, Start(genesis), calls).log|
    ensures var log := Run(env, Start(genesis), calls).log;
      var v, e := Fold(env.compile, Genesis(genesis), log[..j]), log[j];
      && (e.body.RecordCreated? ==> CreatedWell(env, v, e.subject.entity, given, e.body.values))
      && (e.body.RecordUpdated? ==> ChangedWell(env, v, RidOf(e.subject), e.body.changes))
  {
    StartIsGood(env, genesis);
    RunConforms(env, Start(genesis), calls);
    var t := Run(env, Start(genesis), calls);
    hide Run, AdmissibleRun, Good;
    LegalHistory(env, genesis, t);
    var v := Fold(env.compile, Genesis(genesis), t.log[..j]);
    assert Legal(env, State(v, t.log[..j]), t.log[j]);
    given := LegalWrite(env, State(v, t.log[..j]), t.log[j]);
  }

  lemma LegalWrite(env: Env, s: State, e: Entry) returns (given: Fields)
    requires Legal(env, s, e)
    ensures e.body.RecordCreated? ==> CreatedWell(env, s.view, e.subject.entity, given, e.body.values)
    ensures e.body.RecordUpdated? ==> ChangedWell(env, s.view, RidOf(e.subject), e.body.changes)
  {
    hide CreateCheck, UpdateCheck, CreatedWell, ChangedWell;
    given := map[];
    if e.body.RecordCreated? {
      given :| CreateCheck(env, s.view, e.actor, e.subject.entity, given, e.ts) == Success(e.body.values);
      CheckedCreation(env, s.view, e.actor, e.subject.entity, given, e.ts);
    } else if e.body.RecordUpdated? {
      given :| UpdateCheck(env, s.view, e.actor, RidOf(e.subject), given, e.ts) == Success(e.body.changes);
      CheckedUpdate(env, s.view, e.actor, RidOf(e.subject), given, e.ts);
    }
  }

  /** The value may stand in the field: it belongs there, a default gave it, or a declared move put it there. */
  ghost predicate MayHold(env: Env, m: Model, entity: string, name: string, x: Value) {
    || (entity in m.entities && Takes(env, m.entities[entity].fields, name, x))
    || (entity in m.entities && Defaulted(env, m.entities[entity].fields, name, x))
    || (entity in m.workflows && name == m.workflows[entity].field
        && exists tr <- m.workflows[entity].transitions :: x == Str(tr.to))
  }

  ghost predicate HoldsWell(env: Env, m: Model, records: map<Rid, Fields>) {
    forall rid, k :: rid in records && k in records[rid] ==> MayHold(env, m, rid.entity, k, records[rid][k])
  }

  lemma CommitHoldsWell(env: Env, m: Model, v: View, before: seq<Entry>, e: Entry)
    requires v.model == m && HoldsWell(env, m, v.records) && Legal(env, State(v, before), e)
    requires e.body.RecordAction? ==> Edges.Declared(m, e.subject.entity, e.body.from, e.body.action, e.body.to)
    ensures HoldsWell(env, m, Apply(env.compile, v, e).records)
  {
    var given := LegalWrite(env, State(v, before), e);
    if e.body.RecordAction? {
      MovedRecord(env, State(v, before), e);
    }
    hide Legal, Takes, Defaulted, NextSince, NextApprovals, NextTasks, NextProposals, NextLinks, NextModel, MayHold;
    var next := Apply(env.compile, v, e).records;
    forall rid, k | rid in next && k in next[rid] ensures MayHold(env, m, rid.entity, k, next[rid][k]) {
      if !(rid in v.records && k in v.records[rid] && next[rid][k] == v.records[rid][k]) {
        assert rid == RidOf(e.subject);
        WrittenHoldsWell(env, m, v, e, given, k);
      }
    }
  }

  lemma MovedRecord(env: Env, s: State, e: Entry)
    requires Legal(env, s, e) && e.body.RecordAction?
    ensures RidOf(e.subject) in s.view.records
  {
    hide Permissions.CanNamed, CreateCheck, UpdateCheck;
  }

  lemma WrittenHoldsWell(env: Env, m: Model, v: View, e: Entry, given: Fields, k: string)
    requires v.model == m && HoldsWell(env, m, v.records)
    requires e.body.RecordCreated? ==> CreatedWell(env, v, e.subject.entity, given, e.body.values)
    requires e.body.RecordUpdated? ==> ChangedWell(env, v, RidOf(e.subject), e.body.changes)
    requires e.body.RecordAction? ==> Edges.Declared(m, e.subject.entity, e.body.from, e.body.action, e.body.to)
    requires e.body.RecordAction? ==> RidOf(e.subject) in v.records
    requires var next, rid := NextRecords(v, e), RidOf(e.subject);
      && rid in next && k in next[rid]
      && !(rid in v.records && k in v.records[rid] && next[rid][k] == v.records[rid][k])
    ensures MayHold(env, m, e.subject.entity, k, NextRecords(v, e)[RidOf(e.subject)][k])
  {
    hide Takes, Defaulted;
  }

  lemma {:induction false} PrefixHoldsWell(env: Env, m: Model, log: seq<Entry>, n: nat)
    requires LegalLog(env, m, log) && FixedDefinition(log) && Edges.MovesOk(m, log) && n <= |log|
    ensures HoldsWell(env, m, Fold(env.compile, Genesis(m), log[..n]).records)
    decreases n
  {
    hide Legal, FixedDefinition, Edges.MovesOk, HoldsWell, Apply;
    if n == 0 {
      assert log[..0] == [];
      NothingHeld(env, m);
    } else {
      PrefixHoldsWell(env, m, log, n - 1);
      var v, e := Fold(env.compile, Genesis(m), log[..n - 1]), log[n - 1];
      assert log[..n] == log[..n - 1] + [e];
      FoldAppend(env.compile, Genesis(m), log[..n - 1], e);
      FixedStart(log, n - 1);
      VersionsGrow(env.compile, Genesis(m), log[..n - 1]);
      MoveAt(m, log, n - 1);
      assert Legal(env, State(v, log[..n - 1]), e);
      hide LegalLog, Fold;
      CommitHoldsWell(env, m, v, log[..n - 1], e);
    }
  }

  lemma NothingHeld(env: Env, m: Model)
    ensures HoldsWell(env, m, Fold(env.compile, Genesis(m), []).records)
  {
  }

  lemma FixedStart(log: seq<Entry>, n: nat)
    requires FixedDefinition(log) && n <= |log|
    ensures FixedDefinition(log[..n])
  {
  }

  lemma MoveAt(m: Model, log: seq<Entry>, j: nat)
    requires Edges.MovesOk(m, log) && j < |log|
    ensures log[j].body.RecordAction? ==>
      Edges.Declared(m, log[j].subject.entity, log[j].body.from, log[j].body.action, log[j].body.to)
  {
    if log[j].body.RecordAction? {
      assert Edges.MoveOk(m, log, j);
    }
  }

  /** In every admissible run under one definition, every value of every stored record belongs to its field, is
      the field's default, or is the state a declared transition leads to. */
  lemma StoredValuesBelong(env: Env, m: Model, calls: seq<TimedCall>)
    requires FreshIds(env) && AdmissibleRun(env, Start(m), calls)
    requires FixedDefinition(Run(env, Start(m), calls).log)
    ensures HoldsWell(env, m, Run(env, Start(m), calls).view.records)
  {
    StartIsGood(env, m);
    RunConforms(env, Start(m), calls);
    Edges.MovesAlongDeclaredEdges(env, m, calls);
    ReplayEqualsLive(env, m, calls);
    var t := Run(env, Start(m), calls);
    hide Run, AdmissibleRun, Good, HoldsWell;
    LegalHistory(env, m, t);
    assert t.log[..|t.log|] == t.log;
    PrefixHoldsWell(env, m, t.log, |t.log|);
  }
}
