/** Document numbers over whole runs: what Create assigns is new, and stays the only one. */
module Numbering {
  import opened Values
  import opened Model
  import opened Journal
  import opened Projection
  import opened Environment
  import opened Records
  import opened Steps
  import opened Protocol
  import opened Conformance
  import opened Replay
  import Edges
  import Serial

  predicate Unset(values: Fields, name: string) {
    Get(values, name) in {Null, Str("")}
  }

  /** A readable format, a year of four digits, and numbers left to hand out. */
  ghost predicate Numberable(env: Env, v: View, entity: string, f: Field, now: int) {
    && |Serial.Widths(Serial.Pieces(Serial.FormatOrDefault(f.format)))| == 1 && Serial.Readable(f.format)
    && 1000 <= env.year(now) <= 9999
    && Serial.MaxSeq(Column(v, entity, f.name), f.format) < Serial.MAX_INT
  }

  lemma {:induction false} SerialAssigned(env: Env, v: View, entity: string, fields: seq<Field>, given: Fields,
                                        now: int, f: Field)
    requires DistinctFields(fields) && f in fields && f.ty == Scalar("serial") && Unset(given, f.name)
    ensures Get(AssignSerials(env, v, entity, fields, given, now), f.name) ==
      Str(Serial.FormatSerial(f.format, Serial.NextSeq(Column(v, entity, f.name), f.format), env.year(now)))
    decreases |fields|
  {
    var g := fields[0];
    var filled :=
      if g.ty == Scalar("serial") && Get(given, g.name) in {Null, Str("")}
      then given[g.name := Str(Serial.FormatSerial(g.format, Serial.NextSeq(Column(v, entity, g.name), g.format),
        env.year(now)))]
      else given;
    var i :| 0 <= i < |fields| && fields[i] == f;
    if i == 0 {
      forall h | h in fields[1..] ensures h.name != f.name {
        var k :| 0 <= k < |fields[1..]| && fields[1..][k] == h;
      }
      Edges.SerialsKeepOthers(env, v, entity, fields[1..], filled, now, f.name);
    } else {
      assert fields[1..][i - 1] == f && fields[0].name != fields[i].name;
      SerialAssigned(env, v, entity, fields[1..], filled, now, f);
    }
  }

  /** A number Create assigns differs from every number the field then holds. */
  lemma AssignedIsFresh(env: Env, v: View, actor: Actor, entity: string, given: Fields, now: int, f: Field)
    requires CreateCheck(env, v, actor, entity, given, now).Success? && entity in v.model.entities
    requires DistinctFields(v.model.entities[entity].fields) && f in v.model.entities[entity].fields
      && f.ty == Scalar("serial")
    requires Unset(given, f.name) && Numberable(env, v, entity, f, now)
    ensures var values := CreateCheck(env, v, actor, entity, given, now).value;
      && Get(values, f.name).Str?
      && forall r <- v.records :: r.entity == entity ==> Get(v.records[r], f.name) != Get(values, f.name)
  {
    Edges.CreateSteps(env, v, actor, entity, given, now);
    hide CreateCheck;
    var fields, column := v.model.entities[entity].fields, Column(v, entity, f.name);
    SerialAssigned(env, v, entity, fields, given, now, f);
    Serial.NextIsFresh(column, f.format, env.year(now));
    var printed := Serial.FormatSerial(f.format, Serial.NextSeq(column, f.format), env.year(now));
    hide AssignSerials, WithDefaults, Serial.FormatSerial, Serial.NextSeq, Numberable;
    forall r | r in v.records && r.entity == entity ensures Get(v.records[r], f.name) != Str(printed) {
      assert AsString(Get(v.records[r], f.name)) in column;
    }
  }

  // ---- over a run ------------------------------------------------------------------------------

  /** No update between the two entries changes this field of the record the first one created. */
  predicate LeftAlone(log: seq<Entry>, j: nat, k: nat, name: string)
    requires j < |log|
  {
    forall i ::
      (j < i < k && i < |log| && log[i].body.RecordUpdated? && RidOf(log[i].subject) == RidOf(log[j].subject)) ==>
      name !in log[i].body.changes
  }

  predicate Moves(m: Model, entity: string, name: string) {
    entity in m.workflows && m.workflows[entity].field == name
  }

  lemma {:induction false} StoredSince(env: Env, m: Model, log: seq<Entry>, j: nat, k: nat, name: string)
    requires FreshIds(env) && LegalLog(env, m, log) && FixedDefinition(log)
    requires j < k <= |log| && log[j].body.RecordCreated? && LeftAlone(log, j, k, name)
    requires !Moves(m, log[j].subject.entity, name)
    ensures var v, rid := Fold(env.compile, Genesis(m), log[..k]), RidOf(log[j].subject);
      rid in v.records && Get(v.records[rid], name) == Get(log[j].body.values, name)
    decreases k
  {
    hide Legal, LegalLog, Apply, Fold, FixedDefinition, FreshIds;
    var rid := RidOf(log[j].subject);
    var before, e := Fold(env.compile, Genesis(m), log[..k - 1]), log[k - 1];
    assert log[..k] == log[..k - 1] + [e];
    FoldAppend(env.compile, Genesis(m), log[..k - 1], e);
    if j < k - 1 {
      StoredSince(env, m, log, j, k - 1, name);
      ModelStays(env, m, log, k - 1);
      if e.body.RecordCreated? {
        CreatedWithItsId(env, m, log, j);
        CreatedWithItsId(env, m, log, k - 1);
        IdsDiffer(env, j, k - 1);
      }
      ApplyKeepsField(env.compile, before, e, rid, name);
    } else {
      CreatedIsStored(env.compile, before, e);
    }
  }

  lemma IdsDiffer(env: Env, i: nat, j: nat)
    requires FreshIds(env) && i != j
    ensures env.ids(i) != env.ids(j)
  {
  }

  lemma CreatedIsStored(compile: Compiler, v: View, e: Entry)
    requires e.body.RecordCreated?
    ensures var w := Apply(compile, v, e); RidOf(e.subject) in w.records && w.records[RidOf(e.subject)] == e.body.values
  {
  }

  lemma ApplyKeepsField(compile: Compiler, v: View, e: Entry, rid: Rid, name: string)
    requires rid in v.records && !Moves(v.model, rid.entity, name)
    requires e.body.RecordUpdated? && RidOf(e.subject) == rid ==> name !in e.body.changes
    requires e.body.RecordCreated? ==> RidOf(e.subject) != rid
    ensures var w := Apply(compile, v, e); rid in w.records && Get(w.records[rid], name) == Get(v.records[rid], name)
  {
    hide NextSince, NextTasks, NextApprovals, NextProposals, NextModel, NextLinks, NextVersion;
  }

  lemma ModelStays(env: Env, m: Model, log: seq<Entry>, k: nat)
    requires FixedDefinition(log) && k <= |log|
    ensures Fold(env.compile, Genesis(m), log[..k]).model == m
  {
    VersionsGrow(env.compile, Genesis(m), log[..k]);
  }

  lemma CreatedWithItsId(env: Env, m: Model, log: seq<Entry>, j: nat)
    requires LegalLog(env, m, log) && j < |log| && log[j].body.RecordCreated?
    ensures log[j].subject.recordId == env.ids(j)
  {
    var s := State(Fold(env.compile, Genesis(m), log[..j]), log[..j]);
    assert Legal(env, s, log[j]);
    hide CreateCheck;
    assert CreationLegal(env, s, log[j], log[j].body.values);
  }

  /** In every admissible run under one definition: a number Create assigned at k differs from every number
      created before it that no update has changed since. */
  lemma NumbersDiffer(env: Env, m: Model, calls: seq<TimedCall>, j: nat, k: nat, f: Field) returns (given: Fields)
    requires FreshIds(env) && AdmissibleRun(env, Start(m), calls)
    requires var log := Run(env, Start(m), calls).log;
      && FixedDefinition(log) && j < k < |log| && log[j].body.RecordCreated? && log[k].body.RecordCreated?
      && log[j].subject.entity == log[k].subject.entity && log[k].subject.entity in m.entities
        && LeftAlone(log, j, k, f.name)
    requires var fields := m.entities[Run(env, Start(m), calls).log[k].subject.entity].fields;
      DistinctFields(fields) && f in fields && f.ty == Scalar("serial")
    requires !Moves(m, Run(env, Start(m), calls).log[k].subject.entity, f.name)
    ensures var log := Run(env, Start(m), calls).log;
      var v, e := Fold(env.compile, Genesis(m), log[..k]), log[k];
      && CreateCheck(env, v, e.actor, e.subject.entity, given, e.ts) == Success(e.body.values)
      && (Unset(given, f.name) && Numberable(env, v, e.subject.entity, f, e.ts) ==>
            Get(log[j].body.values, f.name) != Get(e.body.values, f.name))
  {
    StartIsGood(env, m);
    RunConforms(env, Start(m), calls);
    var t := Run(env, Start(m), calls);
    hide Run, AdmissibleRun, Good, CreateCheck, Numberable;
    LegalHistory(env, m, t);
    var log := t.log;
    var v, e := Fold(env.compile, Genesis(m), log[..k]), log[k];
    assert Legal(env, State(v, log[..k]), e);
    given := Edges.LegalCreation(env, State(v, log[..k]), e);
    StoredSince(env, m, log, j, k, f.name);
    ModelStays(env, m, log, k);
    hide Legal, Fold;
    if Unset(given, f.name) && Numberable(env, v, e.subject.entity, f, e.ts) {
      AssignedIsFresh(env, v, e.actor, e.subject.entity, given, e.ts, f);
    }
  }
}
