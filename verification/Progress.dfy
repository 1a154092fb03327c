/** What a progress report says was done: the actor's own events on the task's record. */
module Progress {
  import opened Values
  import opened Model
  import opened Journal
  import opened Projection
  import opened Environment
  import opened Steps
  import opened Protocol
  import opened Conformance
  import opened Replay

  /** The entry wrote or moved this record, in this actor's name. */
  predicate Did(e: Entry, actorId: string, entity: string, recordId: string) {
    && e.actor.id == actorId && e.subject.entity == entity && e.subject.recordId == recordId
    && (e.body.RecordCreated? || e.body.RecordUpdated? || e.body.RecordAction?)
  }

  function Deeds(log: seq<Entry>, actorId: string, entity: string, recordId: string): set<int> {
    set i | 0 <= i < |log| && Did(log[i], actorId, entity, recordId)
  }

  /** The count is the number of places in the journal where the actor did something to the record. */
  lemma {:induction false} FactsAreDeeds(log: seq<Entry>, actorId: string, entity: string, recordId: string)
    ensures FactsBy(log, actorId, entity, recordId) == |Deeds(log, actorId, entity, recordId)|
    decreases |log|
  {
    if log != [] {
      var n := |log| - 1;
      FactsAreDeeds(log[..n], actorId, entity, recordId);
      var less := Deeds(log[..n], actorId, entity, recordId);
      assert n !in less;
      assert Deeds(log, actorId, entity, recordId) ==
        less + if Did(log[n], actorId, entity, recordId) then {n} else {};
    }
  }

  /** In every admissible run, a progress entry is by the task's holder and counts what the holder had done to the
      task's record by then. */
  lemma ProgressCountsDeeds(env: Env, genesis: Model, calls: seq<TimedCall>, j: nat)
    requires FreshIds(env) && AdmissibleRun(env, Start(genesis), calls)
    requires j < |Run(env, Start(genesis), calls).log| && Run(env, Start(genesis), calls).log[j].body.TaskProgress?
    ensures var log := Run(env, Start(genesis), calls).log;
      var v, e := Fold(env.compile, Genesis(genesis), log[..j]), log[j];
      && e.subject.taskId in v.tasks
      && var t := v.tasks[e.subject.taskId];
         && t.takenBy == e.actor.id
         && e.body.facts == |Deeds(log[..j], e.actor.id, t.entity, t.recordId)|
  {
    StartIsGood(env, genesis);
    RunConforms(env, Start(genesis), calls);
    var t := Run(env, Start(genesis), calls);
    hide Run, AdmissibleRun, Good;
    LegalHistory(env, genesis, t);
    var s, e := State(Fold(env.compile, Genesis(genesis), t.log[..j]), t.log[..j]), t.log[j];
    assert Legal(env, s, e);
    HeldAndCounted(env, s, e);
    FactsAreDeeds(s.log, e.actor.id, s.view.tasks[e.subject.taskId].entity, s.view.tasks[e.subject.taskId].recordId);
  }

  lemma HeldAndCounted(env: Env, s: State, e: Entry)
    requires Legal(env, s, e) && e.body.TaskProgress?
    ensures e.subject.taskId in s.view.tasks
    ensures var t := s.view.tasks[e.subject.taskId];
      t.takenBy == e.actor.id && e.body.facts == FactsBy(s.log, e.actor.id, t.entity, t.recordId)
  {
    hide FactsBy, ActCheck;
  }
}
