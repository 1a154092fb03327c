/** A node that serves calls and is then restarted over its journal. */
module Restart {
  import opened Values
  import opened Model
  import opened Journal
  import opened EventStore
  import opened Projection
  import opened Environment
  import opened Steps
  import opened Conformance
  import opened Replay
  import Engine

  /** One call on a live engine. */
  method Perform(engine: Engine.Engine, call: Call, now: int) returns (error: Option<Error>)
    requires engine.Valid()
    modifies engine, engine.store
    ensures engine.Valid()
    ensures Outcome(engine.S(), error) == Step(engine.env, old(engine.S()), call, now)
  {
    hide Create, Update, Act, Decide, TakeTask, ReportProgress, FinishTask, Tick, ProposeChange, DecideProposal,
         ApplyAdditive, Link, Unlink;
    match call {
      case CreateCall(actor, entity, values, basis, key) =>
        error := engine.Create(actor, entity, values, basis, KeyOf(key), now);
      case UpdateCall(actor, rid, values, basis, key) =>
        error := engine.Update(actor, rid, values, basis, KeyOf(key), now);
      case ActCall(actor, rid, action, basis, key) => error := engine.Act(actor, rid, action, basis, KeyOf(key), now);
      case DecideCall(actor, id, grant, signature, basis) =>
        error := engine.Decide(actor, id, grant, signature, basis, now);
      case TakeCall(actor, id) => error := engine.TakeTask(actor, id, now);
      case ProgressCall(actor, id, note) => error := engine.ReportProgress(actor, id, note, now);
      case FinishCall(actor, id, success, text) => error := engine.FinishTask(actor, id, success, text, now);
      case TickCall =>
        engine.Tick(now);
        error := None;
      case ProposeCall(actor, files, base, description, basis) =>
        error := engine.ProposeChange(actor, files, base, description, basis, now);
      case DecideProposalCall(actor, id, grant, signature, basis) =>
        error := engine.DecideProposal(actor, id, grant, signature, basis, now);
      case ApplyAdditiveCall(actor, next, basis) => error := engine.ApplyAdditive(actor, next, basis, now);
      case LinkCall(actor, rid, name, other, basis) => error := engine.Link(actor, rid, name, other, basis, now);
      case UnlinkCall(actor, rid, name, other, basis) => error := engine.Unlink(actor, rid, name, other, basis, now);
    }
  }

  method Serve(engine: Engine.Engine, calls: seq<TimedCall>)
    requires engine.Valid()
    modifies engine, engine.store
    ensures engine.Valid() && engine.S() == Run(engine.env, old(engine.S()), calls)
  {
    hide Step;
    ghost var start := engine.S();
    for i := 0 to |calls|
      invariant engine.Valid() && engine.S() == Run(engine.env, start, calls[..i])
    {
      assert calls[..i + 1][..i] == calls[..i];
      var error := Perform(engine, calls[i].call, calls[i].now);
    }
    assert calls[..|calls|] == calls;
  }

  /** A fresh node serves any admissible calls; a second node started over its journal has the same
      projection, and the journal's hash chain verifies. */
  method ServeAndRestart(env: Env, genesis: Model, crypto: Crypto, render: Value -> string, calls: seq<TimedCall>)
    returns (live: Engine.Engine, restarted: Engine.Engine)
    requires FreshIds(env) && AdmissibleRun(env, Start(genesis), calls)
    ensures live.S() == Run(env, Start(genesis), calls)
    ensures restarted.store == live.store && restarted.Projected() == live.Projected()
    ensures ChainOk(crypto, live.store.events)
  {
    var store := new MemStore(crypto);
    live := new Engine.Engine(env, genesis, store, render);
    assert Log(store.events) == [];
    Serve(live, calls);
    ReplayEqualsLive(env, genesis, calls);
    restarted := new Engine.Engine(env, genesis, store, render);
  }
}
