/** Links between records: which facts are journaled, and which of them hold now. */
module Links {
  import opened Values
  import opened Model
  import opened Journal
  import opened Projection
  import opened Environment
  import opened Records
  import opened Steps
  import opened Protocol
  import opened Conformance
  import opened Replay
  import Permissions

  /** Link names and ids hold no bar; the compiler and the id supply see to that. */
  predicate Barless(f: LinkFact) {
    '|' !in f.link && '|' !in f.from && '|' !in f.to
  }

  lemma FirstBar(a: string, x: string, b: string, y: string)
    requires '|' !in a && '|' !in b && a + "|" + x == b + "|" + y
    ensures a == b && x == y
  {
    var s := a + "|" + x;
    assert s[|a|] == '|' && s[|b|] == '|';
    assert forall i :: 0 <= i < |a| ==> s[i] == a[i] && a[i] in a;
    assert forall i :: 0 <= i < |b| ==> s[i] == b[i] && b[i] in b;
    assert |a| == |b|;
    assert s[..|a|] == a && s[..|b|] == b && s[|a| + 1..] == x && s[|b| + 1..] == y;
  }

  /** Different facts have different keys. */
  lemma LinkKeyInjective(f: LinkFact, g: LinkFact)
    requires Barless(f) && Barless(g) && LinkKey(f) == LinkKey(g)
    ensures f == g
  {
    assert LinkKey(f) == f.link + "|" + (f.from + "|" + f.to) && LinkKey(g) == g.link + "|" + (g.from + "|" + g.to);
    FirstBar(f.link, f.from + "|" + f.to, g.link, g.from + "|" + g.to);
    FirstBar(f.from, f.to, g.from, g.to);
  }

  predicate BarlessLog(log: seq<Entry>) {
    forall e <- log :: (e.body.LinkAdded? || e.body.LinkRemoved?) ==> Barless(e.body.fact)
  }

  /** The fact was added at j and not removed since. */
  predicate AddedAt(log: seq<Entry>, f: LinkFact, j: nat) {
    j < |log| && log[j].body == LinkAdded(f) && forall k :: j < k < |log| ==> log[k].body != LinkRemoved(f)
  }

  lemma {:induction false} LinkedIff(compile: Compiler, m: Model, log: seq<Entry>, f: LinkFact)
    requires BarlessLog(log) && Barless(f)
    ensures var links := Fold(compile, Genesis(m), log).links;
      && (LinkKey(f) in links <==> exists j: nat :: AddedAt(log, f, j))
      && (LinkKey(f) in links ==> links[LinkKey(f)] == f)
    decreases |log|
  {
    hide LinkKey, Barless, NextRecords, NextSince, NextApprovals, NextTasks, NextProposals, NextModel, NextVersion;
    if log != [] {
      var n := |log| - 1;
      var less, e := log[..n], log[n];
      assert forall d <- less :: d in log;
      assert e in log;
      LinkedIff(compile, m, less, f);
      if (e.body.LinkAdded? || e.body.LinkRemoved?) && LinkKey(e.body.fact) == LinkKey(f) {
        LinkKeyInjective(e.body.fact, f);
      }
      if e.body == LinkAdded(f) {
        assert AddedAt(log, f, n);
      } else if e.body == LinkRemoved(f) {
        assert forall j: nat :: !AddedAt(log, f, j);
      } else {
        forall j: nat ensures AddedAt(log, f, j) <==> AddedAt(less, f, j) {
          assert forall k :: 0 <= k < n ==> less[k] == log[k];
        }
      }
    }
  }

  /** In every admissible run, the links that hold are the facts that were added and not removed since. */
  lemma LinksAreFacts(env: Env, genesis: Model, calls: seq<TimedCall>, f: LinkFact)
    requires FreshIds(env) && AdmissibleRun(env, Start(genesis), calls)
    requires BarlessLog(Run(env, Start(genesis), calls).log) && Barless(f)
    ensures var t := Run(env, Start(genesis), calls);
      && (LinkKey(f) in t.view.links <==> exists j: nat :: AddedAt(t.log, f, j))
      && (LinkKey(f) in t.view.links ==> t.view.links[LinkKey(f)] == f)
  {
    ReplayEqualsLive(env, genesis, calls);
    LinkedIff(env.compile, genesis, Run(env, Start(genesis), calls).log, f);
    hide Run, AdmissibleRun, Fold, FreshIds;
  }

  /** A fact of a declared link: written from one of its ends, in the link's own direction. */
  ghost predicate Declared(v: View, e: Entry, f: LinkFact, decl: LinkDecl) {
    && decl in v.model.links && f.link == decl.forward
    && ((e.subject.entity == decl.from && e.subject.recordId == f.from)
        || (e.subject.entity in {decl.from, decl.to} && e.subject.recordId == f.to))
  }

  ghost predicate LinkedWell(v: View, e: Entry) {
    match e.body
    case LinkAdded(f) =>
      && LinkKey(f) !in v.links
      && exists decl :: Declared(v, e, f, decl)
           && Rid(decl.from, f.from) in v.records && Rid(decl.to, f.to) in v.records
    case LinkRemoved(f) => LinkKey(f) in v.links && exists decl :: Declared(v, e, f, decl)
    case _ => true
  }

  lemma LegalIsLinkedWell(env: Env, s: State, e: Entry)
    requires Legal(env, s, e)
    ensures LinkedWell(s.view, e)
  {
    hide Permissions.Can, LinkKey, CreateCheck, UpdateCheck, ActCheck;
    if e.body.LinkAdded? {
      var name, other, decl :| LinkAllowed(env, s, e, e.body.fact, name, other, decl)
        && Rid(decl.from, e.body.fact.from) in s.view.records && Rid(decl.to, e.body.fact.to) in s.view.records;
      assert Declared(s.view, e, e.body.fact, decl);
    } else if e.body.LinkRemoved? {
      var name, other, decl :| LinkAllowed(env, s, e, e.body.fact, name, other, decl);
      assert Declared(s.view, e, e.body.fact, decl);
    }
  }

  /** In every admissible run, a link is added between two existing records by a declared name, at either end but in
      the link's direction, and only once; and only a link that holds is removed. */
  lemma EveryLinkIsDeclared(env: Env, genesis: Model, calls: seq<TimedCall>, j: nat)
    requires FreshIds(env) && AdmissibleRun(env, Start(genesis), calls)
    requires j < |Run(env, Start(genesis), calls).log|
    ensures var log := Run(env, Start(genesis), calls).log;
      LinkedWell(Fold(env.compile, Genesis(genesis), log[..j]), log[j])
  {
    StartIsGood(env, genesis);
    RunConforms(env, Start(genesis), calls);
    var t := Run(env, Start(genesis), calls);
    hide Run, AdmissibleRun, Good;
    LegalHistory(env, genesis, t);
    var v := Fold(env.compile, Genesis(genesis), t.log[..j]);
    assert Legal(env, State(v, t.log[..j]), t.log[j]);
    LegalIsLinkedWell(env, State(v, t.log[..j]), t.log[j]);
  }
}
