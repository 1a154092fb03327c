/** The actor directory: a cache folded forward from a watermark over the journal. */
module Registry {
  import opened Values
  import opened Model
  import opened Journal
  import opened EventStore

  datatype ActorInfo = ActorInfo(
    id: string, kind: ActorKind, role: string, publicKey: string, tokenHash: Option<string>, meta: Option<Fields>,
      disabled: bool)

  type Directory = map<string, ActorInfo>

  datatype IdentityError = NotHuman | ActorExists | ActorUnknown | ActorIsDisabled | NotAppended

  // ---- the directory as a fold of the whole journal ------------------------------------------

  /** A registration or rotation sets the facts; token and meta stay when the payload carries none. */
  function WithFacts(dir: Directory, id: string, f: ActorFacts): Directory {
    var token := if f.tokenHash.Some? then f.tokenHash else if id in dir then dir[id].tokenHash else None;
    var meta := if f.meta.Some? then f.meta else if id in dir then dir[id].meta else None;
    dir[id := ActorInfo(id, f.kind, f.role, f.publicKey, token, meta, id in dir && dir[id].disabled)]
  }

  function NextDirectory(dir: Directory, e: Entry): Directory {
    var id := e.subject.actorId;
    if id == "" then dir
    else
      match e.body
      case ActorRegistered(f) => WithFacts(dir, id, f)
      case ActorKeyRotated(f) => WithFacts(dir, id, f)
      case ActorDisabled => if id in dir then dir[id := dir[id].(disabled := true)] else dir
      case _ => dir
  }

  function DirectoryOf(log: seq<Entry>): Directory
    decreases |log|
  {
    if log == [] then map[] else NextDirectory(DirectoryOf(log[..|log| - 1]), log[|log| - 1])
  }

  lemma DirectoryAppend(log: seq<Entry>, e: Entry)
    ensures DirectoryOf(log + [e]) == NextDirectory(DirectoryOf(log), e)
  {
    assert (log + [e])[..|log|] == log;
  }

  /** Once disabled, always disabled: no later registration, rotation or event brings an actor back. */
  lemma {:induction false} DisabledForever(log: seq<Entry>, more: seq<Entry>, id: string)
    requires id in DirectoryOf(log) && DirectoryOf(log)[id].disabled
    ensures id in DirectoryOf(log + more) && DirectoryOf(log + more)[id].disabled
    decreases |more|
  {
    if more == [] {
      assert log + more == log;
    } else {
      var n := |more| - 1;
      DisabledForever(log, more[..n], id);
      assert log + more == (log + more[..n]) + [more[n]];
      DirectoryAppend(log + more[..n], more[n]);
    }
  }

  lemma {:induction false} NamedById(log: seq<Entry>)
    ensures forall id <- DirectoryOf(log) :: DirectoryOf(log)[id].id == id
    decreases |log|
  {
    if log != [] {
      NamedById(log[..|log| - 1]);
    }
  }

  // ---- authentication --------------------------------------------------------------------------

  predicate Holds(info: ActorInfo, hash: string) { info.tokenHash == Some(hash) }

  /** The answer to a token hash: the first actor carrying it decides. */
  function Authenticated(dir: Directory, ids: seq<string>, hash: string): Result<ActorInfo, IdentityError>
    requires forall id <- ids :: id in dir
  {
    if ids == [] then Failure(ActorUnknown)
    else if Holds(dir[ids[0]], hash) then
      if dir[ids[0]].disabled then Failure(ActorIsDisabled) else Success(dir[ids[0]])
    else Authenticated(dir, ids[1..], hash)
  }

  /** Whatever order the directory is tried in: success names an active actor carrying the hash; an unknown
      token is one nobody carries; and if only disabled actors carry it, the answer is that. */
  lemma {:induction false} AuthenticationIs(dir: Directory, ids: seq<string>, hash: string)
    requires forall id <- ids :: id in dir
    ensures var r := Authenticated(dir, ids, hash);
      && (r.Success? ==> exists id <- ids :: r.value == dir[id] && dir[id].tokenHash == Some(hash) && !dir[id].disabled)
      && (r == Failure(ActorUnknown) <==> forall id <- ids :: dir[id].tokenHash != Some(hash))
      && (r.Success? || r == Failure(ActorUnknown) || r == Failure(ActorIsDisabled))
  {
    if ids != [] && !Holds(dir[ids[0]], hash) {
      assert ids == [ids[0]] + ids[1..];
      AuthenticationIs(dir, ids[1..], hash);
    }
  }

  /** A disabled actor never authenticates again, under any token, old or newly issued. */
  lemma DisabledNeverAuthenticates(log: seq<Entry>, more: seq<Entry>, id: string, ids: seq<string>, hash: string)
    requires id in DirectoryOf(log) && DirectoryOf(log)[id].disabled
    requires forall x <- ids :: x in DirectoryOf(log + more)
    ensures var r := Authenticated(DirectoryOf(log + more), ids, hash); r.Success? ==> r.value.id != id
  {
    DisabledForever(log, more, id);
    NamedById(log + more);
    AuthenticationIs(DirectoryOf(log + more), ids, hash);
  }

  /** A token carried by nobody but a disabled actor is answered as disabled. */
  lemma {:induction false} DisabledTokenIsRefused(dir: Directory, ids: seq<string>, id: string, hash: string)
    requires forall x <- ids :: x in dir
    requires id in ids && dir[id].tokenHash == Some(hash) && dir[id].disabled
    requires forall x <- ids :: x != id ==> dir[x].tokenHash != Some(hash)
    ensures Authenticated(dir, ids, hash) == Failure(ActorIsDisabled)
  {
    if ids[0] != id {
      assert ids == [ids[0]] + ids[1..];
      DisabledTokenIsRefused(dir, ids[1..], id, hash);
    }
  }

  // ---- the registry as it runs ---------------------------------------------------------------------

  class Registry {
    const store: MemStore
    var watermark: nat
    var cache: Directory

    /** The cache is the fold of the journal up to the watermark. */
    ghost predicate Valid()
      reads this, store
    {
      && store.Valid()
      && watermark <= |store.events|
      && cache == DirectoryOf(Log(store.events)[..watermark])
    }

    constructor (store: MemStore)
      requires store.Valid()
      ensures Valid() && this.store == store
    {
      this.store, watermark, cache := store, 0, map[];
      new;
      assert Log(store.events)[..0] == [];
    }

    /** The cache survives whatever others append. */
    twostate lemma StillValid()
      requires old(Valid()) && store.Valid() && unchanged(this)
      requires old(store.events) <= store.events
      ensures Valid()
    {
      assert Log(store.events)[..watermark] == old(Log(store.events))[..watermark];
    }

    /** Folds the event right after the watermark. */
    method FoldEvent(e: Event)
      requires Valid() && watermark < |store.events| && e == store.events[watermark]
      modifies this
      ensures Valid() && watermark == old(watermark) + 1
    {
      hide NextDirectory, DirectoryOf;
      ghost var log := Log(store.events);
      assert LinkOk(store.crypto, store.events, watermark);
      assert log[..watermark + 1] == log[..watermark] + [e.entry];
      DirectoryAppend(log[..watermark], e.entry);
      watermark := e.number;
      FoldActor(e.entry);
    }

    /** Folds only what is newer than the watermark; the answer is the fold of everything. */
    method All() returns (dir: Directory)
      requires Valid()
      modifies this
      ensures Valid() && dir == DirectoryOf(Log(store.events)) && cache == dir
    {
      hide DirectoryOf, ChainOk, KeysIndexed;
      var start := watermark;
      var events := store.Since(watermark);
      for i := 0 to |events|
        invariant Valid() && watermark == start + i && events == store.events[start..]
      {
        assert events[i] == store.events[start + i];
        FoldEvent(events[i]);
      }
      assert Log(store.events)[..|store.events|] == Log(store.events);
      dir := cache;
    }

    method FoldActor(e: Entry)
      modifies this`cache
      ensures cache == NextDirectory(old(cache), e)
    {
      var id := e.subject.actorId;
      if id == "" {
        return;
      }
      match e.body {
        case ActorRegistered(f) => SetFacts(id, f);
        case ActorKeyRotated(f) => SetFacts(id, f);
        case ActorDisabled =>
          if id in cache {
            cache := cache[id := cache[id].(disabled := true)];
          }
        case _ =>
      }
    }

    method SetFacts(id: string, f: ActorFacts)
      modifies this`cache
      ensures cache == WithFacts(old(cache), id, f)
    {
      if id !in cache {
        cache := cache[id := ActorInfo(id, f.kind, f.role, f.publicKey, None, None, false)];
      }
      var info := cache[id].(id := id, kind := f.kind, role := f.role, publicKey := f.publicKey);
      if f.tokenHash.Some? {
        info := info.(tokenHash := f.tokenHash);
      }
      if f.meta.Some? {
        info := info.(meta := f.meta);
      }
      cache := cache[id := info];
    }

    method Append(registrar: Actor, id: string, body: Body, basis: Option<Basis>, now: int) returns (ok: bool)
      requires Valid()
      modifies store
      ensures Valid()
      ensures ok <==> registrar.id != ""
      ensures !ok ==> Log(store.events) == old(Log(store.events))
      ensures ok ==>
        DirectoryOf(Log(store.events)) ==
        NextDirectory(old(DirectoryOf(Log(store.events))),
                      Entry(registrar, NO_SUBJECT.(actorId := id), body, basis, 0, NoKey, now))
    {
      hide NextDirectory, DirectoryOf, KeysIndexed, ChainOk;
      ghost var log := Log(store.events);
      DirectoryAppend(log, Entry(registrar, NO_SUBJECT.(actorId := id), body, basis, 0, NoKey, now));
      var ev := store.Append(Entry(registrar, NO_SUBJECT.(actorId := id), body, basis, 0, NoKey, now), None, "");
      StillValid();
      ok := ev.Some?;
    }

    method Register(registrar: Actor, id: string, facts: ActorFacts, basis: Option<Basis>, now: int)
      returns (error: Option<IdentityError>)
      requires Valid()
      modifies this, store
      ensures Valid()
      ensures error == Some(NotHuman) <==> !registrar.kind.Human?
      ensures error == Some(ActorExists) <==> registrar.kind.Human? && id in old(DirectoryOf(Log(store.events)))
      ensures error == Some(NotAppended) <==>
        registrar.kind.Human? && id !in old(DirectoryOf(Log(store.events))) && registrar.id == ""
      ensures error.None? || error.value in {NotHuman, ActorExists, NotAppended}
      ensures error.Some? ==> Log(store.events) == old(Log(store.events))
      ensures error.None? && id != "" ==>
        DirectoryOf(Log(store.events)) == old(DirectoryOf(Log(store.events)))[id :=
          ActorInfo(id, facts.kind, facts.role, facts.publicKey, facts.tokenHash, facts.meta, false)]
    {
      hide DirectoryOf, KeysIndexed, ChainOk;
      if !registrar.kind.Human? {
        return Some(NotHuman);
      }
      var dir := All();
      if id in dir {
        return Some(ActorExists);
      }
      var ok := Append(registrar, id, ActorRegistered(facts), basis, now);
      if !ok {
        return Some(NotAppended);
      }
      return None;
    }

    /** Registers an actor, or issues the existing one a new token; a disabled actor stays disabled. */
    method EnsureActor(id: string, kind: ActorKind, role: string, meta: Option<Fields>, tokenHash: string, now: int)
      requires Valid() && id != ""
      modifies this, store
      ensures Valid()
      ensures var before, dir := old(DirectoryOf(Log(store.events))), DirectoryOf(Log(store.events));
        && dir.Keys == before.Keys + {id} && (forall other <- before :: other != id ==> dir[other] == before[other])
        && dir[id].tokenHash == Some(tokenHash)
        && (id in before ==> dir[id] == before[id].(tokenHash := Some(tokenHash)))
        && (id !in before ==> dir[id] == ActorInfo(id, kind, role, "", Some(tokenHash), meta, false))
    {
      hide DirectoryOf, KeysIndexed, ChainOk;
      var bootstrap, basis := Actor(Human, "bootstrap", "Owner", map[]), Some(Basis("human", "bootstrap"));
      var dir := All();
      ghost var log := Log(store.events);
      NamedById(log);
      if id !in dir {
        var error := Register(bootstrap, id, ActorFacts(kind, role, "", Some(tokenHash), meta), basis, now);
        return;
      }
      var info := dir[id];
      var ok := Append(bootstrap, id,
        ActorKeyRotated(ActorFacts(info.kind, info.role, info.publicKey, Some(tokenHash), info.meta)), basis, now);
    }

    /** A new public key; token, meta and the disabled flag stay. */
    method RotateKey(registrar: Actor, id: string, publicKey: string, basis: Option<Basis>, now: int)
      returns (error: Option<IdentityError>)
      requires Valid() && id != ""
      modifies this, store
      ensures Valid()
      ensures error.Some? ==> Log(store.events) == old(Log(store.events))
      ensures error.None? <==> registrar.id != "" && id in old(DirectoryOf(Log(store.events)))
      ensures error.None? ==>
        DirectoryOf(Log(store.events)) ==
        old(DirectoryOf(Log(store.events)))[id := old(DirectoryOf(Log(store.events)))[id].(publicKey := publicKey)]
    {
      hide DirectoryOf, KeysIndexed, ChainOk;
      var dir := All();
      NamedById(Log(store.events));
      if id !in dir {
        return Some(ActorUnknown);
      }
      var info := dir[id];
      var ok := Append(registrar, id, ActorKeyRotated(ActorFacts(info.kind, info.role, publicKey, None, None)), basis,
        now);
      return if ok then None else Some(NotAppended);
    }

    /** Only humans revoke. */
    method Disable(registrar: Actor, id: string, basis: Option<Basis>, now: int) returns (error: Option<IdentityError>)
      requires Valid() && id != ""
      modifies this, store
      ensures Valid()
      ensures error.Some? ==> Log(store.events) == old(Log(store.events))
      ensures error.None? <==> registrar.kind.Human? && registrar.id != "" && id in old(DirectoryOf(Log(store.events)))
      ensures error.None? ==>
        DirectoryOf(Log(store.events)) ==
        old(DirectoryOf(Log(store.events)))[id := old(DirectoryOf(Log(store.events)))[id].(disabled := true)]
    {
      hide DirectoryOf, KeysIndexed, ChainOk;
      if !registrar.kind.Human? {
        return Some(NotHuman);
      }
      var dir := All();
      if id !in dir {
        return Some(ActorUnknown);
      }
      var ok := Append(registrar, id, ActorDisabled, basis, now);
      if !ok {
        return Some(NotAppended);
      }
      return None;
    }

    method Authenticate(hash: string) returns (r: Result<ActorInfo, IdentityError>)
      requires Valid()
      modifies this
      ensures Valid()
      ensures r == Authenticated(DirectoryOf(Log(store.events)), SortedIds(DirectoryOf(Log(store.events)).Keys), hash)
    {
      var dir := All();
      var ids := SortedIds(dir.Keys);
      assert ids[0..] == ids;
      for i := 0 to |ids|
        invariant forall id <- ids[i..] :: id in dir
        invariant Authenticated(dir, ids, hash) == Authenticated(dir, ids[i..], hash)
      {
        assert ids[i..][0] == ids[i] && ids[i..][1..] == ids[i + 1..];
        if Holds(dir[ids[i]], hash) {
          if dir[ids[i]].disabled {
            return Failure(ActorIsDisabled);
          }
          return Success(dir[ids[i]]);
        }
      }
      assert ids[|ids|..] == [];
      return Failure(ActorUnknown);
    }
  }

  // ---- reads between appends ---------------------------------------------------------------------

  /** The journal after an append: entries without an actor and repeated keys leave it as it is. */
  function Recorded(log: seq<Entry>, e: Entry): seq<Entry> {
    if e.actor.id == "" || Prior(log, e.key).Some? then log else log + [e]
  }

  /** The journal after a script of appends (an entry) and reads (None). */
  function JournalAfter(log: seq<Entry>, script: seq<Option<Entry>>): seq<Entry>
    decreases |script|
  {
    if script == [] then log
    else
      var before, step := JournalAfter(log, script[..|script| - 1]), script[|script| - 1];
      if step.Some? then Recorded(before, step.value) else before
  }

  /** What a registry that kept no cache would answer: one directory per read, each the fold of the whole
      journal of that moment. */
  function UncachedAnswers(log: seq<Entry>, script: seq<Option<Entry>>): seq<Directory>
    decreases |script|
  {
    if script == [] then []
    else
      var before := script[..|script| - 1];
      UncachedAnswers(log, before) + if script[|script| - 1].None? then [DirectoryOf(JournalAfter(log, before))] else []
  }

  /** Appends by others and reads by the registry, in any order: its answers are those of one that folds the
      whole journal from an empty cache at every read. */
  method Interleave(registry: Registry, script: seq<Option<Entry>>) returns (answers: seq<Directory>)
    requires registry.Valid()
    modifies registry, registry.store
    ensures registry.Valid()
    ensures Log(registry.store.events) == JournalAfter(old(Log(registry.store.events)), script)
    ensures answers == UncachedAnswers(old(Log(registry.store.events)), script)
  {
    hide DirectoryOf, KeysIndexed, ChainOk;
    ghost var log := Log(registry.store.events);
    answers := [];
    for i := 0 to |script|
      invariant registry.Valid()
      invariant Log(registry.store.events) == JournalAfter(log, script[..i])
      invariant answers == UncachedAnswers(log, script[..i])
    {
      assert script[..i + 1][..i] == script[..i];
      if script[i].Some? {
        label L:
        var ev := registry.store.Append(script[i].value, None, "");
        registry.StillValid@L();
      } else {
        var dir := registry.All();
        answers := answers + [dir];
      }
    }
    assert script[..|script|] == script;
  }
}
