/** The append-only journal: idempotent appends, the hash chain over it, and sealed checkpoints. */
module EventStore {
  import opened Values
  import opened Journal

  const HASH_SIZE: nat := 32

  function ZeroBytes(n: nat): (z: Bytes)
    ensures |z| == n
  {
    if n == 0 then [] else [0] + ZeroBytes(n - 1)
  }

  const GENESIS_HASH: Bytes := ZeroBytes(HASH_SIZE)

  /** The library calls: a digest, the canonical encoding of the hashed fields, and the node's signature. */
  datatype Crypto = Crypto(
    sha: Bytes -> Bytes,
    canon: (string, nat, Entry) -> Bytes,
    sign: Bytes -> Bytes,
    verify: (Bytes, Bytes) -> bool)

  /** Digests have a fixed size, and the canonical encoding determines what it encodes. */
  ghost predicate ValidCrypto(c: Crypto) {
    && (forall x: Bytes :: |c.sha(x)| == HASH_SIZE)
    && (forall i, n, e, i', n', e' :: c.canon(i, n, e) == c.canon(i', n', e') ==> i == i' && n == n' && e == e')
    && (forall m: Bytes :: c.verify(m, c.sign(m)))
  }

  /** The hashed fields are eventId, number and entry; the signature stays outside the hash. */
  datatype Event = Event(
    eventId: string, number: nat, entry: Entry, prevHash: Bytes, hash: Bytes, signature: Option<Bytes>)

  function Preimage(c: Crypto, prev: Bytes, e: Event): Bytes {
    prev + c.canon(e.eventId, e.number, e.entry)
  }

  function ComputeHash(c: Crypto, prev: Bytes, e: Event): Bytes {
    c.sha(Preimage(c, prev, e))
  }

  function BuildEvent(c: Crypto, entry: Entry, signature: Option<Bytes>, number: nat, prev: Bytes,
                      eventId: string): Event
  {
    var e := Event(eventId, number, entry, prev, [], signature);
    e.(hash := ComputeHash(c, prev, e))
  }

  function Log(events: seq<Event>): (log: seq<Entry>)
    ensures |log| == |events| && forall i :: 0 <= i < |log| ==> log[i] == events[i].entry
  {
    if events == [] then [] else Log(events[..|events| - 1]) + [events[|events| - 1].entry]
  }

  // ---- the chain ----------------------------------------------------------------

  function HashBefore(events: seq<Event>, i: nat): Bytes
    requires i <= |events|
  {
    if i == 0 then GENESIS_HASH else events[i - 1].hash
  }

  predicate LinkOk(c: Crypto, events: seq<Event>, i: nat)
    requires i < |events|
  {
    && events[i].number == i + 1
    && events[i].prevHash == HashBefore(events, i)
    && events[i].hash == ComputeHash(c, HashBefore(events, i), events[i])
  }

  ghost predicate ChainOk(c: Crypto, events: seq<Event>) {
    forall i :: 0 <= i < |events| ==> LinkOk(c, events, i)
  }

  datatype ChainBreak = Gap(number: nat) | PrevMismatch(number: nat) | HashMismatch(number: nat)

  /** Walks the chain and reports the first event that does not verify. */
  method VerifyChain(c: Crypto, events: seq<Event>) returns (broken: Option<ChainBreak>)
    ensures broken.None? <==> ChainOk(c, events)
    ensures broken.Some? ==>
      exists i :: 0 <= i < |events| && ChainOk(c, events[..i]) && !LinkOk(c, events, i)
        && broken.value.number == events[i].number
  {
    var prev, prevNumber := GENESIS_HASH, 0;
    for i := 0 to |events|
      invariant prevNumber == i && prev == HashBefore(events, i)
      invariant forall j :: 0 <= j < i ==> LinkOk(c, events, j)
    {
      var e := events[i];
      assert ChainOk(c, events[..i]) by {
        forall j | 0 <= j < i ensures LinkOk(c, events[..i], j) { assert LinkOk(c, events, j); }
      }
      if e.number != prevNumber + 1 {
        assert !LinkOk(c, events, i);
        return Some(Gap(e.number));
      }
      if e.prevHash != prev {
        assert !LinkOk(c, events, i);
        return Some(PrevMismatch(e.number));
      }
      var want := ComputeHash(c, prev, e);
      if e.hash != want {
        assert !LinkOk(c, events, i);
        return Some(HashMismatch(e.number));
      }
      prev, prevNumber := e.hash, e.number;
    }
    return None;
  }

  /** Two events agree on everything the hash covers, and on the hash itself. */
  predicate SameHashed(a: Event, b: Event) {
    a.eventId == b.eventId && a.number == b.number && a.entry == b.entry && a.prevHash == b.prevHash && a.hash == b.hash
  }

  /** Position i of the two journals exhibits two different inputs with one digest. */
  ghost predicate CollisionAt(c: Crypto, a: seq<Event>, b: seq<Event>, i: nat)
    requires i < |a| && i < |b|
  {
    var x, y := Preimage(c, HashBefore(a, i), a[i]), Preimage(c, HashBefore(b, i), b[i]);
    x != y && c.sha(x) == c.sha(y)
  }

  lemma HashBeforeSize(c: Crypto, a: seq<Event>, i: nat)
    requires ValidCrypto(c) && ChainOk(c, a) && i <= |a|
    ensures |HashBefore(a, i)| == HASH_SIZE
  {
    if i > 0 {
      assert LinkOk(c, a, i - 1);
    }
  }

  /** One equal hash pins the whole prefix, unless the two journals exhibit a digest collision. */
  lemma {:induction false} TamperEvidence(c: Crypto, a: seq<Event>, b: seq<Event>, n: nat)
    requires ValidCrypto(c) && ChainOk(c, a) && ChainOk(c, b)
    requires 0 < n <= |a| && n <= |b|
    requires a[n - 1].hash == b[n - 1].hash
    ensures (forall i :: 0 <= i < n ==> SameHashed(a[i], b[i]))
         || (exists i :: 0 <= i < n && CollisionAt(c, a, b, i))
  {
    var i := n - 1;
    assert LinkOk(c, a, i) && LinkOk(c, b, i);
    var p, q := HashBefore(a, i), HashBefore(b, i);
    HashBeforeSize(c, a, i);
    HashBeforeSize(c, b, i);
    if Preimage(c, p, a[i]) != Preimage(c, q, b[i]) {
      assert CollisionAt(c, a, b, i);
    } else {
      assert p == Preimage(c, p, a[i])[..HASH_SIZE] == q;
      assert c.canon(a[i].eventId, a[i].number, a[i].entry) == Preimage(c, p, a[i])[HASH_SIZE..]
          == c.canon(b[i].eventId, b[i].number, b[i].entry);
      assert SameHashed(a[i], b[i]);
      if i > 0 {
        TamperEvidence(c, a, b, i);
      }
    }
  }

  // ---- the store ----------------------------------------------------------------

  /** The key index lists, for every key in the journal, the one event stored under it. */
  ghost predicate KeysIndexed(events: seq<Event>, byKey: map<Key, Event>) {
    && UniqueKeys(Log(events))
    && (forall i :: 0 <= i < |events| && events[i].entry.key != NoKey ==>
          events[i].entry.key in byKey && byKey[events[i].entry.key] == events[i])
    && (forall k <- byKey :: k != NoKey && byKey[k] in events && byKey[k].entry.key == k)
  }

  lemma LogAppend(events: seq<Event>, e: Event)
    ensures Log(events + [e]) == Log(events) + [e.entry]
  {
    assert (events + [e])[..|events|] == events;
  }

  lemma IndexFindsPrior(events: seq<Event>, byKey: map<Key, Event>, key: Key)
    requires KeysIndexed(events, byKey)
    ensures key in byKey ==> Prior(Log(events), key) == Some(byKey[key].entry)
    ensures key !in byKey ==> Prior(Log(events), key).None?
  {
    if key in byKey {
      var i :| 0 <= i < |events| && events[i] == byKey[key];
      PriorIs(Log(events), i);
    }
  }

  lemma AppendKeepsIndex(events: seq<Event>, byKey: map<Key, Event>, e: Event)
    requires KeysIndexed(events, byKey) && e.entry.key !in byKey
    ensures KeysIndexed(events + [e], if e.entry.key == NoKey then byKey else byKey[e.entry.key := e])
  {
    LogAppend(events, e);
    var more := events + [e];
    var index := if e.entry.key == NoKey then byKey else byKey[e.entry.key := e];
    forall k | k in index ensures k != NoKey && index[k] in more && index[k].entry.key == k {
      assert more[|events|] == e;
    }
  }

  class MemStore {
    const crypto: Crypto
    var events: seq<Event>
    var byIdemKey: map<Key, Event>

    ghost predicate Valid()
      reads this
    {
      ChainOk(crypto, events) && KeysIndexed(events, byIdemKey)
    }

    constructor (crypto: Crypto)
      ensures Valid() && this.crypto == crypto && events == []
    {
      this.crypto := crypto;
      events, byIdemKey := [], map[];
    }

    /** Appends one event, or returns the event already stored under the idempotency key. */
    method Append(entry: Entry, signature: Option<Bytes>, eventId: string) returns (r: Option<Event>)
      requires Valid()
      modifies this
      ensures Valid()
      ensures r.None? <==> entry.actor.id == ""
      ensures r.None? ==> events == old(events)
      ensures r.Some? && Prior(Log(old(events)), entry.key).Some? ==>
        events == old(events) && r.value in events && r.value.entry == Prior(Log(old(events)), entry.key).value
      ensures r.Some? && Prior(Log(old(events)), entry.key).None? ==>
        && events == old(events) + [r.value]
        && Log(events) == Log(old(events)) + [entry]
        && r.value == BuildEvent(crypto, entry, signature, |old(events)| + 1, HashBefore(old(events), |old(events)|),
          eventId)
    {
      if entry.actor.id == "" {
        return None;
      }
      IndexFindsPrior(events, byIdemKey, entry.key);
      if entry.key != NoKey && entry.key in byIdemKey {
        return Some(byIdemKey[entry.key]);
      }
      var prev := GENESIS_HASH;
      if |events| > 0 {
        prev := events[|events| - 1].hash;
      }
      var e := BuildEvent(crypto, entry, signature, |events| + 1, prev, eventId);
      AppendKeepsChain(crypto, events, e);
      AppendKeepsIndex(events, byIdemKey, e);
      LogAppend(events, e);
      events := events + [e];
      if entry.key != NoKey {
        byIdemKey := byIdemKey[entry.key := e];
      }
      return Some(e);
    }

    /** Events with a number greater than the given one. */
    method Since(after: nat) returns (out: seq<Event>)
      requires Valid()
      ensures forall e :: e in out <==> e in events && e.number > after
      ensures out == events[if after <= |events| then after else |events|..]
    {
      forall i | 0 <= i < |events| ensures events[i].number == i + 1 { assert LinkOk(crypto, events, i); }
      if after >= |events| {
        return [];
      }
      return events[after..];
    }

    method ByIdemKey(key: Key) returns (r: Option<Event>)
      requires Valid()
      ensures r.Some? <==> Prior(Log(events), key).Some?
      ensures r.Some? ==> r.value in events && Prior(Log(events), key) == Some(r.value.entry)
    {
      IndexFindsPrior(events, byIdemKey, key);
      if key in byIdemKey {
        return Some(byIdemKey[key]);
      }
      return None;
    }

    /** Number and hash of the last event; number 0 on an empty journal. */
    method Head() returns (number: nat, hash: Bytes)
      requires Valid()
      ensures number == |events|
      ensures number > 0 ==> hash == events[|events| - 1].hash
    {
      if |events| == 0 {
        return 0, [];
      }
      assert LinkOk(crypto, events, |events| - 1);
      var last := events[|events| - 1];
      return last.number, last.hash;
    }
  }

  lemma AppendKeepsChain(c: Crypto, events: seq<Event>, e: Event)
    requires ChainOk(c, events)
    requires e == BuildEvent(c, e.entry, e.signature, |events| + 1, HashBefore(events, |events|), e.eventId)
    ensures ChainOk(c, events + [e])
  {
    var more := events + [e];
    forall i | 0 <= i < |more| ensures LinkOk(c, more, i) {
      assert HashBefore(more, i) == HashBefore(events, i);
      if i < |events| {
        assert LinkOk(c, events, i);
      }
    }
  }
}
