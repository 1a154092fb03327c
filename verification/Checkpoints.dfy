/** Checkpoints: the node signs the head of the chain, and a verified checkpoint pins the prefix it seals. */
module Checkpoints {
  import opened Values
  import opened Journal
  import opened EventStore

  /** The bytes of "kalita-checkpoint-v1". */
  const SEAL_DOMAIN: Bytes := [107,97,108,105,116,97,45,99,104,101,99,107,112,111,105,110,116,45,118,49]

  const UINT64_LIMIT: nat := 0x1_0000_0000_0000_0000

  /** The low `size` bytes of n, most significant first. */
  function BigEndian(n: nat, size: nat): (r: Bytes)
    ensures |r| == size
    decreases size
  {
    if size == 0 then [] else BigEndian(n / 256, size - 1) + [(n % 256) as byte]
  }

  function Pow256(k: nat): (r: nat)
    ensures r > 0
  {
    if k == 0 then 1 else 256 * Pow256(k - 1)
  }

  lemma {:induction false} BigEndianInjective(m: nat, n: nat, size: nat)
    requires m < Pow256(size) && n < Pow256(size) && BigEndian(m, size) == BigEndian(n, size)
    ensures m == n
    decreases size
  {
    if size > 0 {
      var a, b := BigEndian(m, size), BigEndian(n, size);
      assert a[size - 1] == (m % 256) as byte && b[size - 1] == (n % 256) as byte;
      assert a[..size - 1] == BigEndian(m / 256, size - 1) && b[..size - 1] == BigEndian(n / 256, size - 1);
      BigEndianInjective(m / 256, n / 256, size - 1);
    }
  }

  /** What the node key signs: domain, sequence number, hash. */
  function SealMessage(number: nat, hash: Bytes): Bytes {
    SEAL_DOMAIN + BigEndian(number, 8) + hash
  }

  /** A signed message names one sequence number and one hash. */
  lemma SealMessageInjective(m: nat, g: Bytes, n: nat, h: Bytes)
    requires m < UINT64_LIMIT && n < UINT64_LIMIT && SealMessage(m, g) == SealMessage(n, h)
    ensures m == n && g == h
  {
    var d := |SEAL_DOMAIN|;
    assert SealMessage(m, g)[d..d + 8] == BigEndian(m, 8) && SealMessage(n, h)[d..d + 8] == BigEndian(n, 8);
    assert SealMessage(m, g)[d + 8..] == g && SealMessage(n, h)[d + 8..] == h;
    assert Pow256(8) == UINT64_LIMIT by {
      assert Pow256(4) == 0x1_0000_0000;
    }
    BigEndianInjective(m, n, 8);
  }

  function SignatureOf(e: Event): Bytes {
    if e.signature.Some? then e.signature.value else []
  }

  /** Signs the current head and appends the checkpoint; an empty journal has nothing to seal. */
  method Seal(s: MemStore, nodeId: string, now: int, eventId: string) returns (r: Option<Event>)
    requires s.Valid()
    modifies s
    ensures s.Valid()
    ensures r.None? <==> old(s.events) == [] || nodeId == ""
    ensures r.None? ==> s.events == old(s.events)
    ensures r.Some? ==>
      && s.events == old(s.events) + [r.value]
      && var head := old(s.events)[|old(s.events)| - 1];
         && r.value.entry.body == CheckpointSealed(|old(s.events)|, head.hash)
         && r.value.signature == Some(s.crypto.sign(SealMessage(|old(s.events)|, head.hash)))
  {
    var number, hash := s.Head();
    if number == 0 {
      return None;
    }
    var signature := s.crypto.sign(SealMessage(number, hash));
    var entry := Entry(Actor(System, nodeId, "", map[]), NO_SUBJECT, CheckpointSealed(number, hash), None, 0, NoKey,
      now);
    r := s.Append(entry, Some(signature), eventId);
  }

  // ---- verification -----------------------------------------------------------------

  function HashBySeq(events: seq<Event>): map<nat, Bytes> {
    if events == [] then map[]
    else
      var last := events[|events| - 1];
      HashBySeq(events[..|events| - 1])[last.number := last.hash]
  }

  predicate CheckpointOk(c: Crypto, hashes: map<nat, Bytes>, e: Event) {
    e.entry.body.CheckpointSealed? ==>
      var k, h := e.entry.body.sealedSeq, e.entry.body.sealedHash;
      k < e.number && k in hashes && hashes[k] == h && c.verify(SealMessage(k, h), SignatureOf(e))
  }

  ghost predicate CheckpointsOk(c: Crypto, events: seq<Event>) {
    forall i :: 0 <= i < |events| ==> CheckpointOk(c, HashBySeq(events), events[i])
  }

  ghost predicate HasCheckpoint(events: seq<Event>) {
    exists i :: 0 <= i < |events| && events[i].entry.body.CheckpointSealed?
  }

  datatype CheckpointError = FutureSeq(number: nat) | MissingSeq(number: nat) | HashDiffers(number: nat)
                           | BadSignature(number: nat) | NoCheckpoints

  method CheckOne(c: Crypto, hashes: map<nat, Bytes>, e: Event) returns (err: Option<CheckpointError>)
    ensures err.None? <==> CheckpointOk(c, hashes, e)
    ensures err != Some(NoCheckpoints)
  {
    if !e.entry.body.CheckpointSealed? { return None; }
    var k, h := e.entry.body.sealedSeq, e.entry.body.sealedHash;
    if k >= e.number { return Some(FutureSeq(e.number)); }
    if k !in hashes { return Some(MissingSeq(e.number)); }
    if hashes[k] != h { return Some(HashDiffers(e.number)); }
    if !c.verify(SealMessage(k, h), SignatureOf(e)) { return Some(BadSignature(e.number)); }
    return None;
  }

  method IndexHashes(events: seq<Event>) returns (hashes: map<nat, Bytes>)
    ensures hashes == HashBySeq(events)
  {
    hashes := map[];
    for i := 0 to |events|
      invariant hashes == HashBySeq(events[..i])
    {
      assert events[..i + 1][..i] == events[..i];
      hashes := hashes[events[i].number := events[i].hash];
    }
    assert events[..|events|] == events;
  }

  /** Checks every checkpoint in the journal; a journal without any is an error. */
  method VerifyCheckpoints(c: Crypto, events: seq<Event>) returns (err: Option<CheckpointError>)
    ensures err.None? <==> CheckpointsOk(c, events) && HasCheckpoint(events)
    ensures err == Some(NoCheckpoints) <==> !HasCheckpoint(events)
  {
    var hashes := IndexHashes(events);
    var checked := false;
    for i := 0 to |events|
      invariant forall j :: 0 <= j < i ==> CheckpointOk(c, hashes, events[j])
      invariant checked ==> HasCheckpoint(events)
      invariant !checked ==> forall j :: 0 <= j < i ==> !events[j].entry.body.CheckpointSealed?
    {
      var e := events[i];
      var broken := CheckOne(c, hashes, e);
      if broken.Some? {
        assert !CheckpointOk(c, hashes, events[i]);
        return broken;
      }
      checked := checked || e.entry.body.CheckpointSealed?;
    }
    return if checked then None else Some(NoCheckpoints);
  }

  lemma {:induction false} HashBySeqOfChain(c: Crypto, events: seq<Event>)
    requires ChainOk(c, events)
    ensures forall k :: k in HashBySeq(events) <==> 1 <= k <= |events|
    ensures forall k :: 1 <= k <= |events| ==> HashBySeq(events)[k] == events[k - 1].hash
  {
    if events != [] {
      var n := |events| - 1;
      assert ChainOk(c, events[..n]) by {
        forall i | 0 <= i < n ensures LinkOk(c, events[..n], i) { assert LinkOk(c, events, i); }
      }
      HashBySeqOfChain(c, events[..n]);
      assert LinkOk(c, events, n);
    }
  }

  /** A verified checkpoint of number k pins the first k events: any other journal that verifies and
      carries the sealed hash at k agrees with this one on them, or a digest collision is exhibited. */
  lemma CheckpointPinsPrefix(c: Crypto, original: seq<Event>, journal: seq<Event>, at: nat, k: nat)
    requires ValidCrypto(c) && ChainOk(c, original) && ChainOk(c, journal) && CheckpointsOk(c, journal)
    requires at < |journal| && journal[at].entry.body.CheckpointSealed? && journal[at].entry.body.sealedSeq == k
    requires 0 < k <= |original| && original[k - 1].hash == journal[at].entry.body.sealedHash
    ensures k <= at
    ensures (forall i :: 0 <= i < k ==> SameHashed(original[i], journal[i]))
         || (exists i :: 0 <= i < k && CollisionAt(c, original, journal, i))
  {
    HashBySeqOfChain(c, journal);
    assert CheckpointOk(c, HashBySeq(journal), journal[at]);
    assert LinkOk(c, journal, at);
    TamperEvidence(c, original, journal, k);
  }

  /** Appending keeps every checkpoint valid, when the new event is a seal of the head or no checkpoint at all. */
  lemma AppendKeepsCheckpoints(c: Crypto, events: seq<Event>, e: Event)
    requires ValidCrypto(c) && ChainOk(c, events) && CheckpointsOk(c, events)
    requires e == BuildEvent(c, e.entry, e.signature, |events| + 1, HashBefore(events, |events|), e.eventId)
    requires e.entry.body.CheckpointSealed? ==>
      && events != []
      && e.entry.body == CheckpointSealed(|events|, events[|events| - 1].hash)
      && e.signature == Some(c.sign(SealMessage(|events|, events[|events| - 1].hash)))
    ensures ChainOk(c, events + [e]) && CheckpointsOk(c, events + [e])
  {
    var more := events + [e];
    AppendKeepsChain(c, events, e);
    HashBySeqOfChain(c, events);
    HashBySeqOfChain(c, more);
    forall i | 0 <= i < |more| ensures CheckpointOk(c, HashBySeq(more), more[i]) {
      if i < |events| {
        assert CheckpointOk(c, HashBySeq(events), events[i]);
        assert LinkOk(c, events, i);
      }
    }
  }
}
