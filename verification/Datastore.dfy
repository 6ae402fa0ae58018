/** The object store of mcnode/ds.go: a map from digests to data, addressed by multihash keys. */
module Datastore {
  import opened Std

  type Bytes = seq<bv8>

  /** The hash and the key encoding, which this program only calls. */
  datatype Codec = Codec(sha256: Bytes -> Bytes, b58: Bytes -> string, unb58: string -> Option<Bytes>)

  /** What the program relies on: digests have 32 bytes, and base58 text and keys correspond. */
  ghost predicate Sound(c: Codec) {
    && (forall data :: |c.sha256(data)| == 32)
    && (forall key: Bytes :: |key| >= 2 ==> c.unb58(c.b58(key)) == Some(key))
    && (forall s :: c.unb58(s).Some? ==> |c.unb58(s).value| >= 2 && c.b58(c.unb58(s).value) == s)
  }

  const SHA2_256: bv8 := 0x12
  const DIGEST_LENGTH: bv8 := 32

  /** `Hash`: the multihash of the data. */
  function Hash(c: Codec, data: Bytes): Bytes {
    [SHA2_256, DIGEST_LENGTH] + c.sha256(data)
  }

  /** `HashFromBytes`: puts the multihash prefix back. */
  function HashFromBytes(digest: Bytes): (key: Bytes)
    ensures |key| == |digest| + 2 && key[2..] == digest
  {
    [SHA2_256, DIGEST_LENGTH] + digest
  }

  /** Stripping and restoring the prefix is the identity exactly on SHA2-256 keys of 32 bytes. */
  lemma PrefixRoundTrip(key: Bytes)
    requires |key| >= 2
    ensures HashFromBytes(key[2..]) == key <==> key[0] == SHA2_256 && key[1] == DIGEST_LENGTH
  {
    assert key == [key[0], key[1]] + key[2..];
    assert HashFromBytes(key[2..])[0] == SHA2_256 && HashFromBytes(key[2..])[1] == DIGEST_LENGTH;
  }

  /** Every stored object is stored under its own digest. */
  ghost predicate ContentAddressed(c: Codec, store: map<Bytes, Bytes>) {
    forall digest :: digest in store ==> c.sha256(store[digest]) == digest
  }

  /** A key is the digest behind the multihash code and the length of SHA2-256. */
  lemma HashDigest(c: Codec, data: Bytes)
    ensures |Hash(c, data)| >= 2 && Hash(c, data)[2..] == c.sha256(data)
    ensures Hash(c, data)[0] == 0x12 && Hash(c, data)[1] == 0x20
  {
  }

  lemma PutKeepsAddresses(c: Codec, store: map<Bytes, Bytes>, data: Bytes)
    requires ContentAddressed(c, store)
    ensures ContentAddressed(c, store[c.sha256(data) := data])
  {
  }

  /** `after` is `before` with every object of the batch under its digest, the last of those that
      share one, and nothing else changed. */
  ghost predicate Wrote(c: Codec, before: map<Bytes, Bytes>, batch: seq<Bytes>, after: map<Bytes, Bytes>) {
    && (forall i :: 0 <= i < |batch| && LastOf(c, batch, i) ==> c.sha256(batch[i]) in after && after[c.sha256(batch[i])] == batch[i])
    && (forall d :: d in before && !Batched(c, batch, d) ==> d in after && after[d] == before[d])
    && (forall d :: d in after ==> d in before || Batched(c, batch, d))
  }

  ghost predicate LastOf(c: Codec, batch: seq<Bytes>, i: nat) {
    i < |batch| && forall j :: i < j < |batch| ==> c.sha256(batch[j]) != c.sha256(batch[i])
  }

  ghost predicate Batched(c: Codec, batch: seq<Bytes>, d: Bytes) {
    exists i :: 0 <= i < |batch| && c.sha256(batch[i]) == d
  }

  lemma WroteNothing(c: Codec, store: map<Bytes, Bytes>)
    ensures Wrote(c, store, [], store)
  {
  }

  lemma {:induction false} WroteMore(c: Codec, before: map<Bytes, Bytes>, batch: seq<Bytes>, after: map<Bytes, Bytes>, data: Bytes)
    requires Wrote(c, before, batch, after)
    ensures Wrote(c, before, batch + [data], after[c.sha256(data) := data])
  {
    var more := batch + [data];
    assert more[|batch|] == data;
    forall d ensures Batched(c, more, d) <==> Batched(c, batch, d) || d == c.sha256(data) {
      if i :| 0 <= i < |batch| && c.sha256(batch[i]) == d { assert more[i] == batch[i]; }
    }
    forall i | 0 <= i < |more| && LastOf(c, more, i)
      ensures var now := after[c.sha256(data) := data]; c.sha256(more[i]) in now && now[c.sha256(more[i])] == more[i]
    {
      if i < |batch| {
        assert more[i] == batch[i] && c.sha256(more[|batch|]) != c.sha256(more[i]);
        forall j | i < j < |batch| ensures c.sha256(batch[j]) != c.sha256(batch[i]) { assert more[j] == batch[j]; }
        assert LastOf(c, batch, i);
      }
    }
  }

  class RocksDs {
    const codec: Codec
    var store: map<Bytes, Bytes>
    /** Which database calls fail for reasons outside this program, by their number. */
    const fails: nat -> bool
    var calls: nat
    /** How many objects were put. */
    ghost var puts: nat

    constructor (codec: Codec, fails: nat -> bool)
      ensures this.codec == codec && this.fails == fails && store == map[] && puts == 0
    {
      this.codec, this.fails, store, calls := codec, fails, map[], 0;
      puts := 0;
    }

    method Io() returns (bad: bool)
      modifies this`calls
      ensures calls == old(calls) + 1 && bad == fails(old(calls))
    {
      bad := fails(calls);
      calls := calls + 1;
    }

    predicate Failed(from: nat)
      reads this`calls
    {
      exists k :: from <= k < calls && fails(k)
    }

    method Put(data: Bytes) returns (key: Bytes, ok: bool)
      modifies this`store, this`calls, this`puts
      ensures key == Hash(codec, data) && old(calls) <= calls
      ensures ok ==> store == old(store)[codec.sha256(data) := data] && puts == old(puts) + 1
      ensures !ok ==> store == old(store) && puts == old(puts) && Failed(old(calls))
      ensures ContentAddressed(codec, old(store)) ==> ContentAddressed(codec, store)
    {
      key := Hash(codec, data);
      var bad := Io();
      if bad { return key, false; }
      assert key[2..] == codec.sha256(data);
      store := store[key[2..] := data];
      puts := puts + 1;
      return key, true;
    }

    /** All of the batch in one write, or none of it; other objects keep their data. */
    method PutBatch(batch: seq<Bytes>) returns (keys: seq<Bytes>, ok: bool)
      modifies this`store, this`calls
      ensures old(calls) <= calls
      ensures ok ==> |keys| == |batch| && forall i :: 0 <= i < |batch| ==> keys[i] == Hash(codec, batch[i])
      ensures ok ==> Wrote(codec, old(store), batch, store)
      ensures !ok ==> store == old(store) && Failed(old(calls))
      ensures ContentAddressed(codec, old(store)) ==> ContentAddressed(codec, store)
    {
      hide Wrote, ContentAddressed, Hash;
      var writes := store;
      keys := [];
      WroteNothing(codec, store);
      for i := 0 to |batch|
        invariant |keys| == i && calls == old(calls) && store == old(store)
        invariant forall j :: 0 <= j < i ==> keys[j] == Hash(codec, batch[j])
        invariant Wrote(codec, old(store), batch[..i], writes)
        invariant ContentAddressed(codec, old(store)) ==> ContentAddressed(codec, writes)
      {
        var key := Hash(codec, batch[i]);
        HashDigest(codec, batch[i]);
        assert batch[..i + 1] == batch[..i] + [batch[i]];
        if ContentAddressed(codec, writes) { PutKeepsAddresses(codec, writes, batch[i]); }
        WroteMore(codec, store, batch[..i], writes, batch[i]);
        writes := writes[key[2..] := batch[i]];
        keys := keys + [key];
      }
      assert batch[..|batch|] == batch;
      var bad := Io();
      if bad { return [], false; }
      store := writes;
      return keys, true;
    }

    /** Whether there is data under the key: an empty object counts as absent. */
    method Has(key: Bytes) returns (r: Result<bool, ()>)
      requires |key| >= 2
      modifies this`calls
      ensures old(calls) <= calls
      ensures r.Ok? ==> (r.value <==> key[2..] in store && store[key[2..]] != [])
      ensures r.Err? ==> Failed(old(calls))
    {
      var bad := Io();
      if bad { return Err(()); }
      return Ok(key[2..] in store && |store[key[2..]]| > 0);
    }

    method Get(key: Bytes) returns (r: Result<Option<Bytes>, ()>)
      requires |key| >= 2
      modifies this`calls
      ensures old(calls) <= calls
      ensures r.Ok? ==> r.value == if key[2..] in store then Some(store[key[2..]]) else None
      ensures r.Err? ==> Failed(old(calls))
    {
      var bad := Io();
      if bad { return Err(()); }
      return Ok(if key[2..] in store then Some(store[key[2..]]) else None);
    }

    method Delete(key: Bytes) returns (ok: bool)
      requires |key| >= 2
      modifies this`store, this`calls
      ensures old(calls) <= calls
      ensures ok ==> store == old(store) - {key[2..]}
      ensures !ok ==> store == old(store) && Failed(old(calls))
      ensures ContentAddressed(codec, old(store)) ==> ContentAddressed(codec, store)
    {
      var bad := Io();
      if bad { return false; }
      store := store - {key[2..]};
      return true;
    }

    /** The keys of a snapshot of the store, each once, with their prefix put back;
        `limit` of them when the receiver cancels after so many. */
    method IterKeys(limit: Option<nat>) returns (r: Result<seq<Bytes>, ()>)
      modifies this`calls
      ensures old(calls) <= calls
      ensures r.Err? ==> Failed(old(calls))
      ensures r.Ok? ==> Distinct(r.value) && forall key :: key in r.value ==> |key| >= 2 && key[2..] in store
      ensures r.Ok? ==> forall key :: key in r.value ==> HashFromBytes(key[2..]) == key
      ensures r.Ok? && |r.value| == |store| ==> forall d :: d in store ==> HashFromBytes(d) in r.value
      ensures r.Ok? ==> |r.value| == CutAt(limit, |store|)
    {
      var bad := Io();
      if bad { return Err(()); }
      var keys: seq<Bytes> := [];
      var rest := store.Keys;
      while rest != {} && (limit.None? || |keys| < limit.value)
        invariant rest <= store.Keys && Distinct(keys)
        invariant forall key :: key in keys ==> |key| >= 2 && key[2..] in store.Keys - rest && HashFromBytes(key[2..]) == key
        invariant forall d :: d in store.Keys - rest ==> HashFromBytes(d) in keys
        invariant |keys| + |rest| == |store| && (limit.Some? ==> |keys| <= limit.value)
        decreases |rest|
      {
        var digest :| digest in rest;
        var key := HashFromBytes(digest);
        assert key !in keys;
        keys := keys + [key];
        rest := rest - {digest};
      }
      return Ok(keys);
    }
  }
}
