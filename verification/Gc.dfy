/** Garbage collection (mcnode/gc.go): the keys statements name go to a temporary table,
    and the objects it does not list are deleted. */
module Gc {
  import opened Std
  import opened Statements
  import opened Datastore

  /** What a query stream delivers. */
  datatype StreamVal = StmtVal(stmt: Statement) | ErrorVal | OtherVal

  datatype GcError = IoError | StreamError | BadResult

  const BATCH := 1024

  // ---- The keys of one statement ----

  /** The keys `addKeys` collects from a statement, and whether it reached the end: an archive or
      unset body stops it, wherever it stands. */
  function Collected(stmt: Statement): (set<string>, bool)
    decreases stmt, 1
  {
    match stmt.body
    case SimpleBody(s) => (SimpleKeys(s), true)
    case CompoundBody(parts) => (KeysOf(parts), true)
    case EnvelopeBody(stmts) => CollectedAll(stmts)
    case _ => ({}, false)
  }

  function CollectedAll(stmts: seq<Statement>): (set<string>, bool)
    decreases stmts, 0
  {
    if stmts == [] then ({}, true)
    else
      var (keys, ok) := Collected(stmts[0]);
      if !ok then (keys, false)
      else (keys + CollectedAll(stmts[1..]).0, CollectedAll(stmts[1..]).1)
  }

  /** On statements without archive or unset bodies nothing is missed. */
  lemma {:induction false} CleanCollects(stmt: Statement)
    requires Clean(stmt)
    ensures Collected(stmt) == (Keys(stmt), true)
    decreases stmt, 1
  {
    match stmt.body {
      case SimpleBody(s) => OneSimple(s);
      case EnvelopeBody(stmts) => CleanCollectsAll(stmts);
      case _ =>
    }
  }

  lemma {:induction false} CleanCollectsAll(stmts: seq<Statement>)
    requires forall i :: 0 <= i < |stmts| ==> Clean(stmts[i])
    ensures CollectedAll(stmts) == (KeysOf(AllSimples(stmts)), true)
    decreases stmts, 0
  {
    hide Clean, KeysOf, Simples;
    if stmts == [] {
      NoKeys();
    } else {
      CleanCollects(stmts[0]);
      CleanCollectsAll(stmts[1..]);
      KeysOfAppend(Simples(stmts[0]), AllSimples(stmts[1..]));
    }
  }

  lemma OneSimple(s: Simple)
    ensures KeysOf([s]) == SimpleKeys(s)
  {
    assert s in [s];
  }

  lemma NoKeys()
    ensures KeysOf([]) == {}
  {
  }

  /** It reaches the end exactly when there is no archive or unset body. */
  lemma {:induction false} CollectsExactlyClean(stmt: Statement)
    ensures Collected(stmt).1 <==> Clean(stmt)
    ensures Collected(stmt).0 <= Keys(stmt)
    decreases stmt, 1
  {
    match stmt.body {
      case SimpleBody(s) => OneSimple(s);
      case EnvelopeBody(stmts) => CollectsExactlyCleanAll(stmts);
      case _ =>
    }
  }

  lemma {:induction false} CollectsExactlyCleanAll(stmts: seq<Statement>)
    ensures CollectedAll(stmts).1 <==> forall i :: 0 <= i < |stmts| ==> Clean(stmts[i])
    ensures CollectedAll(stmts).0 <= KeysOf(AllSimples(stmts))
    decreases stmts, 0
  {
    hide KeysOf, Simples, Clean, Collected;
    if stmts != [] {
      var rest := stmts[1..];
      CollectsExactlyClean(stmts[0]);
      CollectsExactlyCleanAll(rest);
      KeysOfAppend(Simples(stmts[0]), AllSimples(rest));
      if forall i :: 0 <= i < |stmts| ==> Clean(stmts[i]) {
        forall i | 0 <= i < |rest| ensures Clean(rest[i]) { assert rest[i] == stmts[i + 1]; }
      }
      if Clean(stmts[0]) && forall i :: 0 <= i < |rest| ==> Clean(rest[i]) {
        forall i | 0 <= i < |stmts| ensures Clean(stmts[i]) { if i > 0 { assert stmts[i] == rest[i - 1]; } }
      }
    }
  }

  // ---- Where collecting stops ----

  /** What stands inside a statement, in document order: its simple statements, and the archives and
      unset bodies. */
  datatype Leaf = Part(simple: Simple) | Stop

  function Leaves(stmt: Statement): seq<Leaf>
    decreases stmt, 1
  {
    match stmt.body
    case SimpleBody(s) => [Part(s)]
    case CompoundBody(parts) => seq(|parts|, i requires 0 <= i < |parts| => Part(parts[i]))
    case EnvelopeBody(stmts) => AllLeaves(stmts)
    case _ => [Stop]
  }

  function AllLeaves(stmts: seq<Statement>): seq<Leaf>
    decreases stmts, 0
  {
    if stmts == [] then [] else Leaves(stmts[0]) + AllLeaves(stmts[1..])
  }

  /** The simple statements among the leaves. */
  function PartsOf(leaves: seq<Leaf>): seq<Simple> {
    if leaves == [] then [] else (if leaves[0].Part? then [leaves[0].simple] else []) + PartsOf(leaves[1..])
  }

  /** Those before the first archive or unset body, and those behind it. */
  function InFront(leaves: seq<Leaf>): seq<Simple> {
    if leaves == [] || leaves[0].Stop? then [] else [leaves[0].simple] + InFront(leaves[1..])
  }

  function Behind(leaves: seq<Leaf>): seq<Simple> {
    if leaves == [] then [] else if leaves[0].Stop? then PartsOf(leaves[1..]) else Behind(leaves[1..])
  }

  lemma {:induction false} FrontAndBehind(leaves: seq<Leaf>)
    ensures PartsOf(leaves) == InFront(leaves) + Behind(leaves)
  {
    if leaves != [] && leaves[0].Part? {
      FrontAndBehind(leaves[1..]);
      Assoc([leaves[0].simple], InFront(leaves[1..]), Behind(leaves[1..]));
    }
  }

  lemma {:induction false} LeavesAppend(a: seq<Leaf>, b: seq<Leaf>)
    ensures PartsOf(a + b) == PartsOf(a) + PartsOf(b)
    ensures InFront(a + b) == InFront(a) + if Stop in a then [] else InFront(b)
  {
    if a == [] {
      assert a + b == b;
    } else {
      var x, t := a[0], a[1..];
      assert (a + b)[0] == x && (a + b)[1..] == t + b;
      LeavesAppend(t, b);
      StopInTail(a);
      if x.Part? {
        Assoc([x.simple], PartsOf(t), PartsOf(b));
        Assoc([x.simple], InFront(t), if Stop in t then [] else InFront(b));
      } else {
        assert [] + PartsOf(t) == PartsOf(t) && [] + PartsOf(t + b) == PartsOf(t + b);
      }
    }
  }

  lemma StopInTail(a: seq<Leaf>)
    requires a != []
    ensures Stop in a <==> a[0].Stop? || Stop in a[1..]
  {
    assert a == [a[0]] + a[1..];
  }

  lemma {:induction false} CompoundLeaves(parts: seq<Simple>, leaves: seq<Leaf>)
    requires |leaves| == |parts| && forall i :: 0 <= i < |parts| ==> leaves[i] == Part(parts[i])
    ensures PartsOf(leaves) == InFront(leaves) == parts && Stop !in leaves
  {
    if parts != [] { CompoundLeaves(parts[1..], leaves[1..]); }
  }

  /** The leaves are the simple statements inside, in order. */
  lemma {:induction false} LeavesAreSimples(stmt: Statement)
    ensures PartsOf(Leaves(stmt)) == Simples(stmt)
    decreases stmt, 1
  {
    match stmt.body {
      case CompoundBody(parts) => CompoundLeaves(parts, Leaves(stmt));
      case EnvelopeBody(stmts) => AllLeavesAreSimples(stmts);
      case _ =>
    }
  }

  lemma {:induction false} AllLeavesAreSimples(stmts: seq<Statement>)
    ensures PartsOf(AllLeaves(stmts)) == AllSimples(stmts)
    decreases stmts, 0
  {
    hide Leaves, Simples;
    if stmts != [] {
      LeavesAreSimples(stmts[0]);
      AllLeavesAreSimples(stmts[1..]);
      LeavesAppend(Leaves(stmts[0]), AllLeaves(stmts[1..]));
    }
  }

  /** `addKeys` collects what is named in front of the first archive or unset body, in document
      order and at any depth, and fails exactly when there is one. */
  lemma {:induction false} CollectsInFront(stmt: Statement)
    ensures Collected(stmt) == (KeysOf(InFront(Leaves(stmt))), Stop !in Leaves(stmt))
    decreases stmt, 1
  {
    match stmt.body {
      case SimpleBody(s) =>
        CompoundLeaves([s], [Part(s)]);
        OneSimple(s);
      case CompoundBody(parts) => CompoundLeaves(parts, Leaves(stmt));
      case EnvelopeBody(stmts) => AllCollectInFront(stmts);
      case _ => NoKeys();
    }
  }

  lemma {:induction false} AllCollectInFront(stmts: seq<Statement>)
    ensures CollectedAll(stmts) == (KeysOf(InFront(AllLeaves(stmts))), Stop !in AllLeaves(stmts))
    decreases stmts, 0
  {
    hide Leaves, Collected, KeysOf;
    if stmts == [] {
      NoKeys();
    } else {
      var a, b := Leaves(stmts[0]), AllLeaves(stmts[1..]);
      CollectsInFront(stmts[0]);
      AllCollectInFront(stmts[1..]);
      LeavesAppend(a, b);
      if Stop in a {
        assert InFront(a) + [] == InFront(a);
      } else {
        KeysOfAppend(InFront(a), InFront(b));
      }
    }
  }

  // ---- The keys of a stream ----

  function StreamKeys(stmts: seq<Statement>): set<string> {
    set i, k | 0 <= i < |stmts| && k in Collected(stmts[i]).0 :: k
  }

  lemma StreamKeysSnoc(stmts: seq<Statement>, s: Statement)
    ensures StreamKeys(stmts + [s]) == StreamKeys(stmts) + Collected(s).0
  {
    hide Collected;
    var all := stmts + [s];
    forall k ensures k in StreamKeys(all) <==> k in StreamKeys(stmts) || k in Collected(s).0 {
      if k in StreamKeys(stmts) {
        var i :| 0 <= i < |stmts| && k in Collected(stmts[i]).0;
        assert all[i] == stmts[i];
      }
      if k in Collected(s).0 { assert all[|stmts|] == s; }
    }
  }

  /** The statements a stream delivers before the first value that is not one. */
  function Delivered(stream: seq<StreamVal>): seq<Statement> {
    if stream == [] || !stream[0].StmtVal? then [] else [stream[0].stmt] + Delivered(stream[1..])
  }

  lemma {:induction false} DeliveredPrefix(stream: seq<StreamVal>, i: nat)
    requires i <= |stream| && forall j :: 0 <= j < i ==> stream[j].StmtVal?
    ensures Delivered(stream) == Delivered(stream[..i]) + Delivered(stream[i..])
    ensures i < |stream| && stream[i].StmtVal? ==> Delivered(stream[..i + 1]) == Delivered(stream[..i]) + [stream[i].stmt]
    decreases i
  {
    if i > 0 {
      DeliveredPrefix(stream[1..], i - 1);
      assert stream[..i][0] == stream[0] && stream[..i][1..] == stream[1..][..i - 1];
      assert stream[1..][i - 1..] == stream[i..];
      if i < |stream| {
        assert stream[..i + 1][1..] == stream[1..][..i] && stream[1..][i - 1] == stream[i];
      }
    } else if stream != [] && stream[0].StmtVal? {
      assert stream[..1][1..] == [];
    }
  }

  class GcDb {
    /** CREATE TABLE Refs (key PRIMARY KEY) */
    var refs: set<string>
    const fails: nat -> bool
    var calls: nat

    constructor (fails: nat -> bool)
      ensures refs == {} && this.fails == fails
    {
      refs, calls := {}, 0;
      this.fails := fails;
    }

    method Io() returns (bad: bool)
      modifies this`calls
      ensures calls == old(calls) + 1 && bad == fails(old(calls))
    {
      bad := fails(calls);
      calls := calls + 1;
    }

    predicate Failed(from: nat)
      reads this`calls
    {
      exists k :: from <= k < calls && fails(k)
    }

    /** Adds a statement's keys to the map `keys`. */
    method AddKeys(stmt: Statement, keys: set<string>) returns (keys': set<string>, ok: bool)
      ensures keys' == keys + Collected(stmt).0 && ok == Collected(stmt).1
      decreases stmt
    {
      match stmt.body {
        case SimpleBody(s) =>
          keys' := AddSimpleKeys(s, keys);
          return keys', true;
        case CompoundBody(parts) =>
          keys' := keys;
          for i := 0 to |parts|
            invariant keys' == keys + KeysOf(parts[..i])
          {
            keys' := AddSimpleKeys(parts[i], keys');
            assert parts[..i + 1] == parts[..i] + [parts[i]];
            KeysOfAppend(parts[..i], [parts[i]]);
            OneSimple(parts[i]);
          }
          assert parts[..|parts|] == parts;
          return keys', true;
        case EnvelopeBody(stmts) =>
          keys' := keys;
          for i := 0 to |stmts|
            invariant keys + CollectedAll(stmts).0 == keys' + CollectedAll(stmts[i..]).0
            invariant CollectedAll(stmts).1 == CollectedAll(stmts[i..]).1
          {
            assert stmts[i..][0] == stmts[i] && stmts[i..][1..] == stmts[i + 1..];
            keys', ok := AddKeys(stmts[i], keys');
            if !ok { return keys', false; }
          }
          return keys', true;
        case _ => return keys, false;
      }
    }

    method AddSimpleKeys(s: Simple, keys: set<string>) returns (keys': set<string>)
      ensures keys' == keys + SimpleKeys(s)
    {
      keys' := keys + {s.obj};
      for i := 0 to |s.deps|
        invariant keys' == keys + {s.obj} + set d | d in s.deps[..i]
      {
        keys' := keys' + {s.deps[i]};
        assert s.deps[..i + 1] == s.deps[..i] + [s.deps[i]];
      }
      assert s.deps[..|s.deps|] == s.deps;
    }

    /** Inserts the keys, skipping those already there; all of them or none. */
    method MergeKeys(keys: set<string>) returns (ok: bool)
      modifies this`refs, this`calls
      ensures old(calls) <= calls
      ensures ok ==> refs == old(refs) + keys
      ensures !ok ==> refs == old(refs) && Failed(old(calls))
    {
      var snapshot := refs;
      var bad := Io();
      if bad { return false; }
      var rest := keys;
      while rest != {}
        invariant rest <= keys && refs == snapshot + (keys - rest) && old(calls) <= calls
        decreases |rest|
      {
        var key :| key in rest;
        bad := Io();
        if bad {
          refs := snapshot;
          return false;
        }
        if key !in refs { refs := refs + {key}; }
        rest := rest - {key};
      }
      bad := Io();
      if bad {
        refs := snapshot;
        return false;
      }
      return true;
    }

    /** Collects the keys of a stream of statements in batches. The batches do not show: after a
        success the table holds what it held and the keys collected from every statement. */
    method Merge(stream: seq<StreamVal>) returns (r: Result<(), GcError>)
      modifies this`refs, this`calls
      ensures old(calls) <= calls
      ensures r.Ok? ==> refs == old(refs) + StreamKeys(Delivered(stream)) && |Delivered(stream)| == |stream|
      ensures r.Err? ==> refs <= old(refs) + StreamKeys(Delivered(stream))
      ensures r == Err(IoError) ==> Failed(old(calls))
      ensures r.Err? && r != Err(IoError) ==> |Delivered(stream)| < |stream|
    {
      hide Collected, CollectedAll, StreamKeys;
      var keys: set<string> := {};
      assert StreamKeys(Delivered(stream[..0])) == {} by { NoStreamKeys(); }
      for i := 0 to |stream|
        invariant forall j :: 0 <= j < i ==> stream[j].StmtVal?
        invariant |Delivered(stream[..i])| == i && old(calls) <= calls
        invariant refs + keys == old(refs) + StreamKeys(Delivered(stream[..i]))
      {
        DeliveredPrefix(stream, i);
        StreamKeysPrefix(Delivered(stream[..i]), Delivered(stream[i..]));
        match stream[i] {
          case StmtVal(stmt) =>
            var ok: bool;
            keys, ok := AddKeys(stmt, keys);
            StreamKeysSnoc(Delivered(stream[..i]), stmt);
            if |keys| >= BATCH {
              ok := MergeKeys(keys);
              if !ok {
                DeliveredPrefix(stream, i + 1);
                StreamKeysPrefix(Delivered(stream[..i + 1]), Delivered(stream[i + 1..]));
                return Err(IoError);
              }
              keys := {};
            }
          case ErrorVal => return Err(StreamError);
          case OtherVal => return Err(BadResult);
        }
      }
      assert stream[..|stream|] == stream;
      if |keys| > 0 {
        var ok := MergeKeys(keys);
        if !ok { return Err(IoError); }
      }
      return Ok(());
    }

    /** Deletes every listed object whose key is not in the table, and counts them, as far as it
        gets. A cancelled context closes the listing after `cut` keys, and that is no error. */
    method Gc(ds: RocksDs, cut: Option<nat>) returns (count: nat, ok: bool)
      requires Sound(ds.codec)
      modifies this`calls, ds`store, ds`calls
      ensures old(calls) <= calls && old(ds.calls) <= ds.calls
      ensures ds.store.Keys <= old(ds.store).Keys && count == |old(ds.store)| - |ds.store|
      ensures forall d :: d in ds.store ==> ds.store[d] == old(ds.store)[d]
      ensures forall d :: d in old(ds.store) && d !in ds.store ==> !Valid(ds.codec, refs, d)
      ensures ok ==> SweepLeaves(ds.codec, refs, cut, old(ds.store), ds.store)
      ensures ok && CutAt(cut, |old(ds.store)|) == |old(ds.store)| ==> ds.store == Survivors(ds.codec, refs, old(ds.store))
      ensures !ok ==> Failed(old(calls)) || ds.Failed(old(ds.calls))
      ensures ContentAddressed(ds.codec, old(ds.store)) ==> ContentAddressed(ds.codec, ds.store)
    {
      hide Sound, ContentAddressed, Swept, Survivors, SweepLeaves;
      count := 0;
      var keys := ds.IterKeys(cut);
      if keys.Err? { return count, false; }
      ghost var store := ds.store;
      SweepStart(ds.codec, refs, store, keys.value);
      for i := 0 to |keys.value|
        invariant old(calls) <= calls && old(ds.calls) <= ds.calls
        invariant count == |store| - |ds.store|
        invariant Swept(ds.codec, refs, store, ds.store, keys.value, i)
        invariant ContentAddressed(ds.codec, store) ==> ContentAddressed(ds.codec, ds.store)
      {
        SweepSoFar(ds.codec, refs, store, ds.store, keys.value, i);
        var key := keys.value[i];
        var bad := Io();
        if bad { return count, false; }
        SweepStep(ds.codec, refs, store, ds.store, keys.value, i);
        if ds.codec.b58(key) !in refs {
          MapWithout(ds.store, key[2..]);
          var deleted := ds.Delete(key);
          if !deleted { return count, false; }
          count := count + 1;
        }
      }
      SweepSoFar(ds.codec, refs, store, ds.store, keys.value, |keys.value|);
      SweepEnds(ds.codec, refs, cut, store, ds.store, keys.value);
      if CutAt(cut, |store|) == |store| { SweepWhole(ds.codec, refs, cut, store, ds.store); }
      return count, true;
    }
  }

  /** A sweep has looked at the first `i` keys of a listing of the store. */
  ghost predicate Swept(c: Codec, refs: set<string>, before: map<Bytes, Bytes>, now: map<Bytes, Bytes>, keys: seq<Bytes>, i: nat) {
    && i <= |keys| && Distinct(keys)
    && (forall key :: key in keys ==> |key| >= 2 && HashFromBytes(key[2..]) == key && key[2..] in before)
    && now.Keys <= before.Keys && (forall d :: d in now ==> now[d] == before[d])
    && (forall d :: d in before && d !in now ==> !Valid(c, refs, d) && HashFromBytes(d) in keys)
    && (forall j :: 0 <= j < i ==> (keys[j][2..] in now <==> Valid(c, refs, keys[j][2..])))
    && (forall j :: i <= j < |keys| ==> keys[j][2..] in now)
  }

  lemma SweepStart(c: Codec, refs: set<string>, store: map<Bytes, Bytes>, keys: seq<Bytes>)
    requires Distinct(keys) && forall key :: key in keys ==> |key| >= 2 && key[2..] in store
    requires forall key :: key in keys ==> HashFromBytes(key[2..]) == key
    ensures Swept(c, refs, store, store, keys, 0)
  {
  }

  lemma SweepSoFar(c: Codec, refs: set<string>, before: map<Bytes, Bytes>, now: map<Bytes, Bytes>, keys: seq<Bytes>, i: nat)
    requires Swept(c, refs, before, now, keys, i)
    ensures now.Keys <= before.Keys && forall d :: d in now ==> now[d] == before[d]
    ensures forall d :: d in before && d !in now ==> !Valid(c, refs, d)
    ensures i < |keys| ==> |keys[i]| >= 2 && keys[i][2..] in now
  {
  }

  /** The next key is kept or deleted, as the table says. */
  lemma {:induction false} SweepStep(c: Codec, refs: set<string>, before: map<Bytes, Bytes>, now: map<Bytes, Bytes>, keys: seq<Bytes>, i: nat)
    requires Swept(c, refs, before, now, keys, i) && i < |keys|
    ensures |keys[i]| >= 2
    ensures Swept(c, refs, before, if c.b58(keys[i]) in refs then now else now - {keys[i][2..]}, keys, i + 1)
  {
    SameDigests(keys);
    assert HashFromBytes(keys[i][2..]) == keys[i];
  }

  /** The object with this digest has its key in the table. */
  predicate Valid(c: Codec, refs: set<string>, digest: Bytes) {
    c.b58(HashFromBytes(digest)) in refs
  }

  function Survivors(c: Codec, refs: set<string>, store: map<Bytes, Bytes>): map<Bytes, Bytes> {
    map d | d in store && Valid(c, refs, d) :: store[d]
  }

  /** What is left when a sweep was given these objects. */
  function SweptOf(c: Codec, refs: set<string>, store: map<Bytes, Bytes>, given: set<Bytes>): map<Bytes, Bytes> {
    map d | d in store && (d !in given || Valid(c, refs, d)) :: store[d]
  }

  /** What a sweep may leave that was given all objects, or as many as `cut`, whichever they are. */
  ghost predicate SweepLeaves(c: Codec, refs: set<string>, cut: Option<nat>, before: map<Bytes, Bytes>, after: map<Bytes, Bytes>) {
    exists given: set<Bytes> :: given <= before.Keys && |given| == CutAt(cut, |before|) && after == SweptOf(c, refs, before, given)
  }

  lemma NoStreamKeys()
    ensures StreamKeys([]) == {}
  {
  }

  lemma StreamKeysPrefix(a: seq<Statement>, b: seq<Statement>)
    ensures StreamKeys(a) <= StreamKeys(a + b)
  {
    hide Collected;
    var all := a + b;
    forall k | k in StreamKeys(a) ensures k in StreamKeys(all) {
      var i :| 0 <= i < |a| && k in Collected(a[i]).0;
      assert all[i] == a[i];
    }
  }

  lemma SameDigests(keys: seq<Bytes>)
    requires Distinct(keys) && forall key :: key in keys ==> |key| >= 2 && HashFromBytes(key[2..]) == key
    ensures forall i, j :: 0 <= i < |keys| && 0 <= j < |keys| && i != j ==> keys[i][2..] != keys[j][2..]
  {
    forall i, j | 0 <= i < |keys| && 0 <= j < |keys| && i != j ensures keys[i][2..] != keys[j][2..] {
      assert HashFromBytes(keys[i][2..]) == keys[i] && HashFromBytes(keys[j][2..]) == keys[j];
    }
  }

  function DigestsOf(keys: seq<Bytes>): (digests: seq<Bytes>)
    ensures |digests| == |keys|
  {
    seq(|keys|, i requires 0 <= i < |keys| => if |keys[i]| >= 2 then keys[i][2..] else [])
  }

  lemma {:induction false} DigestsListed(keys: seq<Bytes>)
    requires Distinct(keys) && forall key :: key in keys ==> |key| >= 2 && HashFromBytes(key[2..]) == key
    ensures |Elements(DigestsOf(keys))| == |keys|
    ensures forall d :: d in Elements(DigestsOf(keys)) <==> HashFromBytes(d) in keys
  {
    SameDigests(keys);
    DistinctCount(DigestsOf(keys));
    forall d ensures d in DigestsOf(keys) <==> HashFromBytes(d) in keys {
      if d in DigestsOf(keys) {
        var j :| 0 <= j < |keys| && DigestsOf(keys)[j] == d;
        assert keys[j] in keys;
      }
      if HashFromBytes(d) in keys {
        var j :| 0 <= j < |keys| && keys[j] == HashFromBytes(d);
        assert DigestsOf(keys)[j] == d;
      }
    }
  }

  /** A finished sweep has removed exactly the unlisted objects among those it was given. */
  lemma {:induction false} SweepEnds(c: Codec, refs: set<string>, cut: Option<nat>, before: map<Bytes, Bytes>, after: map<Bytes, Bytes>, keys: seq<Bytes>)
    requires Swept(c, refs, before, after, keys, |keys|) && |keys| == CutAt(cut, |before|)
    ensures SweepLeaves(c, refs, cut, before, after)
  {
    DigestsListed(keys);
    hide DigestsOf, Elements, Distinct, Valid;
    var given := Elements(DigestsOf(keys));
    forall d | d in given ensures d in before { assert HashFromBytes(d) in keys; }
    forall d | d in before ensures d in after <==> d !in given || Valid(c, refs, d) {
      if HashFromBytes(d) in keys {
        var j :| 0 <= j < |keys| && keys[j] == HashFromBytes(d);
        assert keys[j][2..] == d;
      }
    }
    assert after == SweptOf(c, refs, before, given);
  }

  lemma {:induction false} SweepWhole(c: Codec, refs: set<string>, cut: Option<nat>, before: map<Bytes, Bytes>, after: map<Bytes, Bytes>)
    requires SweepLeaves(c, refs, cut, before, after) && CutAt(cut, |before|) == |before|
    ensures after == Survivors(c, refs, before)
  {
    var given :| given <= before.Keys && |given| == CutAt(cut, |before|) && after == SweptOf(c, refs, before, given);
    assert |before.Keys| == |before|;
    SubsetSameSize(given, before.Keys);
  }

  // ---- Garbage collection as a whole ----

  /** The object is named by some stored statement, at any depth. */
  ghost predicate Referenced(c: Codec, stmts: seq<Statement>, digest: Bytes) {
    exists i :: 0 <= i < |stmts| && Mentions(stmts[i], c.b58(HashFromBytes(digest)))
  }

  lemma {:induction false} MentionedKeys(stmts: seq<Statement>, k: string)
    ensures forall i :: 0 <= i < |stmts| ==> (Mentions(stmts[i], k) <==> k in Keys(stmts[i]))
  {
    forall i | 0 <= i < |stmts| ensures Mentions(stmts[i], k) <==> k in Keys(stmts[i]) { NamesBodyByBody(stmts[i], k); }
  }

  /** Collecting over clean statements keeps precisely the referenced objects. */
  lemma {:induction false} GcIsExact(c: Codec, stmts: seq<Statement>, store: map<Bytes, Bytes>)
    requires forall i :: 0 <= i < |stmts| ==> Clean(stmts[i])
    ensures var after := Survivors(c, StreamKeys(stmts), store);
      forall d :: d in after <==> d in store && Referenced(c, stmts, d)
  {
    forall i | 0 <= i < |stmts| ensures Collected(stmts[i]).0 == Keys(stmts[i]) { CleanCollects(stmts[i]); }
    hide Collected, Keys, Mentions;
    var after := Survivors(c, StreamKeys(stmts), store);
    forall d ensures d in after <==> d in store && Referenced(c, stmts, d) {
      MentionedKeys(stmts, c.b58(HashFromBytes(d)));
    }
  }

  /** On any statements, what is kept is referenced. */
  lemma {:induction false} GcKeepsOnlyReferenced(c: Codec, stmts: seq<Statement>, store: map<Bytes, Bytes>, d: Bytes)
    requires d in Survivors(c, StreamKeys(stmts), store)
    ensures Referenced(c, stmts, d)
  {
    var i :| 0 <= i < |stmts| && c.b58(HashFromBytes(d)) in Collected(stmts[i]).0;
    CollectsExactlyClean(stmts[i]);
    MentionedKeys(stmts, c.b58(HashFromBytes(d)));
  }

  /** A key under which data can be stored. */
  ghost predicate ObjectKey(c: Codec, k: string) {
    exists data :: c.b58(Hash(c, data)) == k
  }

  ghost predicate NamedInFront(stmts: seq<Statement>, k: string) {
    exists i :: 0 <= i < |stmts| && k in KeysOf(InFront(Leaves(stmts[i])))
  }

  ghost predicate NamedBehind(stmts: seq<Statement>, k: string) {
    exists i :: 0 <= i < |stmts| && k in KeysOf(Behind(Leaves(stmts[i])))
  }

  lemma {:induction false} NamedSomewhere(stmts: seq<Statement>, k: string)
    ensures (exists i :: 0 <= i < |stmts| && Mentions(stmts[i], k)) <==> NamedInFront(stmts, k) || NamedBehind(stmts, k)
    ensures k in StreamKeys(stmts) <==> NamedInFront(stmts, k)
  {
    forall i | 0 <= i < |stmts|
      ensures Mentions(stmts[i], k) <==> k in KeysOf(InFront(Leaves(stmts[i]))) || k in KeysOf(Behind(Leaves(stmts[i])))
      ensures k in Collected(stmts[i]).0 <==> k in KeysOf(InFront(Leaves(stmts[i])))
    {
      var leaves := Leaves(stmts[i]);
      NamesBodyByBody(stmts[i], k);
      LeavesAreSimples(stmts[i]);
      FrontAndBehind(leaves);
      KeysOfAppend(InFront(leaves), Behind(leaves));
      CollectsInFront(stmts[i]);
    }
    hide Keys, KeysOf, InFront, Behind, Leaves, Collected;
  }

  /** Over the statements of a store, no stored object that one of them names is ever lost, whatever
      objects there are, exactly when every object key named behind an archive or unset body is also
      named in front of the first one of some statement. */
  lemma {:induction false} GcLosesNothing(c: Codec, stmts: seq<Statement>)
    ensures (forall store: map<Bytes, Bytes>, d ::
              ContentAddressed(c, store) && d in store && Referenced(c, stmts, d) ==> d in Survivors(c, StreamKeys(stmts), store))
      <==> forall k :: ObjectKey(c, k) && NamedBehind(stmts, k) ==> NamedInFront(stmts, k)
  {
    hide Keys, StreamKeys, NamedInFront, NamedBehind;
    if k :| ObjectKey(c, k) && NamedBehind(stmts, k) && !NamedInFront(stmts, k) {
      var data :| c.b58(Hash(c, data)) == k;
      var d, store := c.sha256(data), map[c.sha256(data) := data];
      NamedSomewhere(stmts, k);
      assert HashFromBytes(d) == Hash(c, data);
      assert ContentAddressed(c, store) && d in store && Referenced(c, stmts, d) && d !in Survivors(c, StreamKeys(stmts), store);
    } else {
      forall store: map<Bytes, Bytes>, d | ContentAddressed(c, store) && d in store && Referenced(c, stmts, d)
        ensures d in Survivors(c, StreamKeys(stmts), store)
      {
        var k := c.b58(HashFromBytes(d));
        assert HashFromBytes(d) == Hash(c, store[d]);
        assert ObjectKey(c, k);
        NamedSomewhere(stmts, k);
      }
    }
  }

  /** Some statement names the key, at any depth. */
  ghost predicate Named(stmts: seq<Statement>, k: string) {
    exists i :: 0 <= i < |stmts| && Mentions(stmts[i], k)
  }

  /** A run that saw these statements, and whose listing was cut after so many keys if at all, loses
      no stored object that one of `stmts` names, whatever objects there are. */
  ghost predicate LosesNothing(c: Codec, stmts: seq<Statement>, seen: seq<Statement>, cut: Option<nat>) {
    forall store: map<Bytes, Bytes>, after: map<Bytes, Bytes>, d ::
      (ContentAddressed(c, store) && SweepLeaves(c, StreamKeys(seen), cut, store, after) && d in store && Referenced(c, stmts, d))
      ==> d in after
  }

  /** A run that did not see every statement is sure to lose nothing exactly when every object key
      that a statement names is named by one it saw, in front of the first archive or unset body, or
      when it was given no key to look at. */
  lemma {:induction false} CutShortLosesNothing(c: Codec, stmts: seq<Statement>, seen: seq<Statement>, cut: Option<nat>)
    ensures LosesNothing(c, stmts, seen, cut)
      <==> cut == Some(0) || forall k :: ObjectKey(c, k) && Named(stmts, k) ==> NamedInFront(seen, k)
  {
    hide Keys, StreamKeys, NamedInFront, Elements;
    if cut == Some(0) || forall k :: ObjectKey(c, k) && Named(stmts, k) ==> NamedInFront(seen, k) {
      forall store: map<Bytes, Bytes>, after: map<Bytes, Bytes>, d
        | ContentAddressed(c, store) && SweepLeaves(c, StreamKeys(seen), cut, store, after) && d in store && Referenced(c, stmts, d)
        ensures d in after
      {
        var k := c.b58(HashFromBytes(d));
        assert HashFromBytes(d) == Hash(c, store[d]) && ObjectKey(c, k) && Named(stmts, k);
        NamedSomewhere(seen, k);
      }
    } else {
      var k :| ObjectKey(c, k) && Named(stmts, k) && !NamedInFront(seen, k);
      NamedSomewhere(seen, k);
      var store, d := LostOne(c, stmts, seen, cut, k);
    }
  }

  /** A store with the one object of a key that no statement seen names: the sweep empties it. */
  lemma {:induction false} LostOne(c: Codec, stmts: seq<Statement>, seen: seq<Statement>, cut: Option<nat>, k: string)
    returns (store: map<Bytes, Bytes>, d: Bytes)
    requires cut != Some(0) && ObjectKey(c, k) && Named(stmts, k) && k !in StreamKeys(seen)
    ensures ContentAddressed(c, store) && SweepLeaves(c, StreamKeys(seen), cut, store, map[])
    ensures d in store && Referenced(c, stmts, d) && c.b58(HashFromBytes(d)) == k
  {
    hide Keys, StreamKeys;
    var data :| c.b58(Hash(c, data)) == k;
    d := c.sha256(data);
    store := map[d := data];
    assert HashFromBytes(d) == Hash(c, data);
    assert |store| == 1 && CutAt(cut, |store|) == 1;
    assert SweptOf(c, StreamKeys(seen), store, {d}) == map[];
  }

  /** Over clean statements: exactly when every object key named is named by a statement seen. */
  lemma {:induction false} CleanCutShort(c: Codec, stmts: seq<Statement>, seen: seq<Statement>, cut: Option<nat>)
    requires forall i :: 0 <= i < |seen| ==> Clean(seen[i])
    ensures LosesNothing(c, stmts, seen, cut) <==> cut == Some(0) || forall k :: ObjectKey(c, k) && Named(stmts, k) ==> Named(seen, k)
  {
    CutShortLosesNothing(c, stmts, seen, cut);
    forall k ensures Named(seen, k) <==> NamedInFront(seen, k) {
      NamedSomewhere(seen, k);
      CleanNamed(seen, k);
    }
    hide Named, NamedInFront, LosesNothing, ObjectKey;
  }

  lemma {:induction false} CleanNamed(stmts: seq<Statement>, k: string)
    requires forall i :: 0 <= i < |stmts| ==> Clean(stmts[i])
    ensures Named(stmts, k) <==> k in StreamKeys(stmts)
  {
    forall i | 0 <= i < |stmts| ensures Collected(stmts[i]).0 == Keys(stmts[i]) { CleanCollects(stmts[i]); }
    MentionedKeys(stmts, k);
    hide Collected, Keys, Clean, Mentions;
  }

  /** An archive in an envelope hides what comes after it: the object of the second statement
      is referenced, and is collected as garbage. */
  lemma {:induction false} ArchiveHidesSiblings(archive: Statement, named: Statement, envelope: Statement, c: Codec, d: Bytes, data: Bytes)
    requires archive.body.ArchiveBody? && named.body.SimpleBody? && envelope.body == EnvelopeBody([archive, named])
    requires named.body.simple.obj == c.b58(HashFromBytes(d))
    ensures Referenced(c, [envelope], d) && d !in Survivors(c, StreamKeys([envelope]), map[d := data])
  {
    var stmts := [archive, named];
    assert stmts[1..] == [named] && [named][1..] == [];
    assert CollectedAll(stmts) == ({}, false);
    assert Collected(envelope) == ({}, false);
    assert StreamKeys([envelope]) == {};
    assert stmts[1] == named && Mentions(named, c.b58(HashFromBytes(d)));
    assert [envelope][0] == envelope && Mentions(envelope, c.b58(HashFromBytes(d)));
  }
}
