/** Fetching missing objects from a peer (doMergeDataImpl of mcnode/proto.go) and serving them
    (dataHandler): what a merge without error guarantees, and for which peers. */
module MergeData {
  import opened Std
  import opened Statements
  import opened Datastore
  import opened Gc

  datatype DataMsg = DataMsg(key: string, data: Bytes) | EndMsg | ErrorMsg | OtherMsg

  datatype MergeError =
    | StoreError | WriteError | ReadError | UnexpectedData | BadData | RemoteError | BadReply | MissingData

  type Keys58 = map<string, Bytes>

  // ---- Which keys a statement asks for ----

  /** `mergeStatementKeys` accepts a statement when no body stops it and every key it names decodes. */
  predicate Decodes(c: Codec, keys: set<string>) {
    forall k :: k in keys ==> c.unb58(k).Some?
  }

  /** The map holds exactly these texts, each with the key it decodes to. */
  predicate Holds(c: Codec, keys: Keys58, texts: set<string>) {
    keys.Keys == texts && forall k :: k in keys ==> c.unb58(k) == Some(keys[k])
  }

  method MergeObjectKey(c: Codec, key58: string, keys: Keys58, ghost texts: set<string>) returns (keys': Keys58, ok: bool)
    requires Holds(c, keys, texts)
    ensures ok <==> key58 in texts || c.unb58(key58).Some?
    ensures ok ==> Holds(c, keys', texts + {key58})
    ensures !ok ==> keys' == keys
  {
    if key58 in keys {
      assert texts + {key58} == texts;
      return keys, true;
    }
    match c.unb58(key58) {
      case None => return keys, false;
      case Some(key) => return keys[key58 := key], true;
    }
  }

  method MergeSimpleKeys(c: Codec, s: Simple, keys: Keys58, ghost texts: set<string>) returns (keys': Keys58, ok: bool)
    requires Holds(c, keys, texts)
    ensures ok <==> Decodes(c, SimpleKeys(s) - texts)
    ensures ok ==> Holds(c, keys', texts + SimpleKeys(s))
  {
    keys', ok := MergeObjectKey(c, s.obj, keys, texts);
    if !ok { return; }
    ghost var seen := {s.obj};
    for i := 0 to |s.deps|
      invariant seen == {s.obj} + set d | d in s.deps[..i]
      invariant Holds(c, keys', texts + seen) && Decodes(c, seen - texts)
    {
      assert s.deps[..i + 1] == s.deps[..i] + [s.deps[i]];
      keys', ok := MergeObjectKey(c, s.deps[i], keys', texts + seen);
      if !ok {
        assert s.deps[i] in SimpleKeys(s) - texts;
        return;
      }
      assert texts + seen + {s.deps[i]} == texts + (seen + {s.deps[i]});
      seen := seen + {s.deps[i]};
    }
    assert s.deps[..|s.deps|] == s.deps;
    assert seen == SimpleKeys(s);
    return keys', true;
  }

  /** On a statement it accepts it collects the same keys as the garbage collector's `addKeys`:
      all the statement names, at any depth. */
  method MergeStatementKeys(c: Codec, stmt: Statement, keys: Keys58, ghost texts: set<string>)
    returns (keys': Keys58, ok: bool)
    requires Holds(c, keys, texts)
    ensures ok <==> Collected(stmt).1 && Decodes(c, Collected(stmt).0 - texts)
    ensures ok ==> Holds(c, keys', texts + Collected(stmt).0)
    decreases stmt
  {
    hide KeysOf, SimpleKeys, Holds;
    match stmt.body {
      case SimpleBody(s) => keys', ok := MergeSimpleKeys(c, s, keys, texts);
      case CompoundBody(parts) =>
        keys', ok := keys, true;
        NoKeys();
        assert texts + KeysOf(parts[..0]) == texts;
        for i := 0 to |parts|
          invariant Holds(c, keys', texts + KeysOf(parts[..i])) && Decodes(c, KeysOf(parts[..i]) - texts)
        {
          assert parts[..i + 1] == parts[..i] + [parts[i]];
          KeysOfAppend(parts[..i], [parts[i]]);
          OneSimple(parts[i]);
          keys', ok := MergeSimpleKeys(c, parts[i], keys', texts + KeysOf(parts[..i]));
          if !ok {
            KeysOfAppend(parts[..i + 1], parts[i + 1..]);
            assert parts == parts[..i + 1] + parts[i + 1..];
            return;
          }
          assert texts + KeysOf(parts[..i]) + SimpleKeys(parts[i]) == texts + KeysOf(parts[..i + 1]);
        }
        assert parts[..|parts|] == parts;
        ok := true;
      case EnvelopeBody(stmts) => keys', ok := MergeEnvelopeKeys(c, stmts, keys, texts);
      case _ => return keys, false;
    }
  }

  method MergeEnvelopeKeys(c: Codec, stmts: seq<Statement>, keys: Keys58, ghost texts: set<string>)
    returns (keys': Keys58, ok: bool)
    requires Holds(c, keys, texts)
    ensures ok <==> CollectedAll(stmts).1 && Decodes(c, CollectedAll(stmts).0 - texts)
    ensures ok ==> Holds(c, keys', texts + CollectedAll(stmts).0)
    decreases stmts
  {
    keys', ok := keys, true;
    ghost var seen: set<string> := {};
    assert texts + seen == texts;
    for i := 0 to |stmts|
      invariant Holds(c, keys', texts + seen) && Decodes(c, seen - texts)
      invariant CollectedAll(stmts).0 == seen + CollectedAll(stmts[i..]).0
      invariant CollectedAll(stmts).1 == CollectedAll(stmts[i..]).1
    {
      assert stmts[i..][0] == stmts[i] && stmts[i..][1..] == stmts[i + 1..];
      keys', ok := MergeStatementKeys(c, stmts[i], keys', texts + seen);
      if !ok { return; }
      assert texts + seen + Collected(stmts[i]).0 == texts + (seen + Collected(stmts[i]).0);
      seen := seen + Collected(stmts[i]).0;
    }
    return keys', true;
  }

  // ---- Receiving objects ----

  /** What receiving a sequence of messages does: the store, the keys still open, the number of
      objects taken, and the error. */
  datatype Received = Received(store: map<Bytes, Bytes>, keys: Keys58, count: nat, err: Option<MergeError>)

  function Receive(c: Codec, keys: Keys58, store: map<Bytes, Bytes>, msgs: seq<DataMsg>): Received {
    if msgs == [] then Received(store, keys, 0, Some(ReadError))
    else
      match msgs[0]
      case EndMsg => Received(store, keys, 0, None)
      case ErrorMsg => Received(store, keys, 0, Some(RemoteError))
      case OtherMsg => Received(store, keys, 0, Some(BadReply))
      case DataMsg(key58, data) =>
        if key58 !in keys then Received(store, keys, 0, Some(UnexpectedData))
        else if keys[key58] != Hash(c, data) then Received(store, keys, 0, Some(BadData))
        else
          var r := Receive(c, keys - {key58}, store[c.sha256(data) := data], msgs[1..]);
          r.(count := r.count + 1)
  }

  /** The keys whose objects are not held, or held empty. */
  function Missing(keys: Keys58, store: map<Bytes, Bytes>): set<string>
    requires forall k :: k in keys ==> |keys[k]| >= 2
  {
    set k | k in keys && !(keys[k][2..] in store && store[keys[k][2..]] != [])
  }

  lemma MissingNone(keys: Keys58, store: map<Bytes, Bytes>)
    requires forall k :: k in keys ==> |keys[k]| >= 2
    ensures forall k :: k in keys && k !in Missing(keys, store) ==> keys[k][2..] in store
    ensures Missing(keys, store) == {} ==> Complete(keys, store)
  {
  }

  /** A merge of the missing keys with a peer that answers by `msgs`. */
  function MergeOutcome(c: Codec, keys: Keys58, store: map<Bytes, Bytes>, msgs: seq<DataMsg>): Received
    requires forall k :: k in keys ==> |keys[k]| >= 2
  {
    var missing := Missing(keys, store);
    if missing == {} then Received(store, keys, 0, None)
    else
      var r := Receive(c, keys, store, msgs);
      if r.err.None? && r.count < |missing| then r.(err := Some(MissingData)) else r
  }

  /** Every key has its object in the store. */
  predicate Complete(keys: Keys58, store: map<Bytes, Bytes>)
    requires forall k :: k in keys ==> |keys[k]| >= 2
  {
    forall k :: k in keys ==> keys[k][2..] in store
  }

  /** Objects are only added, under their own hash; each one taken closes one key. */
  lemma {:induction false} ReceiveKeeps(c: Codec, keys: Keys58, store: map<Bytes, Bytes>, msgs: seq<DataMsg>)
    ensures var r := Receive(c, keys, store, msgs);
      && store.Keys <= r.store.Keys
      && (ContentAddressed(c, store) ==> ContentAddressed(c, r.store))
      && r.keys.Keys <= keys.Keys && |r.keys| + r.count == |keys|
      && forall k :: k in keys && k !in r.keys ==> |keys[k]| >= 2 && keys[k][2..] in r.store
    decreases |msgs|
  {
    hide ContentAddressed, Hash, Receive;
    ReceiveStops(c, keys, store, msgs);
    if msgs != [] && msgs[0].DataMsg? && msgs[0].key in keys && keys[msgs[0].key] == Hash(c, msgs[0].data) {
      var key58, data := msgs[0].key, msgs[0].data;
      var rest, store' := keys - {key58}, store[c.sha256(data) := data];
      HashDigest(c, data);
      MapWithout(keys, key58);
      ReceiveKeeps(c, rest, store', msgs[1..]);
      if ContentAddressed(c, store) { PutKeepsAddresses(c, store, data); }
      var r := Receive(c, rest, store', msgs[1..]);
      assert c.sha256(data) in store'.Keys;
      forall k | k in keys && k !in r.keys ensures |keys[k]| >= 2 && keys[k][2..] in r.store {
        if k != key58 { assert k in rest; }
      }
      ReceiveTakes(c, keys, store, msgs);
    }
  }

  lemma ReceiveTakes(c: Codec, keys: Keys58, store: map<Bytes, Bytes>, msgs: seq<DataMsg>)
    requires msgs != [] && msgs[0].DataMsg? && msgs[0].key in keys && keys[msgs[0].key] == Hash(c, msgs[0].data)
    ensures var r := Receive(c, keys - {msgs[0].key}, store[c.sha256(msgs[0].data) := msgs[0].data], msgs[1..]);
      Receive(c, keys, store, msgs) == r.(count := r.count + 1)
  {
  }

  /** The first `n` messages are objects of different keys of the map, each under the hash of its
      data, and then comes the end message. */
  ghost predicate AnswersWell(c: Codec, keys: Keys58, msgs: seq<DataMsg>, n: nat) {
    && n < |msgs| && msgs[n].EndMsg?
    && (forall i :: 0 <= i < n ==> msgs[i].DataMsg? && msgs[i].key in keys && keys[msgs[i].key] == Hash(c, msgs[i].data))
    && (forall i, j :: 0 <= i < j < n ==> msgs[i].key != msgs[j].key)
  }

  /** Receiving ends without error exactly when the peer answers so, with as many objects as the
      messages before the end. */
  lemma {:induction false} ReceivesExactly(c: Codec, keys: Keys58, store: map<Bytes, Bytes>, msgs: seq<DataMsg>)
    ensures Receive(c, keys, store, msgs).err.None? <==> exists n: nat :: AnswersWell(c, keys, msgs, n)
    ensures forall n: nat :: AnswersWell(c, keys, msgs, n) ==> Receive(c, keys, store, msgs).count == n
    decreases |msgs|
  {
    ReceiveStops(c, keys, store, msgs);
    if msgs != [] && msgs[0].DataMsg? && msgs[0].key in keys && keys[msgs[0].key] == Hash(c, msgs[0].data) {
      var k, rest := msgs[0].key, msgs[1..];
      ReceivesExactly(c, keys - {k}, store[c.sha256(msgs[0].data) := msgs[0].data], rest);
      ReceiveTakes(c, keys, store, msgs);
      hide Receive, Hash, AnswersWell;
      forall n: nat ensures AnswersWell(c, keys, msgs, n + 1) <==> AnswersWell(c, keys - {k}, rest, n) {
        OneAnswerMore(c, keys, msgs, n);
      }
      forall n: nat | AnswersWell(c, keys, msgs, n) ensures n > 0 && AnswersWell(c, keys - {k}, rest, n - 1) {
        NoEndYet(c, keys, msgs, n);
        assert AnswersWell(c, keys, msgs, (n - 1) + 1);
      }
    } else {
      forall n: nat | AnswersWell(c, keys, msgs, n) ensures n == 0 && msgs[0].EndMsg? {}
      if msgs != [] && msgs[0].EndMsg? { assert AnswersWell(c, keys, msgs, 0); }
    }
  }

  lemma NoEndYet(c: Codec, keys: Keys58, msgs: seq<DataMsg>, n: nat)
    requires AnswersWell(c, keys, msgs, n) && msgs[0].DataMsg?
    ensures n > 0
  {
  }

  lemma {:induction false} OneAnswerMore(c: Codec, keys: Keys58, msgs: seq<DataMsg>, n: nat)
    requires msgs != [] && msgs[0].DataMsg? && msgs[0].key in keys && keys[msgs[0].key] == Hash(c, msgs[0].data)
    ensures AnswersWell(c, keys, msgs, n + 1) <==> AnswersWell(c, keys - {msgs[0].key}, msgs[1..], n)
  {
    hide Hash;
    var k, rest := msgs[0].key, msgs[1..];
    if AnswersWell(c, keys, msgs, n + 1) {
      forall i | 0 <= i < n ensures rest[i].DataMsg? && rest[i].key in keys - {k} && (keys - {k})[rest[i].key] == Hash(c, rest[i].data) {
        assert rest[i] == msgs[i + 1] && msgs[0].key != msgs[i + 1].key;
      }
      forall i, j | 0 <= i < j < n ensures rest[i].key != rest[j].key { assert msgs[i + 1].key != msgs[j + 1].key; }
    }
    if AnswersWell(c, keys - {k}, rest, n) {
      forall i | 0 <= i < n + 1 ensures msgs[i].DataMsg? && msgs[i].key in keys && keys[msgs[i].key] == Hash(c, msgs[i].data) {
        if i > 0 { assert msgs[i] == rest[i - 1]; }
      }
      forall i, j | 0 <= i < j < n + 1 ensures msgs[i].key != msgs[j].key {
        assert msgs[j] == rest[j - 1];
        if i > 0 { assert msgs[i] == rest[i - 1]; }
      }
    }
  }

  /** The messages name only keys that were asked for. */
  predicate AnswersOnly(msgs: seq<DataMsg>, asked: set<string>) {
    forall i :: 0 <= i < |msgs| && msgs[i].DataMsg? ==> msgs[i].key in asked
  }

  lemma {:induction false} AnswersClose(c: Codec, keys: Keys58, store: map<Bytes, Bytes>, msgs: seq<DataMsg>, asked: set<string>)
    requires AnswersOnly(msgs, asked)
    ensures forall k :: k in keys && k !in asked ==> k in Receive(c, keys, store, msgs).keys
    decreases |msgs|
  {
    if msgs != [] && msgs[0].DataMsg? && msgs[0].key in keys && keys[msgs[0].key] == Hash(c, msgs[0].data) {
      assert msgs[0].key in asked;
      forall i | 0 <= i < |msgs[1..]| && msgs[1..][i].DataMsg? ensures msgs[1..][i].key in asked {
        assert msgs[1..][i] == msgs[i + 1];
      }
      AnswersClose(c, keys - {msgs[0].key}, store[c.sha256(msgs[0].data) := msgs[0].data], msgs[1..], asked);
    }
  }

  /** The keys closed are as many as the objects taken. */
  lemma {:induction false} ClosedCount(c: Codec, keys: Keys58, store: map<Bytes, Bytes>, msgs: seq<DataMsg>)
    ensures var r := Receive(c, keys, store, msgs); |keys.Keys - r.keys.Keys| == r.count
  {
    ReceiveKeeps(c, keys, store, msgs);
    hide Receive, ContentAddressed;
    var r := Receive(c, keys, store, msgs);
    assert keys.Keys == (keys.Keys - r.keys.Keys) + r.keys.Keys;
    assert |keys.Keys| == |keys| && |r.keys.Keys| == |r.keys|;
  }

  /** A peer that answers only what it was asked: no error means nothing is missing. */
  lemma {:induction false} AskedOnlyCompletes(c: Codec, keys: Keys58, store: map<Bytes, Bytes>, msgs: seq<DataMsg>)
    requires forall k :: k in keys ==> |keys[k]| >= 2
    requires AnswersOnly(msgs, Missing(keys, store)) && MergeOutcome(c, keys, store, msgs).err.None?
    ensures Complete(keys, MergeOutcome(c, keys, store, msgs).store)
  {
    var asked, r := Missing(keys, store), Receive(c, keys, store, msgs);
    if asked != {} {
      ReceiveKeeps(c, keys, store, msgs);
      ClosedCount(c, keys, store, msgs);
      AnswersClose(c, keys, store, msgs, asked);
      hide Receive, ContentAddressed, AnswersOnly;
      SubsetSameSize(keys.Keys - r.keys.Keys, asked);
    }
  }

  // ---- The peer ----

  lemma SoundKey(c: Codec, text: string)
    requires Sound(c)
    ensures c.unb58(text).Some? ==> |c.unb58(text).value| >= 2
  {
  }

  /** What dataHandler sends for one request. */
  function Served(c: Codec, store: map<Bytes, Bytes>, asked: seq<string>): seq<DataMsg>
    requires Sound(c)
  {
    if asked == [] then [EndMsg]
    else
      SoundKey(c, asked[0]);
      hide Sound;
      match c.unb58(asked[0])
      case None => [ErrorMsg]
      case Some(key) =>
        (if key[2..] in store then [DataMsg(asked[0], store[key[2..]])] else []) + Served(c, store, asked[1..])
  }

  /** Objects, and then exactly one end or error message. */
  predicate EndsOnce(msgs: seq<DataMsg>) {
    && msgs != [] && (msgs[|msgs| - 1].EndMsg? || msgs[|msgs| - 1].ErrorMsg?)
    && forall i :: 0 <= i < |msgs| - 1 ==> msgs[i].DataMsg?
  }

  /** One request served from the object store. */
  method DataHandler(ds: RocksDs, asked: seq<string>) returns (msgs: seq<DataMsg>)
    requires Sound(ds.codec)
    modifies ds`calls
    ensures old(ds.calls) <= ds.calls
    ensures !ds.Failed(old(ds.calls)) ==> msgs == Served(ds.codec, ds.store, asked)
    ensures AnswersOnly(msgs, Elements(asked)) && EndsOnce(msgs)
    ensures msgs[|msgs| - 1] == ErrorMsg ==> ds.Failed(old(ds.calls)) || exists k :: k in asked && ds.codec.unb58(k).None?
  {
    hide Sound, AnswersOnly, Served;
    msgs := [];
    NoAnswers(Elements(asked));
    assert asked[0..] == asked && [] + Served(ds.codec, ds.store, asked) == Served(ds.codec, ds.store, asked);
    for i := 0 to |asked|
      invariant old(ds.calls) <= ds.calls
      invariant !ds.Failed(old(ds.calls)) ==> Served(ds.codec, ds.store, asked) == msgs + Served(ds.codec, ds.store, asked[i..])
      invariant AnswersOnly(msgs, Elements(asked)) && forall j :: 0 <= j < |msgs| ==> msgs[j].DataMsg?
    {
      assert asked[i..][0] == asked[i] && asked[i..][1..] == asked[i + 1..];
      ServedStep(ds.codec, ds.store, asked[i..]);
      ServedMore(msgs, asked, i);
      SoundKey(ds.codec, asked[i]);
      match ds.codec.unb58(asked[i]) {
        case None => return msgs + [ErrorMsg];
        case Some(key) =>
          var data := ds.Get(key);
          match data {
            case Err(_) => return msgs + [ErrorMsg];
            case Ok(None) =>
              assert [] + Served(ds.codec, ds.store, asked[i + 1..]) == Served(ds.codec, ds.store, asked[i + 1..]);
            case Ok(Some(d)) =>
              Assoc(msgs, [DataMsg(asked[i], d)], Served(ds.codec, ds.store, asked[i + 1..]));
              msgs := msgs + [DataMsg(asked[i], d)];
          }
      }
    }
    assert asked[|asked|..] == [];
    ServedStep(ds.codec, ds.store, []);
    ServedEnd(msgs, Elements(asked));
    return msgs + [EndMsg];
  }

  lemma NoAnswers(asked: set<string>)
    ensures AnswersOnly([], asked)
  {
  }

  lemma ServedEnd(msgs: seq<DataMsg>, asked: set<string>)
    requires AnswersOnly(msgs, asked)
    ensures AnswersOnly(msgs + [EndMsg], asked)
  {
  }

  lemma ServedMore(msgs: seq<DataMsg>, asked: seq<string>, i: nat)
    requires i < |asked| && AnswersOnly(msgs, Elements(asked))
    ensures AnswersOnly(msgs + [ErrorMsg], Elements(asked))
    ensures forall d :: AnswersOnly(msgs + [DataMsg(asked[i], d)], Elements(asked))
  {
  }

  lemma ServedStep(c: Codec, store: map<Bytes, Bytes>, asked: seq<string>)
    requires Sound(c)
    ensures asked == [] ==> Served(c, store, asked) == [EndMsg]
    ensures asked != [] && c.unb58(asked[0]).None? ==> Served(c, store, asked) == [ErrorMsg]
    ensures asked != [] && c.unb58(asked[0]).Some? ==> var key := c.unb58(asked[0]).value;
      |key| >= 2 && Served(c, store, asked)
        == (if key[2..] in store then [DataMsg(asked[0], store[key[2..]])] else []) + Served(c, store, asked[1..])
  {
    if asked != [] { SoundKey(c, asked[0]); }
    hide Sound;
  }

  lemma {:induction false} ServedAnswersAsked(c: Codec, store: map<Bytes, Bytes>, asked: seq<string>)
    requires Sound(c)
    ensures AnswersOnly(Served(c, store, asked), Elements(asked))
  {
    hide Sound;
    if asked != [] && c.unb58(asked[0]).Some? {
      ServedAnswersAsked(c, store, asked[1..]);
      var rest := Served(c, store, asked[1..]);
      forall i | 0 <= i < |rest| && rest[i].DataMsg? ensures rest[i].key in asked {
        assert rest[i].key in asked[1..];
      }
    }
  }

  /** With a peer that follows dataHandler, whatever it holds, no error means nothing is missing. */
  lemma {:induction false} HonestPeerCompletes(c: Codec, keys: Keys58, store: map<Bytes, Bytes>, peer: map<Bytes, Bytes>, asked: seq<string>)
    requires Sound(c) && forall k :: k in keys ==> |keys[k]| >= 2
    requires Elements(asked) == Missing(keys, store)
    requires MergeOutcome(c, keys, store, Served(c, peer, asked)).err.None?
    ensures Complete(keys, MergeOutcome(c, keys, store, Served(c, peer, asked)).store)
  {
    ServedAnswersAsked(c, peer, asked);
    AskedOnlyCompletes(c, keys, store, Served(c, peer, asked));
  }

  /** The objects a peer holds of those asked for, in order. */
  function HeldOf(c: Codec, peer: map<Bytes, Bytes>, asked: seq<string>): (msgs: seq<DataMsg>)
    ensures |msgs| <= |asked|
    ensures |msgs| == |asked| <==> forall i :: 0 <= i < |asked| ==> Holding(c, peer, asked[i])
    ensures forall i :: 0 <= i < |msgs| ==> msgs[i].DataMsg? && msgs[i].key in asked && Holding(c, peer, msgs[i].key)
    ensures forall i :: 0 <= i < |msgs| ==> msgs[i].data == peer[c.unb58(msgs[i].key).value[2..]]
  {
    if asked == [] then []
    else
      var rest := HeldOf(c, peer, asked[1..]);
      assert asked == [asked[0]] + asked[1..];
      (if Holding(c, peer, asked[0]) then [DataMsg(asked[0], peer[c.unb58(asked[0]).value[2..]])] else []) + rest
  }

  predicate Holding(c: Codec, peer: map<Bytes, Bytes>, k: string) {
    c.unb58(k).Some? && |c.unb58(k).value| >= 2 && c.unb58(k).value[2..] in peer
  }

  lemma {:induction false} ServesHeld(c: Codec, peer: map<Bytes, Bytes>, asked: seq<string>)
    requires Sound(c) && forall i :: 0 <= i < |asked| ==> c.unb58(asked[i]).Some?
    ensures Served(c, peer, asked) == HeldOf(c, peer, asked) + [EndMsg]
  {
    hide Sound;
    ServedStep(c, peer, asked);
    if asked != [] {
      ServesHeld(c, peer, asked[1..]);
      var first := if Holding(c, peer, asked[0]) then [DataMsg(asked[0], peer[c.unb58(asked[0]).value[2..]])] else [];
      Assoc(first, HeldOf(c, peer, asked[1..]), [EndMsg]);
    }
  }

  lemma {:induction false} HeldDiffer(c: Codec, peer: map<Bytes, Bytes>, asked: seq<string>)
    requires Distinct(asked)
    ensures forall i, j :: 0 <= i < j < |HeldOf(c, peer, asked)| ==> HeldOf(c, peer, asked)[i].key != HeldOf(c, peer, asked)[j].key
  {
    if asked != [] {
      HeldDiffer(c, peer, asked[1..]);
      var rest := HeldOf(c, peer, asked[1..]);
      forall i | 0 <= i < |rest| ensures rest[i].key != asked[0] {
        var j :| 0 <= j < |asked[1..]| && asked[1..][j] == rest[i].key;
        assert asked[j + 1] == rest[i].key;
      }
    }
  }

  /** Every key is a SHA2-256 multihash, and the one its text decodes to. */
  predicate Plainly(c: Codec, keys: Keys58) {
    forall k :: k in keys ==> |keys[k]| >= 2 && keys[k][0] == SHA2_256 && keys[k][1] == DIGEST_LENGTH && c.unb58(k) == Some(keys[k])
  }

  lemma {:induction false} ServedWell(c: Codec, keys: Keys58, peer: map<Bytes, Bytes>, asked: seq<string>)
    requires Sound(c) && ContentAddressed(c, peer) && Plainly(c, keys)
    requires Distinct(asked) && Elements(asked) <= keys.Keys
    ensures AnswersWell(c, keys, Served(c, peer, asked), |HeldOf(c, peer, asked)|)
  {
    var msgs, held := Served(c, peer, asked), HeldOf(c, peer, asked);
    forall i | 0 <= i < |asked| ensures asked[i] in keys && c.unb58(asked[i]).Some? { assert asked[i] in Elements(asked); }
    ServesHeld(c, peer, asked);
    HeldDiffer(c, peer, asked);
    hide Sound, HeldOf, Served;
    forall i | 0 <= i < |held| ensures msgs[i] == held[i] && msgs[i].key in keys && keys[msgs[i].key] == Hash(c, msgs[i].data) {
      assert held[i].key in Elements(asked);
      PrefixRoundTrip(keys[held[i].key]);
    }
  }

  /** All that is asked for is held, or less is sent. */
  lemma {:induction false} AllHeld(c: Codec, keys: Keys58, peer: map<Bytes, Bytes>, asked: seq<string>)
    requires Plainly(c, keys) && Elements(asked) <= keys.Keys
    ensures |HeldOf(c, peer, asked)| == |asked| <==> forall k :: k in Elements(asked) ==> keys[k][2..] in peer
  {
    hide HeldOf;
    forall i | 0 <= i < |asked| ensures Holding(c, peer, asked[i]) <==> keys[asked[i]][2..] in peer { assert asked[i] in Elements(asked); }
  }

  /** A peer that follows dataHandler over objects stored under their digests: the merge ends without
      error exactly when that peer holds every missing object. */
  lemma {:induction false} HonestPeerDelivers(c: Codec, keys: Keys58, store: map<Bytes, Bytes>, peer: map<Bytes, Bytes>, asked: seq<string>)
    requires Sound(c) && ContentAddressed(c, peer) && Plainly(c, keys)
    requires Distinct(asked) && Elements(asked) == Missing(keys, store)
    ensures MergeOutcome(c, keys, store, Served(c, peer, asked)).err.None? <==> forall k :: k in Missing(keys, store) ==> keys[k][2..] in peer
  {
    ServedWell(c, keys, peer, asked);
    AllHeld(c, keys, peer, asked);
    DistinctCount(asked);
    ReceivesExactly(c, keys, store, Served(c, peer, asked));
    hide Receive, AnswersWell, HeldOf, Served, Sound, ContentAddressed, Missing, Elements;
  }

  // ---- Any peer ----

  /** A key some data hashes to. */
  ghost predicate Genuine(c: Codec, key: Bytes) {
    exists data :: Hash(c, data) == key
  }

  /** Messages that answer these keys, and then end. */
  lemma {:induction false} AnswerAll(c: Codec, keys: Keys58, store: map<Bytes, Bytes>, answered: set<string>) returns (msgs: seq<DataMsg>)
    requires answered <= keys.Keys && forall k :: k in answered ==> Genuine(c, keys[k])
    ensures Receive(c, keys, store, msgs).err == None && Receive(c, keys, store, msgs).count == |answered|
    ensures forall d :: d in Receive(c, keys, store, msgs).store ==> d in store || exists k :: k in answered && |keys[k]| >= 2 && keys[k][2..] == d
    decreases |answered|
  {
    if answered == {} {
      msgs := [EndMsg];
    } else {
      var k :| k in answered;
      var data :| Hash(c, data) == keys[k];
      assert keys[k][2..] == c.sha256(data);
      var rest := AnswerAll(c, keys - {k}, store[c.sha256(data) := data], answered - {k});
      msgs := [DataMsg(k, data)] + rest;
      assert msgs[1..] == rest;
    }
  }

  /** The keys a peer can answer without sending the object of `lost`. */
  ghost function Besides(c: Codec, keys: Keys58, lost: string): set<string>
    requires lost in keys && forall k :: k in keys ==> |keys[k]| >= 2
  {
    set k | k in keys && keys[k][2..] != keys[lost][2..] && Genuine(c, keys[k])
  }

  /** A missing object can stay missing: there are as many other keys that data hashes to, held or
      not, as are asked for. */
  ghost predicate Foolable(c: Codec, keys: Keys58, store: map<Bytes, Bytes>)
    requires forall k :: k in keys ==> |keys[k]| >= 2
  {
    exists lost :: lost in keys && keys[lost][2..] !in store && |Besides(c, keys, lost)| >= |Missing(keys, store)|
  }

  /** No error means nothing missing whatever the peer answers, exactly when no missing object can be
      made up for: a peer may answer a key that was already held instead of a missing one, and the
      count does not tell them apart. */
  lemma {:induction false} AnyPeerCompletes(c: Codec, keys: Keys58, store: map<Bytes, Bytes>)
    requires forall k :: k in keys ==> |keys[k]| >= 2
    ensures (forall msgs :: MergeOutcome(c, keys, store, msgs).err.None? ==> Complete(keys, MergeOutcome(c, keys, store, msgs).store))
      <==> !Foolable(c, keys, store)
  {
    if Foolable(c, keys, store) {
      var msgs := FoolingPeer(c, keys, store);
    } else {
      forall msgs | MergeOutcome(c, keys, store, msgs).err.None? ensures Complete(keys, MergeOutcome(c, keys, store, msgs).store) {
        if !Complete(keys, MergeOutcome(c, keys, store, msgs).store) { FooledIsFoolable(c, keys, store, msgs); }
      }
    }
  }

  /** Answering other keys in place of a missing one. */
  lemma {:induction false} FoolingPeer(c: Codec, keys: Keys58, store: map<Bytes, Bytes>) returns (msgs: seq<DataMsg>)
    requires (forall k :: k in keys ==> |keys[k]| >= 2) && Foolable(c, keys, store)
    ensures MergeOutcome(c, keys, store, msgs).err.None? && !Complete(keys, MergeOutcome(c, keys, store, msgs).store)
  {
    var lost :| lost in keys && keys[lost][2..] !in store && |Besides(c, keys, lost)| >= |Missing(keys, store)|;
    assert lost in Missing(keys, store);
    var answered := Besides(c, keys, lost);
    msgs := AnswerAll(c, keys, store, answered);
    hide Receive, Genuine, Missing;
  }

  /** The keys closed are genuine, and their objects there. */
  lemma {:induction false} ClosedGenuine(c: Codec, keys: Keys58, store: map<Bytes, Bytes>, msgs: seq<DataMsg>)
    ensures forall k :: k in keys && k !in Receive(c, keys, store, msgs).keys ==> Genuine(c, keys[k])
    decreases |msgs|
  {
    if msgs != [] && msgs[0].DataMsg? && msgs[0].key in keys && keys[msgs[0].key] == Hash(c, msgs[0].data) {
      var key58, data := msgs[0].key, msgs[0].data;
      var rest := keys - {key58};
      ClosedGenuine(c, rest, store[c.sha256(data) := data], msgs[1..]);
      assert Genuine(c, keys[key58]);
      hide Genuine, Hash;
      forall k | k in keys && k !in Receive(c, keys, store, msgs).keys ensures Genuine(c, keys[k]) {
        if k != key58 { assert k in rest && rest[k] == keys[k]; }
      }
    }
  }

  lemma {:induction false} FooledIsFoolable(c: Codec, keys: Keys58, store: map<Bytes, Bytes>, msgs: seq<DataMsg>)
    requires forall k :: k in keys ==> |keys[k]| >= 2
    requires MergeOutcome(c, keys, store, msgs).err.None? && !Complete(keys, MergeOutcome(c, keys, store, msgs).store)
    ensures Foolable(c, keys, store)
  {
    MissingNone(keys, store);
    var r := Receive(c, keys, store, msgs);
    var lost :| lost in keys && keys[lost][2..] !in MergeOutcome(c, keys, store, msgs).store;
    assert r.count >= |Missing(keys, store)| && keys[lost][2..] !in r.store;
    hide Receive, Missing, MergeOutcome;
    ReceiveKeeps(c, keys, store, msgs);
    hide ContentAddressed;
    ManyBesides(c, keys, store, msgs, lost);
    assert keys[lost][2..] !in store;
  }

  lemma {:induction false} ManyBesides(c: Codec, keys: Keys58, store: map<Bytes, Bytes>, msgs: seq<DataMsg>, lost: string)
    requires lost in keys && (forall k :: k in keys ==> |keys[k]| >= 2) && keys[lost][2..] !in Receive(c, keys, store, msgs).store
    ensures |Besides(c, keys, lost)| >= Receive(c, keys, store, msgs).count
  {
    ReceiveKeeps(c, keys, store, msgs);
    ClosedCount(c, keys, store, msgs);
    ClosedGenuine(c, keys, store, msgs);
    hide Receive, Genuine, ContentAddressed;
    var r, others := Receive(c, keys, store, msgs), Besides(c, keys, lost);
    var closed := keys.Keys - r.keys.Keys;
    forall k | k in closed ensures k in others { assert keys[k][2..] in r.store; }
    assert others == closed + (others - closed);
  }

  lemma SizeWithout<T>(s: set<T>, x: T)
    requires x in s
    ensures |s - {x}| == |s| - 1
  {
    assert s == s - {x} + {x};
  }

  /** For different keys that data hashes to: exactly when some object is missing and not every key
      is asked for. */
  lemma {:induction false} FoolableGenuine(c: Codec, keys: Keys58, store: map<Bytes, Bytes>)
    requires Sound(c) && Holds(c, keys, keys.Keys) && forall k :: k in keys ==> |keys[k]| >= 2 && Genuine(c, keys[k])
    ensures Foolable(c, keys, store) <==> !Complete(keys, store) && Missing(keys, store) != keys.Keys
  {
    ProperSize(Missing(keys, store), keys.Keys);
    if !Complete(keys, store) {
      var lost :| lost in keys && keys[lost][2..] !in store;
      AllBesides(c, keys, lost);
      hide Besides, Sound, Holds, Genuine, Missing;
    }
    if Foolable(c, keys, store) {
      var lost :| lost in keys && keys[lost][2..] !in store && |Besides(c, keys, lost)| >= |Missing(keys, store)|;
      AllBesides(c, keys, lost);
      hide Besides, Sound, Holds, Genuine, Missing;
    }
  }

  lemma ProperSize<T>(a: set<T>, b: set<T>)
    requires a <= b
    ensures a != b <==> |a| < |b|
  {
    if |a| >= |b| { SubsetSameSize(a, b); }
    assert b == a + (b - a);
  }

  lemma {:induction false} AllBesides(c: Codec, keys: Keys58, lost: string)
    requires Sound(c) && Holds(c, keys, keys.Keys) && lost in keys && forall k :: k in keys ==> |keys[k]| >= 2 && Genuine(c, keys[k])
    ensures |Besides(c, keys, lost)| == |keys.Keys| - 1
  {
    forall k | k in keys && k != lost ensures keys[k][2..] != keys[lost][2..] { DifferentDigests(c, keys, k, lost); }
    hide Sound, Holds, Genuine;
    assert Besides(c, keys, lost) == keys.Keys - {lost};
    SizeWithout(keys.Keys, lost);
  }

  /** Keys that data hashes to differ only in their digests. */
  lemma DifferentDigests(c: Codec, keys: Keys58, k: string, k': string)
    requires Sound(c) && Holds(c, keys, keys.Keys) && k in keys && k' in keys && k != k'
    requires |keys[k]| >= 2 && |keys[k']| >= 2 && Genuine(c, keys[k]) && Genuine(c, keys[k'])
    ensures keys[k][2..] != keys[k'][2..]
  {
    assert c.b58(keys[k]) == k && c.b58(keys[k']) == k';
    assert keys[k] == HashFromBytes(keys[k][2..]) && keys[k'] == HashFromBytes(keys[k'][2..]);
  }

  // ---- The method ----

  /** Asks a peer for the keys whose objects are missing and stores what it sends, checking each
      hash. `reply` is what the peer sends for a request. When the database does not fail the
      outcome is `MergeOutcome`; in every case the count is the number of objects put. */
  method DoMergeData(ds: RocksDs, keys58: Keys58, reply: seq<string> -> seq<DataMsg>, writeFails: bool)
    returns (count: nat, err: Option<MergeError>, asked: seq<string>)
    requires Sound(ds.codec) && forall k :: k in keys58 ==> |keys58[k]| >= 2
    modifies ds`store, ds`calls, ds`puts
    ensures old(ds.calls) <= ds.calls
    ensures ds.puts == old(ds.puts) + count
    ensures old(ds.store).Keys <= ds.store.Keys
    ensures ContentAddressed(ds.codec, old(ds.store)) ==> ContentAddressed(ds.codec, ds.store)
    ensures !ds.Failed(old(ds.calls)) ==> Elements(asked) == Missing(keys58, old(ds.store)) && Distinct(asked)
    ensures !ds.Failed(old(ds.calls)) && !(writeFails && asked != []) ==>
      var o := MergeOutcome(ds.codec, keys58, old(ds.store), reply(asked));
      ds.store == o.store && count == o.count && err == o.err
    ensures !ds.Failed(old(ds.calls)) && writeFails && asked != [] ==> count == 0 && err == Some(WriteError) && ds.store == old(ds.store)
    ensures err.None? && AnswersOnly(reply(asked), Elements(asked)) ==> Complete(keys58, ds.store)
  {
    hide Sound;
    count := 0;
    var readOk: bool;
    asked, readOk := AskFor(ds, keys58);
    if !readOk { return 0, Some(StoreError), asked; }
    DistinctCount(asked);
    if |asked| == 0 {
      assert Elements(asked) == {};
      MissingNone(keys58, ds.store);
      return 0, None, asked;
    }
    if writeFails { return 0, Some(WriteError), asked; }
    MissingNone(keys58, ds.store);
    assert Progress(ds.codec, keys58, Elements(asked), {}, ds.store);
    count, err := ReceiveLoop(ds, keys58, reply(asked), Elements(asked), |asked|);
    if err.None? && count < |asked| { return count, Some(MissingData), asked; }
  }

  lemma OneMore(asked: seq<string>, key58: string)
    requires Distinct(asked) && key58 !in Elements(asked)
    ensures Distinct(asked + [key58]) && Elements(asked + [key58]) == Elements(asked) + {key58}
  {
  }

  /** The keys without an object, in some order. */
  method AskFor(ds: RocksDs, keys58: Keys58) returns (asked: seq<string>, ok: bool)
    requires forall k :: k in keys58 ==> |keys58[k]| >= 2
    modifies ds`calls
    ensures old(ds.calls) <= ds.calls
    ensures ok ==> Elements(asked) == Missing(keys58, ds.store) && Distinct(asked)
    ensures !ok ==> ds.Failed(old(ds.calls))
  {
    asked := [];
    var rest := keys58.Keys;
    ghost var missing := Missing(keys58, ds.store);
    assert Elements(asked) == missing - rest;
    while rest != {}
      invariant rest <= keys58.Keys && old(ds.calls) <= ds.calls
      invariant Distinct(asked) && Elements(asked) == missing - rest
      decreases |rest|
    {
      var key58 :| key58 in rest;
      var have := ds.Has(keys58[key58]);
      if have.Err? { return asked, false; }
      assert have.value <==> key58 !in missing;
      hide Missing;
      if !have.value {
        OneMore(asked, key58);
        asked := asked + [key58];
      }
      assert missing - (rest - {key58}) == if have.value then missing - rest else missing - rest + {key58};
      rest := rest - {key58};
    }
    assert missing - {} == missing;
    return asked, true;
  }

  /** How far a receive loop has come: the keys closed, one for each object put. */
  ghost predicate Progress(c: Codec, keys58: Keys58, asked: set<string>, closed: set<string>, store: map<Bytes, Bytes>) {
    && closed <= keys58.Keys
    && forall k :: k in keys58 && (k in closed || k !in asked) ==> |keys58[k]| >= 2 && keys58[k][2..] in store
  }

  lemma ProgressPut(c: Codec, keys58: Keys58, asked: set<string>, closed: set<string>, store: map<Bytes, Bytes>, k: string, data: Bytes)
    requires Progress(c, keys58, asked, closed, store) && k in keys58 && keys58[k] == Hash(c, data)
    ensures Progress(c, keys58, asked, closed + {k}, store[c.sha256(data) := data])
    ensures keys58 - closed - {k} == keys58 - (closed + {k})
  {
    HashDigest(c, data);
    hide Hash;
  }

  lemma ProgressDone(c: Codec, keys58: Keys58, asked: set<string>, closed: set<string>, store: map<Bytes, Bytes>)
    requires Progress(c, keys58, asked, closed, store) && closed <= asked && |asked| <= |closed|
    ensures (forall k :: k in keys58 ==> |keys58[k]| >= 2) && Complete(keys58, store)
  {
    SubsetSameSize(closed, asked);
  }

  /** The receive loop: as `Receive` says while the store does not fail. */
  method ReceiveLoop(ds: RocksDs, keys58: Keys58, msgs: seq<DataMsg>, ghost asked: set<string>, wanted: nat)
    returns (count: nat, err: Option<MergeError>)
    requires wanted == |asked| && Progress(ds.codec, keys58, asked, {}, ds.store)
    requires forall k :: k in keys58 ==> |keys58[k]| >= 2
    modifies ds`store, ds`calls, ds`puts
    ensures old(ds.calls) <= ds.calls && ds.puts == old(ds.puts) + count
    ensures old(ds.store).Keys <= ds.store.Keys
    ensures ContentAddressed(ds.codec, old(ds.store)) ==> ContentAddressed(ds.codec, ds.store)
    ensures !ds.Failed(old(ds.calls)) ==>
      var r := Receive(ds.codec, keys58, old(ds.store), msgs);
      ds.store == r.store && count == r.count && err == r.err
    ensures err.None? && AnswersOnly(msgs, asked) && wanted <= count ==> Complete(keys58, ds.store)
  {
    hide ContentAddressed, Complete, Progress, Hash, AnswersOnly, Receive;
    var keys := keys58;
    count := 0;
    var i := 0;
    ghost var closed: set<string> := {};
    assert keys58 - closed == keys58;
    while i < |msgs|
      invariant i <= |msgs| && old(ds.calls) <= ds.calls && ds.puts == old(ds.puts) + count
      invariant old(ds.store).Keys <= ds.store.Keys
      invariant ContentAddressed(ds.codec, old(ds.store)) ==> ContentAddressed(ds.codec, ds.store)
      invariant keys == keys58 - closed && |closed| == count
      invariant Progress(ds.codec, keys58, asked, closed, ds.store)
      invariant AnswersOnly(msgs, asked) ==> closed <= asked
      invariant !ds.Failed(old(ds.calls)) ==>
        var all := Receive(ds.codec, keys58, old(ds.store), msgs);
        var rest := Receive(ds.codec, keys, ds.store, msgs[i..]);
        all.store == rest.store && all.count == count + rest.count && all.err == rest.err
      decreases |msgs| - i
    {
      assert msgs[i..][0] == msgs[i] && msgs[i..][1..] == msgs[i + 1..];
      ReceiveStops(ds.codec, keys, ds.store, msgs[i..]);
      match msgs[i] {
        case EndMsg =>
          if AnswersOnly(msgs, asked) && wanted <= count {
            ProgressDone(ds.codec, keys58, asked, closed, ds.store);
          }
          return count, None;
        case ErrorMsg => return count, Some(RemoteError);
        case OtherMsg => return count, Some(BadReply);
        case DataMsg(key58, data) =>
          if key58 !in keys { return count, Some(UnexpectedData); }
          if keys[key58] != Hash(ds.codec, data) { return count, Some(BadData); }
          ReceiveTakes(ds.codec, keys, ds.store, msgs[i..]);
          ProgressPut(ds.codec, keys58, asked, closed, ds.store, key58, data);
          AnswerAsked(msgs, asked, i);
          var _, ok := ds.Put(data);
          if !ok { return count, Some(StoreError); }
          keys := keys - {key58};
          closed := closed + {key58};
          count := count + 1;
      }
      i := i + 1;
    }
    assert msgs[i..] == [];
    ReceiveStops(ds.codec, keys, ds.store, []);
    return count, Some(ReadError);
  }

  lemma AnswerAsked(msgs: seq<DataMsg>, asked: set<string>, i: nat)
    requires i < |msgs| && msgs[i].DataMsg?
    ensures AnswersOnly(msgs, asked) ==> msgs[i].key in asked
  {
  }

  lemma ReceiveStops(c: Codec, keys: Keys58, store: map<Bytes, Bytes>, msgs: seq<DataMsg>)
    ensures msgs == [] ==> Receive(c, keys, store, msgs) == Received(store, keys, 0, Some(ReadError))
    ensures msgs != [] && !msgs[0].DataMsg? ==> Receive(c, keys, store, msgs) == Received(store, keys, 0,
      if msgs[0].EndMsg? then None else if msgs[0].ErrorMsg? then Some(RemoteError) else Some(BadReply))
    ensures msgs != [] && msgs[0].DataMsg? && msgs[0].key !in keys ==>
      Receive(c, keys, store, msgs) == Received(store, keys, 0, Some(UnexpectedData))
    ensures msgs != [] && msgs[0].DataMsg? && msgs[0].key in keys && keys[msgs[0].key] != Hash(c, msgs[0].data) ==>
      Receive(c, keys, store, msgs) == Received(store, keys, 0, Some(BadData))
  {
    hide Hash;
  }
}
