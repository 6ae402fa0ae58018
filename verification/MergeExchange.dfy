/** One exchange of a merge worker with its peer: its steps refine the receive loop of
    `MergeData`, and keep account of the objects that are there. */
module MergeExchange {
  import opened Std
  import opened Datastore
  import opened MergeData
  import opened MergeStream

  // ---- A worker on its own does what doMergeDataImpl does ----

  /** A worker takes messages until it leaves the exchange; running out of them is a read error. */
  function Exchange(c: Codec, w: Worker, store: Objects, msgs: seq<DataMsg>): (r: (Worker, Objects))
    requires w.Fetching?
    decreases |msgs|
  {
    if msgs == [] then (Emitting(w.count, true), store)
    else
      var (w', store') := OnMessage(c, w, store, msgs[0]);
      if w'.Fetching? then Exchange(c, w', store', msgs[1..]) else (w', store')
  }

  lemma TableOf(c: Codec, batch: set<string>, closed: set<string>, k: string)
    ensures k in Table(c, batch) - closed <==> k in batch && k !in closed && c.unb58(k).Some?
    ensures k in Table(c, batch) ==> Some(Table(c, batch)[k]) == c.unb58(k)
    ensures Table(c, batch) - closed - {k} == Table(c, batch) - (closed + {k})
  {
  }

  /** Looking up a key adds it to those asked for exactly when the exchange of `MergeData` would ask
      for it on the store of that moment: also when an empty object is held under it. */
  lemma {:induction false} CheckAsksMissing(c: Config, s: State, i: nat, k: string, s': State)
    requires Works(c, s, Check(i, k), s') && i < |s.ws| && s.ws[i].Checking? && k in s.ws[i].batch
    requires c.codec.unb58(k).Some? && forall t :: t in Table(c.codec, s.ws[i].batch) ==> |Table(c.codec, s.ws[i].batch)[t]| >= 2
    ensures s'.ws[i].Checking? && s'.ws[i].todo == s.ws[i].todo - {k}
    ensures s'.ws[i].asked == s.ws[i].asked + if k in Missing(Table(c.codec, s.ws[i].batch), s.store) then {k} else {}
  {
    TableOf(c.codec, s.ws[i].batch, {}, k);
  }

  /** Message by message a worker stores what the receive loop stores, counts what it counts, and
      goes on to its next batch exactly when that loop ends well with all that was asked for. */
  lemma {:induction false} ExchangeReceives(c: Codec, w: Worker, store: Objects, msgs: seq<DataMsg>)
    requires w.Fetching?
    ensures var r := Receive(c, Table(c, w.batch) - w.closed, store, msgs);
      var (w', store') := Exchange(c, w, store, msgs);
      && store' == r.store
      && w' == (if r.err.None? && |w.asked| <= |w.closed| + r.count then Idle(w.count + r.count) else Emitting(w.count + r.count, true))
    decreases |msgs|
  {
    hide Hash, Receive, Table;
    var keys := Table(c, w.batch) - w.closed;
    ReceiveStops(c, keys, store, msgs);
    if msgs != [] && msgs[0].DataMsg? {
      TableOf(c, w.batch, w.closed, msgs[0].key);
      var (w', store') := OnMessage(c, w, store, msgs[0]);
      if w'.Fetching? {
        assert msgs[0].key in keys && keys[msgs[0].key] == Table(c, w.batch)[msgs[0].key];
        ReceiveTakes(c, keys, store, msgs);
        ExchangeReceives(c, w', store', msgs[1..]);
      }
    }
  }

  /** The outcome of a worker's exchange for a batch whose missing keys it asked for is that of
      `DoMergeData`. */
  lemma {:induction false} ExchangeIsMergeOutcome(c: Codec, batch: set<string>, count: nat, store: Objects, msgs: seq<DataMsg>)
    requires forall k :: k in Table(c, batch) ==> |Table(c, batch)[k]| >= 2
    ensures var asked := Missing(Table(c, batch), store);
      var o := MergeOutcome(c, Table(c, batch), store, msgs);
      var w := AfterChecking(Checking(batch, {}, asked, count));
      var (w', store') := if w.Fetching? then Exchange(c, w, store, msgs) else (w, store);
      && store' == o.store
      && w' == if o.err.None? then Idle(count + o.count) else Emitting(count + o.count, true)
  {
    hide Receive, Table;
    var asked := Missing(Table(c, batch), store);
    if asked != {} {
      ExchangeReceives(c, Fetching(batch, asked, {}, count), store, msgs);
      assert Table(c, batch) - {} == Table(c, batch);
    }
  }

  // ---- What a worker's steps keep ----

  lemma {:induction false} CheckSound(c: Codec, store: Objects, w: Worker, k: string)
    requires w.Checking? && k in w.todo && WorkerSound(c, store, w)
    ensures WorkerSound(c, store, Checking(w.batch, w.todo - {k}, if Held(c, store, k) then w.asked else w.asked + {k}, w.count))
  {
    if !Held(c, store, k) {
      assert w.asked + {k} + (w.todo - {k}) == w.asked + w.todo;
    }
  }

  lemma {:induction false} RequestSound(c: Codec, store: Objects, w: Worker)
    requires w.Checking? && w.todo == {} && WorkerSound(c, store, w)
    ensures WorkerSound(c, store, AfterChecking(w))
  {
    assert w.asked + {} == w.asked;
  }

  lemma {:induction false} MessageSound(c: Codec, store: Objects, w: Worker, msg: DataMsg)
    requires w.Fetching? && WorkerSound(c, store, w) && ContentAddressed(c, store)
    ensures var (w', store') := OnMessage(c, w, store, msg);
      WorkerSound(c, store', w') && store.Keys <= store'.Keys && ContentAddressed(c, store')
  {
    hide Progress, Hash, Table;
    if msg.DataMsg? {
      TableOf(c, w.batch, w.closed, msg.key);
      if msg.key in w.batch && msg.key !in w.closed && c.unb58(msg.key) == Some(Hash(c, msg.data)) {
        ProgressPut(c, Table(c, w.batch), w.asked, w.closed, store, msg.key, msg.data);
        PutKeepsAddresses(c, store, msg.data);
      }
    }
  }

  lemma {:induction false} SoundMonotone(c: Codec, store: Objects, store': Objects, w: Worker)
    requires WorkerSound(c, store, w) && store.Keys <= store'.Keys
    ensures WorkerSound(c, store', w)
  {
    hide Table;
  }

  /** A worker that goes on after an exchange in which only what was asked for was answered has
      all objects of its batch. */
  lemma {:induction false} BatchComplete(c: Codec, store: Objects, w: Worker, k: string)
    requires (w.Checking? && w.todo == {} && w.asked == {}) || (w.Fetching? && w.closed <= w.asked && |w.asked| <= |w.closed|)
    requires WorkerSound(c, store, w) && k in w.batch && c.unb58(k).Some?
    ensures Present(c, store, k)
  {
    TableOf(c, w.batch, {}, k);
    if w.Fetching? {
      ProgressDone(c, Table(c, w.batch), w.asked, w.closed, store);
    }
    assert k in Table(c, w.batch);
  }

  /** Every message of dataHandler, whatever its store holds, answers what was asked for. */
  lemma {:induction false} HandlerAnswersAsked(s: State, i: nat, peer: Objects, c: Codec, asked: seq<string>, j: nat)
    requires Sound(c) && i < |s.ws| && s.ws[i].Fetching? && Elements(asked) == s.ws[i].asked
    requires j < |Served(c, peer, asked)|
    ensures AnswersAsked(s, Answer(i, Served(c, peer, asked)[j]))
  {
    hide Sound, Served;
    ServedAnswersAsked(c, peer, asked);
  }
}
