/** What every run of `doMergeStream` keeps, over all interleavings and whatever peers answer. */
module MergeRuns {
  import opened Std
  import opened Statements
  import opened Batches
  import opened Datastore
  import opened Gc
  import opened Verify
  import opened MergeStream
  import opened MergeExchange

  // ---- Each part of the invariant is kept by every step ----

  /** Workers leave the producer alone. */
  lemma {:induction false} ProducerWaits(c: Config, s: State, l: Label, s': State)
    requires Works(c, s, l, s')
    ensures s' == s.(workch := s'.workch, resch := s'.resch, ws := s'.ws, store := s'.store, puts := s'.puts)
    ensures |s'.ws| == |s.ws| && |s'.workch| <= |s.workch|
  {
    hide OnMessage, Held, AfterChecking;
  }

  lemma {:induction false} ShapeKept(c: Config, s: State, l: Label, s': State)
    requires Shape(c, s) && ReportsTrue(s) && Step(c, s, l, s')
    ensures Shape(c, s')
  {
    hide Works, Produces, Inserted, ReportsTrue, Merged, ContentAddressed;
    if Works(c, s, l, s') {
      ProducerWaits(c, s, l, s');
    } else if Produces(c, s, l, s') {
      ProducerShape(c, s, l, s');
    }
  }

  lemma {:induction false} ProducerShape(c: Config, s: State, l: Label, s': State)
    requires Shape(c, s) && ReportsTrue(s) && Produces(c, s, l, s')
    ensures Shape(c, s')
  {
    hide ReportsTrue, Inserted, Accepted, Keys;
    match l {
      case Arrive(_) => ArriveShape(c, s, l, s');
      case Send => SendShape(c, s, l, s');
      case Interrupted => SendShape(c, s, l, s');
      case Cancelled => SendShape(c, s, l, s');
      case MergeDone => MergeShape(c, s, l, s');
      case _ =>
    }
  }

  lemma {:induction false} ArriveShape(c: Config, s: State, l: Label, s': State)
    requires Shape(c, s) && Produces(c, s, l, s') && l.Arrive?
    ensures Shape(c, s')
  {
    hide Accepts, Keys, Works, Merges, Sends, Inserted;
  }

  lemma {:induction false} MergeShape(c: Config, s: State, l: Label, s': State)
    requires Shape(c, s) && Produces(c, s, l, s') && l.MergeDone?
    ensures Shape(c, s')
  {
    hide Merged, IdsOf, Growth;
  }

  lemma {:induction false} SendShape(c: Config, s: State, l: Label, s': State)
    requires Shape(c, s) && ReportsTrue(s) && Produces(c, s, l, s') && (l.Send? || l.Interrupted? || l.Cancelled?)
    ensures Shape(c, s')
  {
    hide Accepts, Inserted, Merges;
    if l.Interrupted? { assert s.resch[0] in s.resch; }
  }

  /** The producer leaves the workers and the datastore alone, takes results in order, and never
      forgets a failure. */
  lemma {:induction false} WorkersWait(c: Config, s: State, l: Label, s': State)
    requires Shape(c, s) && Produces(c, s, l, s')
    ensures s'.ws == s.ws && s'.puts == s.puts && s'.store == s.store
    ensures Closed(s) ==> Closed(s') && s'.workch == s.workch
    ensures s.failed ==> s'.failed
    ensures var popped := l.Interrupted? || l.Collect?;
      && (!popped ==> s'.resch == s.resch && s'.ocount == s.ocount && s'.workers == s.workers && s'.collected == s.collected)
      && (popped ==> s.resch != [] && s'.resch == s.resch[1..] && s'.ocount == s.ocount + s.resch[0].count
                     && (s.resch[0].failed ==> s'.failed) && s'.workers + s.collected + 1 == s.workers + s'.collected)
  {
    hide Merged, IdsOf, Growth, Keys, Accepted;
  }

  /** What one step of a worker changes: itself, and what it takes from or adds to the channels. */
  lemma {:induction false} OneWorker(c: Config, s: State, l: Label, s': State)
    requires Works(c, s, l, s')
    ensures l.Take? || l.Check? || l.Request? || l.Answer? || l.Break? || l.Drain? || l.Emit?
    ensures l.i < |s.ws| == |s'.ws| && s'.ws == s.ws[l.i := s'.ws[l.i]] && !s.ws[l.i].Exited?
    ensures var w, w' := s.ws[l.i], s'.ws[l.i];
      && (w'.Exited? <==> l.Emit?)
      && (l.Emit? ==> w.Emitting? && w'.failed == w.failed && s'.resch == s.resch + [MergeResult(w.count, w.failed)])
      && (!l.Emit? ==> s'.resch == s.resch && s'.puts + w.count == s.puts + w'.count)
      && (l.Emit? ==> s'.puts == s.puts)
      && (s'.workch != s.workch ==> l.Take? && s.workch != [] && s'.workch == s.workch[1..])
      && (Reported(w) && w.failed ==> Reported(w') && w'.failed)
      && (Reported(w') && !w'.failed ==> (Reported(w) && !w.failed) || (Closed(s) && s'.workch == []))
  {
    hide Held, Hash, Table;
  }

  lemma {:induction false} OneResultKept(c: Config, s: State, l: Label, s': State)
    requires Shape(c, s) && OneResultEach(c, s) && Step(c, s, l, s')
    ensures OneResultEach(c, s')
  {
    hide Total, Works, Produces, Shape, Merged, ContentAddressed;
    if Works(c, s, l, s') {
      OneWorker(c, s, l, s');
      ProducerWaits(c, s, l, s');
      TotalUpdate(s.ws, l.i, s'.ws[l.i], Gone);
    } else if Produces(c, s, l, s') {
      WorkersWait(c, s, l, s');
    }
  }

  lemma {:induction false} ReportsKept(c: Config, s: State, l: Label, s': State)
    requires Shape(c, s) && ReportsTrue(s) && Step(c, s, l, s')
    ensures ReportsTrue(s')
  {
    hide Works, Produces, Shape, Merged, ContentAddressed;
    if Works(c, s, l, s') {
      OneWorker(c, s, l, s');
      ProducerWaits(c, s, l, s');
      forall i | 0 <= i < |s'.ws| && Reported(s'.ws[i]) && !s'.ws[i].failed ensures Closed(s) && s'.workch == [] {
        if i != l.i { assert s'.ws[i] == s.ws[i]; }
      }
    } else if Produces(c, s, l, s') {
      WorkersWait(c, s, l, s');
    }
  }

  lemma {:induction false} FailuresKept(c: Config, s: State, l: Label, s': State)
    requires Shape(c, s) && FailuresKnown(s) && Step(c, s, l, s')
    ensures FailuresKnown(s')
  {
    hide Works, Produces, Shape, Merged, ContentAddressed;
    if Works(c, s, l, s') {
      OneWorker(c, s, l, s');
      ProducerWaits(c, s, l, s');
      if l.Emit? { assert s'.resch[|s.resch|] in s'.resch; }
      forall r | r in s.resch ensures r in s'.resch {}
      forall i | 0 <= i < |s'.ws| && s'.ws[i].Exited? && s'.ws[i].failed ensures s'.failed || exists r :: r in s'.resch && r.failed {
        if i != l.i { assert s'.ws[i] == s.ws[i]; }
      }
    } else if Produces(c, s, l, s') {
      WorkersWait(c, s, l, s');
      if s'.resch != s.resch { assert s.resch == [s.resch[0]] + s'.resch; }
    }
  }

  lemma {:induction false} ConservedKept(c: Config, s: State, l: Label, s': State)
    requires Shape(c, s) && Conserved(s) && Step(c, s, l, s')
    ensures Conserved(s')
  {
    hide Total, Works, Produces, Shape, Merged, ContentAddressed;
    if Works(c, s, l, s') {
      OneWorker(c, s, l, s');
      ProducerWaits(c, s, l, s');
      TotalUpdate(s.ws, l.i, s'.ws[l.i], Carried);
      if l.Emit? { TotalSnoc(s.resch, s'.resch[|s.resch|], Reporting); }
    } else if Produces(c, s, l, s') {
      WorkersWait(c, s, l, s');
      if s.resch != [] { FirstResult(s); }
    }
  }

  lemma FirstResult(s: State)
    requires s.resch != []
    ensures Total(s.resch, Reporting) == s.resch[0].count + Total(s.resch[1..], Reporting)
  {
  }

  /** A merge inserts as many statements as it has new ids, all under ids not stored before. */
  lemma {:induction false} Grown(contents: seq<Statement>, batch: seq<Statement>)
    requires DistinctIds(contents)
    ensures contents <= Merged(contents, batch) && DistinctIds(Merged(contents, batch))
    ensures |Growth(contents, Merged(contents, batch))| == |IdsOf(batch) - IdsOf(contents)|
    ensures DistinctIds(Growth(contents, Merged(contents, batch)))
    ensures forall a, b :: a in contents && b in Growth(contents, Merged(contents, batch)) ==> a.id != b.id
  {
    hide Merged, IdsOf;
    MergedIds(contents, batch);
    MergedCount(contents, batch);
    var after := Merged(contents, batch);
    var grown := Growth(contents, after);
    assert after == contents + grown;
    forall a, b | a in contents && b in grown ensures a.id != b.id {
      var i :| 0 <= i < |contents| && contents[i] == a;
      var j :| 0 <= j < |grown| && grown[j] == b;
      assert after[i] == a && after[|contents| + j] == b;
    }
  }

  lemma {:induction false} RowsKept(c: Config, s: State, l: Label, s': State)
    requires RowsCounted(s) && Step(c, s, l, s')
    ensures RowsCounted(s')
  {
    hide Total, IdsOf, Keys, Merged, Accepts, OnMessage, Held, ContentAddressed;
    if l.Other? {
      var batch :| s'.contents == Merged(s.contents, batch);
      MergedIds(s.contents, batch);
      Extends(s.contents, s'.contents, s.rows);
    } else if l.MergeDone? {
      Grown(s.contents, s.stmts);
      var grown := Growth(s.contents, s'.contents);
      Extends(s.contents, s'.contents, s.rows);
      assert s'.contents == s.contents + grown;
    }
  }

  lemma Extends<T>(a: seq<T>, b: seq<T>, some: seq<T>)
    requires a <= b && forall x :: x in some ==> x in a
    ensures forall x :: x in some ==> x in b
  {
  }

  lemma {:induction false} WorkersSoundKept(c: Config, s: State, l: Label, s': State)
    requires WorkersSound(c, s) && Step(c, s, l, s')
    ensures WorkersSound(c, s') && s.store.Keys <= s'.store.Keys
  {
    hide Total, IdsOf, Keys, Merged, Accepts, OnMessage, Held, ContentAddressed, WorkerSound, Produces;
    if Works(c, s, l, s') {
      OneWorker(c, s, l, s');
      var w := s.ws[l.i];
      match l {
        case Take(_) => assert WorkerSound(c.codec, s.store, s'.ws[l.i]) by { TakeSound(c.codec, s.store, s.workch[0], w.count); }
        case Check(_, k) => CheckSound(c.codec, s.store, w, k);
        case Request(_) => RequestSound(c.codec, s.store, w);
        case Answer(_, msg) => MessageSound(c.codec, s.store, w, msg);
        case Break(i) => AtRest(c.codec, s.store, s'.ws[i]);
        case Drain(i) => AtRest(c.codec, s.store, s'.ws[i]);
        case Emit(i) => AtRest(c.codec, s.store, s'.ws[i]);
        case _ =>
      }
      assert WorkerSound(c.codec, s'.store, s'.ws[l.i]);
    } else {
      ProducerLeavesStore(c, s, l, s');
    }
    forall i | 0 <= i < |s'.ws| ensures WorkerSound(c.codec, s'.store, s'.ws[i]) {
      if !(Works(c, s, l, s') && i == l.i) {
        assert s'.ws[i] == s.ws[i];
        SoundMonotone(c.codec, s.store, s'.store, s.ws[i]);
      }
    }
  }

  lemma TakeSound(c: Codec, store: Objects, batch: set<string>, count: nat)
    ensures WorkerSound(c, store, Checking(batch, batch, {}, count))
  {
    assert {} + batch == batch;
  }

  lemma AtRest(c: Codec, store: Objects, w: Worker)
    requires !Busy(w)
    ensures WorkerSound(c, store, w)
  {
  }

  lemma ProducerLeavesStore(c: Config, s: State, l: Label, s': State)
    requires Step(c, s, l, s') && !Works(c, s, l, s') && ContentAddressed(c.codec, s.store)
    ensures s'.ws == s.ws
    ensures s.store.Keys <= s'.store.Keys && ContentAddressed(c.codec, s'.store)
  {
    hide Total, IdsOf, Keys, Merged, Accepts, OnMessage, Held, ContentAddressed, Works;
  }

  // ---- The statements ----

  lemma {:induction false} PrefixKept(c: Config, s: State, l: Label, s': State)
    requires Shape(c, s) && ReportsTrue(s) && VerifiedPrefix(c, s) && Step(c, s, l, s')
    ensures VerifiedPrefix(c, s')
  {
    if Works(c, s, l, s') {
      ProducerWaits(c, s, l, s');
      hide Works, Produces, Accepted;
    } else if Produces(c, s, l, s') {
      if l.Append? || l.MergeDone? || l.Arrive? {
        PrefixGrows(c, s, l, s');
      } else {
        PrefixStays(c, s, l, s');
      }
    } else {
      hide Works, Produces, Accepted, ContentAddressed, Merged;
    }
  }

  lemma {:induction false} PrefixGrows(c: Config, s: State, l: Label, s': State)
    requires Shape(c, s) && VerifiedPrefix(c, s) && Produces(c, s, l, s') && (l.Append? || l.MergeDone? || l.Arrive?)
    ensures VerifiedPrefix(c, s')
  {
    hide Merged, IdsOf, Keys, Accepts, Growth, Sends;
    if l.Append? {
      assert s'.passed + s'.stmts == (s.passed + s.stmts) + [s.pc.stmt];
    } else if l.MergeDone? {
      assert s'.passed + s'.stmts == s.passed + s.stmts;
    }
  }

  lemma {:induction false} PrefixStays(c: Config, s: State, l: Label, s': State)
    requires Shape(c, s) && ReportsTrue(s) && VerifiedPrefix(c, s) && Produces(c, s, l, s')
    requires !l.Append? && !l.MergeDone? && !l.Arrive?
    ensures VerifiedPrefix(c, s')
  {
    hide Accepted, Inserted, Keys;
    if l.Interrupted? { assert s.resch[0] in s.resch; }
  }

  lemma {:induction false} StoredKept(c: Config, s: State, l: Label, s': State)
    requires PassedStored(s) && Step(c, s, l, s')
    ensures PassedStored(s')
  {
    hide Total, IdsOf, Keys, Merged, Accepts, OnMessage, Held, ContentAddressed;
    if l.Other? {
      var batch :| s'.contents == Merged(s.contents, batch);
      MergedIds(s.contents, batch);
    } else if l.MergeDone? {
      MergedIds(s.contents, s.stmts);
      IdsOfAppend(s.passed, s.stmts);
    }
  }

  // ---- Every run ----

  lemma {:induction false} InvStart(c: Config, s: State)
    requires Init(c, s)
    ensures Inv(c, s)
  {
    TotalZero(s.ws, Gone);
    TotalZero(s.ws, Carried);
    assert IdsOf([]) == {};
    hide ContentAddressed;
  }

  lemma {:induction false} InvKept(c: Config, s: State, l: Label, s': State)
    requires Inv(c, s) && Step(c, s, l, s')
    ensures Inv(c, s')
  {
    hide Shape, OneResultEach, ReportsTrue, FailuresKnown, Conserved, RowsCounted, WorkersSound, VerifiedPrefix, PassedStored, Step;
    ShapeKept(c, s, l, s');
    OneResultKept(c, s, l, s');
    ReportsKept(c, s, l, s');
    FailuresKept(c, s, l, s');
    ConservedKept(c, s, l, s');
    RowsKept(c, s, l, s');
    WorkersSoundKept(c, s, l, s');
    PrefixKept(c, s, l, s');
    StoredKept(c, s, l, s');
  }

  /** The invariant holds in every state of every run, whatever the peers answer. */
  lemma {:induction false} EveryRun(c: Config, ss: seq<State>, ls: seq<Label>, i: nat)
    requires Runs(c, ss, ls) && i < |ss|
    ensures Inv(c, ss[i])
  {
    hide Inv, Step, Init;
    if i == 0 {
      InvStart(c, ss[0]);
    } else {
      EveryRun(c, ss, ls, i - 1);
      InvKept(c, ss[i - 1], ls[i - 1], ss[i]);
    }
  }

  // ---- The end of a run ----

  /** When the producer returns, every worker is gone and every result was consumed: exactly one
      from each. */
  lemma {:induction false} AllCollected(c: Config, s: State)
    requires Inv(c, s) && s.pc.Returned?
    ensures s.resch == [] && forall i :: 0 <= i < |s.ws| ==> s.ws[i].Exited?
  {
    hide Total;
    TotalOnes(s.ws, Gone);
  }

  /** Success or failure, the counts returned are the number of objects put by the run's workers,
      and the number of statements its batches inserted: they are stored, each under its own id. */
  lemma {:induction false} MergeConserves(c: Config, ss: seq<State>, ls: seq<Label>)
    requires Runs(c, ss, ls) && ss[|ss| - 1].pc.Returned?
    ensures var s := ss[|ss| - 1];
      s.ocount == s.puts && s.count == |s.rows| && DistinctIds(s.rows) && forall r :: r in s.rows ==> r in s.contents
  {
    var s := ss[|ss| - 1];
    EveryRun(c, ss, ls, |ss| - 1);
    AllCollected(c, s);
    hide WorkersSound, VerifiedPrefix, Runs;
    TotalZero(s.ws, Carried);
    assert Total(s.resch, Reporting) == 0;
  }

  /** Whatever arrives, the statements handed to the store are the first of the stream, and each
      of them passed the checks: none comes after one that did not. */
  lemma {:induction false} TaintedStreamsStop(c: Config, ss: seq<State>, ls: seq<Label>, i: nat, bad: nat)
    requires Runs(c, ss, ls) && i < |ss| && bad < |ss[i].heard| && !Accepted(c, ss[i].heard[bad])
    ensures |ss[i].passed| <= bad
    ensures forall j :: 0 <= j < |ss[i].passed| ==> ss[i].heard[j] == StmtVal(ss[i].passed[j])
  {
    EveryRun(c, ss, ls, i);
    PassedAccepted(c, ss[i]);
  }

  lemma {:induction false} PassedAccepted(c: Config, s: State)
    requires VerifiedPrefix(c, s)
    ensures |s.passed| <= |s.heard|
    ensures forall j :: 0 <= j < |s.passed| ==> s.heard[j] == StmtVal(s.passed[j]) && Accepted(c, s.heard[j])
  {
    hide Accepts;
    var taken := s.passed + s.stmts;
    forall j | 0 <= j < |s.passed| ensures s.heard[j] == StmtVal(s.passed[j]) && Accepted(c, s.heard[j]) {
      assert taken[j] == s.passed[j];
    }
  }

  /** Statements go to the store by 1024, and keys to a worker once there are as many; only what is
      left in the end may be fewer. */
  predicate Batched(s: State) {
    && (s.pc.Reading? || s.pc.Sending? || s.pc.Appending? ==> |s.stmts| < 1024)
    && (s.pc.Merging? ==> |s.stmts| == 1024)
    && (s.pc.Reading? || s.pc.Appending? || s.pc.Merging? ==> |s.keys| < 1024)
    && (s.pc.Sending? ==> |s.keys| >= 1024)
    && |s.stmts| <= 1024
  }

  lemma {:induction false} BatchedKept(c: Config, s: State, l: Label, s': State)
    requires Batched(s) && Step(c, s, l, s')
    ensures Batched(s')
  {
    hide Accepted, Keys, Merged, Held, OnMessage, ContentAddressed, IdsOf, Growth;
  }

  /** In every state of every run. */
  lemma {:induction false} BatchesAreFull(c: Config, ss: seq<State>, ls: seq<Label>, i: nat)
    requires Runs(c, ss, ls) && i < |ss|
    ensures Batched(ss[i])
  {
    hide Step, Batched;
    if i == 0 {
      assert Batched(ss[0]) by { NoneBatched(c, ss[0]); }
    } else {
      BatchesAreFull(c, ss, ls, i - 1);
      BatchedKept(c, ss[i - 1], ls[i - 1], ss[i]);
    }
  }

  lemma NoneBatched(c: Config, s: State)
    requires Init(c, s)
    ensures Batched(s)
  {
  }

  /** A run that has failed hands nothing more to the store and no more work to its workers. */
  lemma {:induction false} FailedRunsStop(c: Config, ss: seq<State>, ls: seq<Label>, i: nat)
    requires Runs(c, ss, ls) && i < |ls| && ss[i].failed
    ensures ss[i + 1].failed && ss[i + 1].passed == ss[i].passed && ss[i + 1].rows == ss[i].rows && ss[i + 1].count == ss[i].count
    ensures |ss[i + 1].workch| <= |ss[i].workch|
  {
    EveryRun(c, ss, ls, i);
    assert Step(c, ss[i], ls[i], ss[i + 1]);
    hide Inv, Runs, Init;
    FailedStop(c, ss[i], ls[i], ss[i + 1]);
  }

  lemma {:induction false} FailedStop(c: Config, s: State, l: Label, s': State)
    requires Shape(c, s) && Step(c, s, l, s') && s.failed
    ensures s'.failed && s'.passed == s.passed && s'.rows == s.rows && s'.count == s.count && |s'.workch| <= |s.workch|
  {
    hide Accepted, Merged, Held, OnMessage, ContentAddressed, Keys;
  }

  /** A result received before the work channel closes carries an error. */
  lemma {:induction false} EarlyResultsFail(c: Config, ss: seq<State>, ls: seq<Label>, i: nat)
    requires Runs(c, ss, ls) && i < |ls| && ls[i].Interrupted?
    ensures ss[i].resch != [] && ss[i].resch[0].failed && ss[i + 1].failed
  {
    EveryRun(c, ss, ls, i);
    assert Step(c, ss[i], ls[i], ss[i + 1]);
    hide Total, Keys, IdsOf, Merged, Accepts, WorkersSound, RowsCounted, VerifiedPrefix;
    assert ss[i].resch[0] in ss[i].resch;
  }

  // ---- When peers answer only what they are asked ----

  lemma {:induction false} ClosedAskedKept(c: Config, s: State, l: Label, s': State)
    requires AllClosedAsked(s) && Step(c, s, l, s') && AnswersAsked(s, l)
    ensures AllClosedAsked(s')
  {
    hide Total, Merged, IdsOf, Keys, Accepts, Held, ContentAddressed;
    if l.Answer? && l.msg.DataMsg? && s.ws[l.i].Fetching? { assert [l.msg][0] == l.msg; }
  }

  /** What one step of a worker does to the keys of its batch: they stay with it, or it has failed,
      or all their objects are there. */
  lemma {:induction false} WorkerKeeps(c: Config, s: State, l: Label, s': State, k: string)
    requires WorkersSound(c, s) && AllClosedAsked(s) && Works(c, s, l, s') && c.codec.unb58(k).Some?
    requires l.i < |s.ws| && Busy(s.ws[l.i]) && k in s.ws[l.i].batch
    ensures l.i < |s'.ws|
    ensures (Busy(s'.ws[l.i]) && k in s'.ws[l.i].batch) || (Reported(s'.ws[l.i]) && s'.ws[l.i].failed) || Present(c.codec, s.store, k)
  {
    hide WorkerSound, Present, Held, ContentAddressed;
    var w := s.ws[l.i];
    assert WorkerSound(c.codec, s.store, w) && ClosedAsked(w);
    if (l.Request? && w.asked == {}) || (l.Answer? && l.msg.EndMsg? && |w.asked| <= |w.closed|) {
      BatchComplete(c.codec, s.store, w, k);
    }
  }

  lemma {:induction false} CoveredKept(c: Config, s: State, l: Label, s': State, k: string)
    requires Shape(c, s) && WorkersSound(c, s) && AllClosedAsked(s) && Step(c, s, l, s') && Covered(c, s, k)
    requires c.codec.unb58(k).Some? && !s'.failed && !Lost(s')
    ensures Covered(c, s', k)
  {
    WorkersSoundKept(c, s, l, s');
    if Works(c, s, l, s') {
      OneWorker(c, s, l, s');
    } else if Produces(c, s, l, s') {
      WorkersWait(c, s, l, s');
    }
    hide Keys, Works, Produces, WorkersSound, Shape, AllClosedAsked, ContentAddressed, Merged;
    if Present(c.codec, s.store, k) {
    } else if InBatch(s, k) {
      var i :| 0 <= i < |s.ws| && Busy(s.ws[i]) && k in s.ws[i].batch;
      if Works(c, s, l, s') && l.i == i {
        WorkerKeeps(c, s, l, s', k);
      } else {
        assert s'.ws[i] == s.ws[i];
      }
    } else {
      QueuedKept(c, s, l, s', k);
    }
  }

  lemma {:induction false} QueuedKept(c: Config, s: State, l: Label, s': State, k: string)
    requires Step(c, s, l, s') && (k in s.keys || InWork(s, k)) && !s'.failed
    ensures Covered(c, s', k)
  {
    hide Total, Merged, IdsOf, Keys, Accepts, Held, OnMessage, Present, ContentAddressed;
    if InWork(s, k) {
      var i :| 0 <= i < |s.workch| && k in s.workch[i];
      if l.Take? {
        if i == 0 { assert Busy(s'.ws[l.i]) && k in s'.ws[l.i].batch; } else { assert s'.workch[i - 1] == s.workch[i]; }
      } else {
        assert s'.workch[i] == s.workch[i];
      }
    } else if l.Send? {
      assert s'.workch[|s.workch|] == s.keys;
    }
  }

  lemma {:induction false} StaysLost(c: Config, s: State, l: Label, s': State)
    requires Shape(c, s) && Step(c, s, l, s') && (s.failed || Lost(s))
    ensures s'.failed || Lost(s')
  {
    hide Works, Produces, Shape, Merged, ContentAddressed;
    if Works(c, s, l, s') {
      OneWorker(c, s, l, s');
      ProducerWaits(c, s, l, s');
    } else if Produces(c, s, l, s') {
      WorkersWait(c, s, l, s');
    }
    if Lost(s) {
      var i :| 0 <= i < |s.ws| && Reported(s.ws[i]) && s.ws[i].failed;
      assert Reported(s'.ws[i]) && s'.ws[i].failed;
    }
  }

  lemma {:induction false} NothingForgottenKept(c: Config, s: State, l: Label, s': State)
    requires Shape(c, s) && ReportsTrue(s) && WorkersSound(c, s) && AllClosedAsked(s) && NothingForgotten(c, s) && Step(c, s, l, s')
    ensures NothingForgotten(c, s')
  {
    hide Keys, Covered, Lost, Shape, ReportsTrue, WorkersSound, AllClosedAsked, Step;
    if !s'.failed && !Lost(s') {
      if s.failed || Lost(s) { StaysLost(c, s, l, s'); }
      HeardGrows(c, s, l, s');
      forall i, k | 0 <= i < |s'.heard| && s'.heard[i].StmtVal? && k in Keys(s'.heard[i].stmt) && c.codec.unb58(k).Some?
        ensures Covered(c, s', k)
      {
        if i < |s.heard| {
          assert s'.heard[i] == s.heard[i];
          CoveredKept(c, s, l, s', k);
        } else {
          Named(c, s, l, s', k);
        }
      }
    }
  }

  lemma {:induction false} HeardGrows(c: Config, s: State, l: Label, s': State)
    requires Step(c, s, l, s')
    ensures s'.heard == if l.Arrive? then s.heard + [l.v] else s.heard
  {
    hide Total, Merged, IdsOf, Keys, Accepts, Held, OnMessage, ContentAddressed;
  }

  lemma {:induction false} Named(c: Config, s: State, l: Label, s': State, k: string)
    requires Step(c, s, l, s') && !s'.failed && l.Arrive? && l.v.StmtVal? && k in Keys(l.v.stmt)
    ensures Covered(c, s', k)
  {
    hide Total, Merged, IdsOf, Keys, Accepts, Held, OnMessage, ContentAddressed;
  }

  lemma {:induction false} EveryAskedRun(c: Config, ss: seq<State>, ls: seq<Label>, i: nat)
    requires Runs(c, ss, ls) && PeersAnswerAsked(ss, ls) && i < |ss|
    ensures AllClosedAsked(ss[i]) && NothingForgotten(c, ss[i])
  {
    hide Step, AnswersAsked, AllClosedAsked, NothingForgotten;
    if i == 0 {
      StartCovered(c, ss[0]);
    } else {
      EveryAskedRun(c, ss, ls, i - 1);
      EveryRun(c, ss, ls, i - 1);
      assert Step(c, ss[i - 1], ls[i - 1], ss[i]) && AnswersAsked(ss[i - 1], ls[i - 1]);
      ClosedAskedKept(c, ss[i - 1], ls[i - 1], ss[i]);
      hide Runs, PeersAnswerAsked, Shape, ReportsTrue, WorkersSound, VerifiedPrefix;
      NothingForgottenKept(c, ss[i - 1], ls[i - 1], ss[i]);
    }
  }

  lemma StartCovered(c: Config, s: State)
    requires Init(c, s)
    ensures AllClosedAsked(s) && NothingForgotten(c, s)
  {
  }

  /** The object a key names is in the datastore, under its own hash. */
  predicate HasObject(c: Codec, store: Objects, k: string) {
    && Present(c, store, k)
    && var key := c.unb58(k).value;
       && c.sha256(store[key[2..]]) == key[2..]
       && (key[0] == SHA2_256 && key[1] == DIGEST_LENGTH ==> Hash(c, store[key[2..]]) == key)
  }

  /** Every object and dependency the statement names, at any envelope depth, is there. */
  ghost predicate HasObjects(c: Codec, store: Objects, stmt: Statement) {
    forall k :: Mentions(stmt, k) ==> HasObject(c, store, k)
  }

  /** A run that returns no error, with peers that answer only what they are asked, has stored every
      statement of the stream, each of them checked, and every object and dependency they name, at
      any envelope depth, is in the datastore under its own hash. */
  lemma {:induction false} MergeCompletes(c: Config, ss: seq<State>, ls: seq<Label>, i: nat)
    requires Runs(c, ss, ls) && PeersAnswerAsked(ss, ls)
    requires ss[|ss| - 1].pc.Returned? && !ss[|ss| - 1].failed && i < |ss[|ss| - 1].heard|
    ensures Accepted(c, ss[|ss| - 1].heard[i])
    ensures ss[|ss| - 1].heard[i].stmt.id in IdsOf(ss[|ss| - 1].contents)
    ensures HasObjects(c.codec, ss[|ss| - 1].store, ss[|ss| - 1].heard[i].stmt)
  {
    EveryRun(c, ss, ls, |ss| - 1);
    EveryAskedRun(c, ss, ls, |ss| - 1);
    hide Runs, PeersAnswerAsked, Inv, NothingForgotten, AllClosedAsked, HasObjects, IdsOf, Accepts;
    Completed(c, ss[|ss| - 1], i);
  }

  /** The same of the last state by itself. */
  lemma {:induction false} Completed(c: Config, s: State, i: nat)
    requires Inv(c, s) && NothingForgotten(c, s) && s.pc.Returned? && !s.failed && i < |s.heard|
    ensures Accepted(c, s.heard[i])
    ensures s.heard[i].stmt.id in IdsOf(s.contents)
    ensures HasObjects(c.codec, s.store, s.heard[i].stmt)
  {
    AllCollected(c, s);
    NoneLost(c, s);
    AllStored(c, s, i);
    hide Total, IdsOf, Keys, OneResultEach, Conserved, RowsCounted, VerifiedPrefix, HasObject, Covered, Lost, CheckStatement, VerifyStatement, Clean;
    forall k | Mentions(s.heard[i].stmt, k) ensures HasObject(c.codec, s.store, k) {
      NamesBodyByBody(s.heard[i].stmt, k);
      assert c.codec.unb58(k).Some?;
      assert Covered(c, s, k);
      PresentHas(c, s, k);
    }
  }

  lemma {:induction false} AllStored(c: Config, s: State, i: nat)
    requires Inv(c, s) && s.pc.Returned? && !s.failed && i < |s.heard|
    ensures Accepted(c, s.heard[i]) && s.heard[i].stmt.id in IdsOf(s.contents)
  {
    hide Total, IdsOf, OneResultEach, Conserved, RowsCounted, WorkersSound, Accepts;
    assert s.stmts == [] && s.passed + [] == s.passed;
    assert s.heard[i].stmt == s.passed[i];
    InIds(s.passed, i);
  }

  /** Whatever peers answer, a run that returns no error has checked and stored every statement of
      the stream. */
  lemma {:induction false} StatementsStored(c: Config, ss: seq<State>, ls: seq<Label>, i: nat)
    requires Runs(c, ss, ls) && ss[|ss| - 1].pc.Returned? && !ss[|ss| - 1].failed && i < |ss[|ss| - 1].heard|
    ensures Accepted(c, ss[|ss| - 1].heard[i])
    ensures ss[|ss| - 1].heard[i].stmt.id in IdsOf(ss[|ss| - 1].contents)
  {
    EveryRun(c, ss, ls, |ss| - 1);
    hide Runs, Inv, IdsOf, Accepts;
    AllStored(c, ss[|ss| - 1], i);
  }

  lemma {:induction false} PresentHas(c: Config, s: State, k: string)
    requires Covered(c, s, k) && s.keys == {} && s.workch == [] && forall i :: 0 <= i < |s.ws| ==> s.ws[i].Exited?
    requires ContentAddressed(c.codec, s.store)
    ensures HasObject(c.codec, s.store, k)
  {
    assert Present(c.codec, s.store, k);
    PrefixRoundTrip(c.codec.unb58(k).value);
  }

  lemma InIds(stmts: seq<Statement>, i: nat)
    requires i < |stmts|
    ensures stmts[i].id in IdsOf(stmts)
  {
  }

  lemma {:induction false} NoneLost(c: Config, s: State)
    requires Inv(c, s) && s.pc.Returned? && !s.failed
    requires s.resch == [] && forall i :: 0 <= i < |s.ws| ==> s.ws[i].Exited?
    ensures !Lost(s) && s.workch == []
  {
    hide Total, VerifiedPrefix, Conserved, RowsCounted, WorkersSound;
    assert s.ws[0].Exited? && !s.ws[0].failed;
  }
}
