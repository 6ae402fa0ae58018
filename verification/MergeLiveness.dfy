/** `doMergeStream` always ends: it is never stuck, and each of its steps uses something up. */
module MergeLiveness {
  import opened Std
  import opened Statements
  import opened Batches
  import opened Datastore
  import opened Gc
  import opened MergeData
  import opened Verify
  import opened MergeStream
  import opened MergeRuns

  // ---- Never stuck ----

  /** Steps the run takes by itself: no failure, no cancellation, nothing others do. A message of
      a peer, or the next of the stream or its end, is waited for. */
  predicate Own(l: Label) { !l.Other? && !l.Cancelled? && !l.Break? && !l.MergeFailed? }

  ghost predicate CanStep(c: Config, s: State) {
    exists l: Label, s': State :: Own(l) && Step(c, s, l, s')
  }

  /** A worker that has not left can always move, provided its peer answers: only an idle one with
      nothing to take has to wait for the channel to close. */
  lemma {:induction false} WorkerMoves(c: Config, s: State, i: nat)
    requires Shape(c, s) && i < |s.ws| && !s.ws[i].Exited? && |s.resch| < c.n
    requires s.ws[i].Idle? ==> s.workch != [] || Closed(s)
    ensures CanStep(c, s)
  {
    hide Shape, Produces, OthersWrite, Held, OnMessage;
    var w := s.ws[i];
    match w {
      case Idle(count) =>
        if s.workch != [] {
          var s' := s.(workch := s.workch[1..], ws := s.ws[i := Checking(s.workch[0], s.workch[0], {}, count)]);
          assert Step(c, s, Take(i), s');
        } else {
          assert Step(c, s, Drain(i), s.(ws := s.ws[i := Emitting(count, false)]));
        }
      case Checking(batch, todo, asked, count) =>
        if k :| k in todo {
          var asked' := if Held(c.codec, s.store, k) then asked else asked + {k};
          assert Step(c, s, Check(i, k), s.(ws := s.ws[i := Checking(batch, todo - {k}, asked', count)]));
        } else {
          assert Step(c, s, Request(i), s.(ws := s.ws[i := AfterChecking(w)]));
        }
      case Fetching(_, _, _, _) =>
        var (w', store) := OnMessage(c.codec, w, s.store, EndMsg);
        var s' := s.(store := store, puts := s.puts + if w'.Fetching? then 1 else 0, ws := s.ws[i := w']);
        assert Step(c, s, Answer(i, EndMsg), s');
      case Emitting(count, failed) =>
        var s' := s.(resch := s.resch + [MergeResult(count, failed)], ws := s.ws[i := Exited(failed)]);
        assert Step(c, s, Emit(i), s');
    }
  }

  /** While results are still owed and none waits, some worker has not left. */
  lemma {:induction false} SomeoneLeft(c: Config, s: State) returns (i: nat)
    requires Shape(c, s) && OneResultEach(c, s) && s.resch == [] && s.collected < s.workers
    ensures i < |s.ws| && !s.ws[i].Exited?
  {
    hide Total;
    TotalOnes(s.ws, Gone);
    i :| 0 <= i < |s.ws| && Gone(s.ws[i]) != 1;
  }

  lemma {:induction false} SendMoves(c: Config, s: State)
    requires Inv(c, s) && Sends(s)
    ensures CanStep(c, s)
  {
    hide Works, OthersWrite, Inserted, Accepted, Keys, Shape, OneResultEach;
    if Room(c, s) {
      assert Step(c, s, Send, s.(workch := s.workch + [s.keys], keys := {}, pc := AfterSend(s)));
    } else if s.resch != [] {
      var s' := Consumed(s).(failed := s.resch[0].failed, workers := OneFewer(s.workers), pc := AfterStop(s));
      assert Step(c, s, Interrupted, s');
    } else {
      // a full channel and no result: all workers are still there, and there is work for an idle one
      AllOwed(c, s);
      var i := SomeoneLeft(c, s);
      WorkerMoves(c, s, i);
    }
  }

  lemma AllOwed(c: Config, s: State)
    requires Shape(c, s) && Sends(s)
    ensures c.n > 0 && s.collected < s.workers && (!Room(c, s) ==> s.workch != [])
  {
  }

  lemma {:induction false} CollectMoves(c: Config, s: State)
    requires Inv(c, s) && s.pc.Collecting?
    ensures CanStep(c, s)
  {
    hide Works, OthersWrite, Inserted, Accepted, Keys, OneResultEach, VerifiedPrefix, WorkersSound, RowsCounted, Conserved;
    if s.collected == s.workers {
      assert Step(c, s, Return, s.(pc := Returned));
    } else if s.resch != [] {
      assert Step(c, s, Collect, Consumed(s).(failed := s.failed || s.resch[0].failed, collected := s.collected + 1));
    } else {
      var i := SomeoneLeft(c, s);
      WorkerMoves(c, s, i);
    }
  }

  /** Until the producer has returned the run is never stuck, as long as its stream goes on or ends
      and peers answer: in particular not on a full work channel, and not waiting for a result
      nobody will send. */
  lemma {:induction false} NeverStuck(c: Config, s: State)
    requires Inv(c, s) && !s.pc.Returned?
    ensures CanStep(c, s)
  {
    if s.pc.Collecting? {
      CollectMoves(c, s);
    } else if Sends(s) {
      SendMoves(c, s);
    } else {
      hide Inv, Inserted;
      ElseMoves(c, s);
    }
  }

  lemma {:induction false} ElseMoves(c: Config, s: State)
    requires !s.pc.Collecting? && !s.pc.Returned? && !Sends(s)
    ensures CanStep(c, s)
  {
    hide Works, OthersWrite, Accepted, Keys, Inserted;
    if s.pc.Reading? {
      assert Step(c, s, EndOfStream, s.(pc := LastSend));
    } else if s.pc.Appending? {
      var pc := if |s.stmts| + 1 >= BATCH then Merging else Reading;
      assert Step(c, s, Append, s.(stmts := s.stmts + [s.pc.stmt], pc := pc));
    } else if Merges(s) {
      assert Step(c, s, MergeDone, Inserted(s).(pc := if s.pc.Merging? then Reading else Collecting));
    } else if s.pc.LastSend? {
      assert Step(c, s, SkipSend, s.(pc := LastMerge));
    } else {
      assert Step(c, s, SkipMerge, s.(pc := Collecting));
    }
  }

  // ---- When a run fails ----

  /** What must not happen: the context is cancelled, the store refuses a batch, a worker's stream or
      datastore fails, a value arrives that is no complete statement signed by its publisher with keys
      to fetch, or a peer sends what ends its exchange in error. */
  ghost predicate Faulty(c: Config, s: State, l: Label) {
    match l
    case Cancelled => true
    case MergeFailed => true
    case Break(_) => true
    case Arrive(v) =>
      !(v.StmtVal? && CheckStatement(v.stmt) && SignedByPublisher(c.crypto, v.stmt) && Clean(v.stmt) && Decodes(c.codec, Keys(v.stmt)))
    case Answer(i, msg) => i < |s.ws| && s.ws[i].Fetching? && BadAnswer(c.codec, s.ws[i], msg)
    case _ => false
  }

  /** An object of no open key or with other data than its key says, an end before as many came as
      were asked for, or anything else. */
  predicate BadAnswer(c: Codec, w: Worker, msg: DataMsg)
    requires w.Fetching?
  {
    match msg
    case DataMsg(k, data) => k !in w.batch || k in w.closed || c.unb58(k) != Some(Hash(c, data))
    case EndMsg => |w.closed| < |w.asked|
    case _ => true
  }

  /** Neither the producer nor a worker has failed, and no failure is on its way. */
  predicate Unfailed(s: State) {
    !s.failed && !Lost(s) && forall r :: r in s.resch ==> !r.failed
  }

  lemma {:induction false} AcceptedSigned(c: Config, v: StreamVal)
    requires v.StmtVal?
    ensures Accepted(c, v) <==> CheckStatement(v.stmt) && SignedByPublisher(c.crypto, v.stmt) && Clean(v.stmt) && Decodes(c.codec, Keys(v.stmt))
  {
    CheckedAreSigned(c.crypto, v.stmt);
    hide CheckStatement, SignedByPublisher, VerifyStatement, Clean, Decodes, Keys;
  }

  lemma {:induction false} ProducerUnfailed(c: Config, s: State, l: Label, s': State)
    requires Shape(c, s) && ReportsTrue(s) && Unfailed(s) && Produces(c, s, l, s') && !Faulty(c, s, l)
    ensures Unfailed(s')
  {
    WorkersWait(c, s, l, s');
    if l.Arrive? && l.v.StmtVal? { AcceptedSigned(c, l.v); }
    hide Accepted, Merged, IdsOf, Growth, Keys, CheckStatement, SignedByPublisher, Clean, Decodes, Shape;
    if l.Interrupted? || l.Collect? { assert s.resch[0] in s.resch; }
    if l.Interrupted? || l.Collect? {
      forall r | r in s'.resch ensures r in s.resch { assert s'.resch == s.resch[1..]; }
    }
  }

  lemma {:induction false} WorkerUnfailed(c: Config, s: State, l: Label, s': State)
    requires Unfailed(s) && Works(c, s, l, s') && !Faulty(c, s, l)
    ensures Unfailed(s')
  {
    OneWorker(c, s, l, s');
    ProducerWaits(c, s, l, s');
    hide Held, Hash;
    forall i | 0 <= i < |s'.ws| && Reported(s'.ws[i]) ensures !s'.ws[i].failed {
      if i != l.i { assert s'.ws[i] == s.ws[i]; }
    }
  }

  lemma {:induction false} UnfailedKept(c: Config, s: State, l: Label, s': State)
    requires Inv(c, s) && Unfailed(s) && Step(c, s, l, s') && !Faulty(c, s, l)
    ensures Unfailed(s')
  {
    assert Shape(c, s) && ReportsTrue(s);
    hide Inv, Shape, ReportsTrue, Unfailed, Faulty, Produces, Works;
    if Produces(c, s, l, s') {
      ProducerUnfailed(c, s, l, s');
    } else if Works(c, s, l, s') {
      WorkerUnfailed(c, s, l, s');
    } else {
      assert Unfailed(s') by { OthersFailNothing(c, s, s'); }
    }
  }

  lemma OthersFailNothing(c: Config, s: State, s': State)
    requires OthersWrite(c, s, s') && Unfailed(s)
    ensures Unfailed(s')
  {
    hide ContentAddressed, Merged;
  }

  /** One of these makes the run fail, or a worker. */
  lemma {:induction false} FaultFails(c: Config, s: State, l: Label, s': State)
    requires Inv(c, s) && Step(c, s, l, s') && Faulty(c, s, l)
    ensures s'.failed || Lost(s')
  {
    if l.Arrive? && l.v.StmtVal? { AcceptedSigned(c, l.v); }
    hide Inv, Accepted, Merged, IdsOf, Growth, Keys, CheckStatement, SignedByPublisher, Clean, Decodes, Held, Hash, ContentAddressed;
    if Works(c, s, l, s') {
      assert Reported(s'.ws[l.i]) && s'.ws[l.i].failed;
    }
  }

  lemma {:induction false} FailsForCause(c: Config, ss: seq<State>, ls: seq<Label>, i: nat)
    requires Runs(c, ss, ls) && i < |ss|
    ensures !Unfailed(ss[i]) ==> exists j :: 0 <= j < i && Faulty(c, ss[j], ls[j])
    ensures (exists j :: 0 <= j < i && Faulty(c, ss[j], ls[j])) ==> ss[i].failed || Lost(ss[i])
  {
    hide Inv, Step, Faulty, Unfailed, Lost, Init;
    if i == 0 {
      assert Unfailed(ss[0]) by { StartsUnfailed(c, ss[0]); }
    } else {
      var k := i - 1;
      FailsForCause(c, ss, ls, k);
      EveryRun(c, ss, ls, k);
      assert Step(c, ss[k], ls[k], ss[i]) && Shape(c, ss[k]) by { ShapeIn(c, ss[k]); }
      hide Runs, Shape;
      if Faulty(c, ss[k], ls[k]) {
        FaultFails(c, ss[k], ls[k], ss[i]);
      } else if Unfailed(ss[k]) {
        UnfailedKept(c, ss[k], ls[k], ss[i]);
      }
      if ss[k].failed || Lost(ss[k]) { StaysLost(c, ss[k], ls[k], ss[i]); }
    }
  }

  lemma ShapeIn(c: Config, s: State)
    requires Inv(c, s)
    ensures Shape(c, s)
  {
  }

  lemma StartsUnfailed(c: Config, s: State)
    requires Init(c, s)
    ensures Unfailed(s)
  {
  }

  /** A run that has returned reports an error exactly when something of the kind happened: nothing
      else makes it fail, and nothing of it goes unnoticed, whichever worker it met. */
  lemma {:induction false} FailsExactlyForCause(c: Config, ss: seq<State>, ls: seq<Label>)
    requires Runs(c, ss, ls) && ss[|ls|].pc.Returned?
    ensures ss[|ls|].failed <==> exists j :: 0 <= j < |ls| && Faulty(c, ss[j], ls[j])
  {
    FailsForCause(c, ss, ls, |ls|);
    EveryRun(c, ss, ls, |ls|);
    AllCollected(c, ss[|ls|]);
    if !ss[|ls|].failed { NoneLost(c, ss[|ls|]); }
  }

  // ---- There are runs ----

  /** With at least one worker a run can start on any stores that are in order, and go on whatever
      comes next on the stream. */
  lemma {:induction false} RunsStart(c: Config, contents: seq<Statement>, store: Objects, v: StreamVal) returns (s: State, s': State)
    requires c.n > 0 && DistinctIds(contents) && ContentAddressed(c.codec, store)
    ensures Runs(c, [s, s'], [Arrive(v)]) && s.contents == contents && s.store == store && s'.heard == [v]
    ensures s'.failed <==> Faulty(c, s, Arrive(v))
  {
    if v.StmtVal? { AcceptedSigned(c, v); }
    hide Accepted, Keys, CheckStatement, SignedByPublisher, Clean, Decodes, ContentAddressed, Works;
    s := State(Reading, [], {}, [], 0, 0, false, c.n, 0, [], [], seq(c.n, _ => Idle(0)), contents, store, 0, [], []);
    s' := s.(heard := [v], failed := true, pc := LastSend);
    if Accepted(c, v) {
      var keys := Keys(v.stmt);
      assert s.keys + keys == keys;
      s' := s.(heard := [v], keys := keys, pc := if |keys| >= BATCH then Sending(v.stmt) else Appending(v.stmt));
    }
    assert [] + [v] == [v];
    assert Produces(c, s, Arrive(v), s');
  }

  // ---- Every step uses something up ----

  function ToRead(v: StreamVal): nat { 8 + if v.StmtVal? then 2 * |Keys(v.stmt)| else 0 }

  function ToTake(batch: set<string>): nat { 3 + 2 * |batch| }

  function ToDo(w: Worker): nat {
    match w
    case Idle(_) => 3
    case Checking(batch, todo, _, _) => 5 + |todo| + |batch|
    case Fetching(batch, _, closed, _) => 4 + |batch - closed|
    case Emitting(_, _) => 2
    case Exited(_) => 0
  }

  function ToGo(pc: Pc): nat {
    match pc
    case Sending(_) => 13
    case Appending(_) => 9
    case Merging => 8
    case Reading => 7
    case LastSend => 6
    case LastMerge => 2
    case Collecting => 1
    case Returned => 0
  }

  /** Bounds the steps that are left until the next value of the stream. */
  function Potential(s: State): nat {
    (if s.failed then 0 else 2 * |s.keys|) + ToGo(s.pc) + Total(s.workch, ToTake) + Total(s.ws, ToDo) + |s.resch|
  }

  lemma {:induction false} ProducerUses(c: Config, s: State, l: Label, s': State)
    requires Shape(c, s) && Produces(c, s, l, s')
    ensures Potential(s') < Potential(s) + if l.Arrive? then ToRead(l.v) else 0
  {
    if l.Arrive? {
      ArriveUses(c, s, l, s');
    } else if l.Send? {
      SendUses(c, s, l, s');
    } else {
      WorkersWait(c, s, l, s');
      PassesOn(c, s, l, s');
      hide Produces, Shape, Total, ToGo;
    }
  }

  lemma {:induction false} ArriveUses(c: Config, s: State, l: Label, s': State)
    requires Shape(c, s) && Produces(c, s, l, s') && l.Arrive?
    ensures Potential(s') < Potential(s) + ToRead(l.v)
  {
    hide Total, Keys, Accepts;
    if l.v.StmtVal? { UnionSize(s.keys, Keys(l.v.stmt)); }
  }

  lemma {:induction false} SendUses(c: Config, s: State, l: Label, s': State)
    requires Shape(c, s) && Produces(c, s, l, s') && l.Send?
    ensures Potential(s') < Potential(s)
  {
    TotalSnoc(s.workch, s.keys, ToTake);
    hide Total;
  }

  /** Every other step of the producer brings it closer to its end. */
  lemma {:induction false} PassesOn(c: Config, s: State, l: Label, s': State)
    requires Shape(c, s) && Produces(c, s, l, s') && !l.Arrive? && !l.Send?
    ensures s'.keys == s.keys && s'.workch == s.workch
    ensures ToGo(s'.pc) < ToGo(s.pc) || (l.Collect? && s'.pc == s.pc)
  {
    hide Merged, IdsOf, Growth;
  }

  lemma UnionSize<T>(a: set<T>, b: set<T>)
    ensures |a + b| <= |a| + |b|
  {
    assert a + b == a + (b - a);
    assert |b| == |b - a| + |b * a| by { assert b == (b - a) + (b * a); }
  }

  lemma {:induction false} WorkerUses(c: Config, s: State, l: Label, s': State)
    requires Works(c, s, l, s')
    ensures Potential(s') < Potential(s)
  {
    hide Total, Hash, Held;
    OneWorker(c, s, l, s');
    ProducerWaits(c, s, l, s');
    TotalUpdate(s.ws, l.i, s'.ws[l.i], ToDo);
    if l.Take? { TakeOne(s.workch); }
    if l.Answer? && s'.ws[l.i].Fetching? { OneLess(s.ws[l.i].batch, s.ws[l.i].closed, l.msg.key); }
  }

  lemma OneLess<T>(batch: set<T>, closed: set<T>, k: T)
    requires k in batch && k !in closed
    ensures |batch - (closed + {k})| < |batch - closed|
  {
    assert batch - closed == (batch - (closed + {k})) + {k};
  }

  lemma TakeOne(workch: seq<set<string>>)
    requires workch != []
    ensures Total(workch, ToTake) == ToTake(workch[0]) + Total(workch[1..], ToTake)
  {
  }

  function OwnSteps(ls: seq<Label>): nat {
    if ls == [] then 0 else OwnSteps(ls[..|ls| - 1]) + if ls[|ls| - 1].Other? then 0 else 1
  }

  /** Whatever the schedule, whatever peers answer and others write meanwhile, a run that has
      received so much of the stream has taken a bounded number of its own steps: workers and
      producer together never loop. */
  lemma {:induction false} RunsEnd(c: Config, ss: seq<State>, ls: seq<Label>)
    requires Runs(c, ss, ls)
    ensures OwnSteps(ls) + Potential(ss[|ls|]) <= 7 + 3 * c.n + Total(ss[|ls|].heard, ToRead)
    decreases |ls|
  {
    hide Potential, Shape, ToRead;
    if ls == [] {
      StartPotential(c, ss[0]);
    } else {
      hide Init;
      var n := |ls| - 1;
      RunsEnd(c, ss[..n + 1], ls[..n]);
      EveryRun(c, ss, ls, n);
      assert ss[..n + 1][n] == ss[n] && Step(c, ss[n], ls[n], ss[n + 1]);
      hide Step, Runs;
      StepUses(c, ss[n], ls[n], ss[n + 1]);
      HeardGrows(c, ss[n], ls[n], ss[n + 1]);
      if ls[n].Arrive? { TotalSnoc(ss[n].heard, ls[n].v, ToRead); }
    }
  }

  lemma {:induction false} StartPotential(c: Config, s: State)
    requires Init(c, s)
    ensures Potential(s) == 7 + 3 * c.n
  {
    hide ContentAddressed;
    IdleTotal(s.ws);
  }

  lemma {:induction false} IdleTotal(ws: seq<Worker>)
    requires forall i :: 0 <= i < |ws| ==> ws[i] == Idle(0)
    ensures Total(ws, ToDo) == 3 * |ws|
  {
    if ws != [] { IdleTotal(ws[1..]); }
  }

  lemma {:induction false} StepUses(c: Config, s: State, l: Label, s': State)
    requires Shape(c, s) && Step(c, s, l, s')
    ensures Potential(s') + (if l.Other? then 0 else 1) <= Potential(s) + if l.Arrive? then ToRead(l.v) else 0
  {
    hide Produces, Works, Merged, ContentAddressed, ToRead, Shape;
    if Produces(c, s, l, s') {
      ProducerUses(c, s, l, s');
    } else if Works(c, s, l, s') {
      WorkerUses(c, s, l, s');
    }
  }
}
