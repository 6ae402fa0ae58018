/** `doMergeStream` of mcnode/proto.go as a transition system: a producer, a bounded work channel,
    N workers and a result channel, in every interleaving, while others write to the same stores. */
module MergeStream {
  import opened Std
  import opened Statements
  import opened Batches
  import opened Datastore
  import opened Gc
  import opened MergeData
  import opened Verify

  const WORK_PER_WORKER := 64

  type Objects = map<Bytes, Bytes>

  /** One run: the number of workers, the key encoding, and what the signature checks rest on. */
  datatype Config = Config(n: nat, codec: Codec, crypto: Crypto)

  /** Where the producer stands. `Sending`, `Appending` carry the statement at hand. */
  datatype Pc =
    | Reading | Sending(stmt: Statement) | Appending(stmt: Statement) | Merging
    | LastSend | LastMerge | Collecting | Returned

  /** A worker: between batches; asking the datastore which keys of one are missing; receiving
      what it asked its peer for; about to report; or gone. `count` is what it has put so far. */
  datatype Worker =
    | Idle(count: nat)
    | Checking(batch: set<string>, todo: set<string>, asked: set<string>, count: nat)
    | Fetching(batch: set<string>, asked: set<string>, closed: set<string>, count: nat)
    | Emitting(count: nat, failed: bool)
    | Exited(failed: bool)

  datatype MergeResult = MergeResult(count: nat, failed: bool)

  /** `heard` is the stream so far, `store` the datastore, `contents` the stored statements.
      `puts` counts the objects this run's workers put; `rows` are the statements its batches
      inserted, `passed` those it handed to the store. */
  datatype State = State(
    pc: Pc,
    heard: seq<StreamVal>,
    keys: set<string>,
    stmts: seq<Statement>,
    count: nat,
    ocount: nat,
    failed: bool,
    workers: nat,
    collected: nat,
    workch: seq<set<string>>,
    resch: seq<MergeResult>,
    ws: seq<Worker>,
    contents: seq<Statement>,
    store: Objects,
    puts: nat,
    rows: seq<Statement>,
    passed: seq<Statement>)

  predicate Closed(s: State) { s.pc.Collecting? || s.pc.Returned? }

  predicate Room(c: Config, s: State) { |s.workch| < WORK_PER_WORKER * c.n }

  predicate Accepted(c: Config, v: StreamVal) { v.StmtVal? && Accepts(c.crypto, c.codec, v.stmt) }

  ghost predicate Init(c: Config, s: State) {
    && c.n > 0
    && s == State(Reading, [], {}, [], 0, 0, false, c.n, 0, [], [], s.ws, s.contents, s.store, 0, [], [])
    && |s.ws| == c.n && (forall i :: 0 <= i < c.n ==> s.ws[i] == Idle(0))
    && DistinctIds(s.contents) && ContentAddressed(c.codec, s.store)
  }

  // ---- One exchange of a worker with its peer ----

  /** The keys of a batch, each with what it decodes to. */
  function Table(c: Codec, batch: set<string>): Keys58 {
    map k | k in batch && c.unb58(k).Some? :: c.unb58(k).value
  }

  predicate Present(c: Codec, store: Objects, k: string) {
    c.unb58(k).Some? && |c.unb58(k).value| >= 2 && c.unb58(k).value[2..] in store
  }

  /** What the datastore answers when asked for the key: an empty object counts as absent. */
  predicate Held(c: Codec, store: Objects, k: string) {
    Present(c, store, k) && store[c.unb58(k).value[2..]] != []
  }

  /** All keys looked up: the missing ones are asked for, if there are any. */
  function AfterChecking(w: Worker): Worker
    requires w.Checking?
  {
    if w.asked == {} then Idle(w.count) else Fetching(w.batch, w.asked, {}, w.count)
  }

  /** One message of the peer: an object of an open key is put, anything unexpected ends the
      worker, and the end message does when fewer objects came than were asked for. */
  function OnMessage(c: Codec, w: Worker, store: Objects, msg: DataMsg): (r: (Worker, Objects))
    requires w.Fetching?
  {
    match msg
    case DataMsg(k, data) =>
      if k in w.batch && k !in w.closed && c.unb58(k) == Some(Hash(c, data)) then
        (Fetching(w.batch, w.asked, w.closed + {k}, w.count + 1), store[c.sha256(data) := data])
      else (Emitting(w.count, true), store)
    case EndMsg => (if |w.closed| < |w.asked| then Emitting(w.count, true) else Idle(w.count), store)
    case _ => (Emitting(w.count, true), store)
  }

  // ---- Steps ----

  datatype Label =
    | Arrive(v: StreamVal) | EndOfStream | Send | Interrupted | Cancelled | Append | MergeDone | MergeFailed
    | SkipSend | SkipMerge | Collect | Return
    | Take(i: nat) | Check(i: nat, k: string) | Request(i: nat) | Answer(i: nat, msg: DataMsg)
    | Break(i: nat) | Drain(i: nat) | Emit(i: nat)
    | Other

  /** MergeBatch succeeds: it counts the ids that are new to the store. */
  function Inserted(s: State): State {
    var contents := Merged(s.contents, s.stmts);
    s.(contents := contents, count := s.count + |IdsOf(s.stmts) - IdsOf(s.contents)|,
       rows := s.rows + Growth(s.contents, contents), passed := s.passed + s.stmts, stmts := [])
  }

  function Growth(before: seq<Statement>, after: seq<Statement>): seq<Statement> {
    if |before| <= |after| then after[|before|..] else []
  }

  function Consumed(s: State): State
    requires s.resch != []
  {
    s.(resch := s.resch[1..], ocount := s.ocount + s.resch[0].count)
  }

  /** The steps of the producer. */
  ghost predicate Produces(c: Config, s: State, l: Label, s': State) {
    match l
    case Arrive(v) =>
      s.pc.Reading?
      && if Accepted(c, v) then
           var keys := s.keys + Keys(v.stmt);
           s' == s.(heard := s.heard + [v], keys := keys, pc := if |keys| >= BATCH then Sending(v.stmt) else Appending(v.stmt))
         else s.keys <= s'.keys && s' == s.(heard := s.heard + [v], keys := s'.keys, failed := true, pc := LastSend)
    case EndOfStream => s.pc.Reading? && s' == s.(pc := LastSend)
    case Send =>
      && Room(c, s) && Sends(s)
      && s' == s.(workch := s.workch + [s.keys], keys := {}, pc := AfterSend(s))
    case Interrupted =>
      && s.resch != [] && Sends(s)
      && s' == Consumed(s).(failed := s.resch[0].failed, workers := OneFewer(s.workers), pc := AfterStop(s))
    case Cancelled => Sends(s) && s' == s.(failed := true, pc := AfterStop(s))
    case Append =>
      && s.pc.Appending?
      && s' == s.(stmts := s.stmts + [s.pc.stmt], pc := if |s.stmts| + 1 >= BATCH then Merging else Reading)
    case MergeDone =>
      && Merges(s)
      && s' == Inserted(s).(pc := if s.pc.Merging? then Reading else Collecting)
    case MergeFailed =>
      && Merges(s)
      && s' == s.(failed := true, pc := if s.pc.Merging? then LastSend else Collecting)
    case SkipSend => s.pc.LastSend? && (s.keys == {} || s.failed) && s' == s.(pc := LastMerge)
    case SkipMerge => s.pc.LastMerge? && (s.stmts == [] || s.failed) && s' == s.(pc := Collecting)
    case Collect =>
      && s.pc.Collecting? && s.collected < s.workers && s.resch != []
      && s' == Consumed(s).(failed := s.failed || s.resch[0].failed, collected := s.collected + 1)
    case Return => s.pc.Collecting? && s.collected == s.workers && s' == s.(pc := Returned)
    case _ => false
  }

  function OneFewer(workers: nat): nat { if workers > 0 then workers - 1 else 0 }

  predicate Sends(s: State) { s.pc.Sending? || (s.pc.LastSend? && s.keys != {} && !s.failed) }

  predicate Merges(s: State) { s.pc.Merging? || (s.pc.LastMerge? && s.stmts != [] && !s.failed) }

  function AfterSend(s: State): Pc { if s.pc.Sending? then Appending(s.pc.stmt) else LastMerge }

  function AfterStop(s: State): Pc { if s.pc.Sending? then LastSend else LastMerge }

  /** The steps of the workers. A peer may answer anything at all; `Break` is a failure of the
      worker's own input and output, of its stream or of the datastore. */
  ghost predicate Works(c: Config, s: State, l: Label, s': State) {
    match l
    case Take(i) =>
      && i < |s.ws| && s.ws[i].Idle? && s.workch != []
      && s' == s.(workch := s.workch[1..], ws := s.ws[i := Checking(s.workch[0], s.workch[0], {}, s.ws[i].count)])
    case Check(i, k) =>
      && i < |s.ws| && s.ws[i].Checking? && k in s.ws[i].todo
      && var w := s.ws[i];
         var asked := if Held(c.codec, s.store, k) then w.asked else w.asked + {k};
         s' == s.(ws := s.ws[i := Checking(w.batch, w.todo - {k}, asked, w.count)])
    case Request(i) =>
      && i < |s.ws| && s.ws[i].Checking? && s.ws[i].todo == {}
      && s' == s.(ws := s.ws[i := AfterChecking(s.ws[i])])
    case Answer(i, msg) =>
      && i < |s.ws| && s.ws[i].Fetching?
      && var (w, store) := OnMessage(c.codec, s.ws[i], s.store, msg);
         s' == s.(store := store, puts := s.puts + if w.Fetching? then 1 else 0, ws := s.ws[i := w])
    case Break(i) =>
      && i < |s.ws| && Busy(s.ws[i])
      && s' == s.(ws := s.ws[i := Emitting(s.ws[i].count, true)])
    case Drain(i) =>
      && i < |s.ws| && s.ws[i].Idle? && s.workch == [] && Closed(s)
      && s' == s.(ws := s.ws[i := Emitting(s.ws[i].count, false)])
    case Emit(i) =>
      && i < |s.ws| && s.ws[i].Emitting? && |s.resch| < c.n
      && s' == s.(resch := s.resch + [MergeResult(s.ws[i].count, s.ws[i].failed)], ws := s.ws[i := Exited(s.ws[i].failed)])
    case _ => false
  }

  predicate Busy(w: Worker) { w.Checking? || w.Fetching? }

  /** Other sessions of the node put objects and merge statements. */
  ghost predicate OthersWrite(c: Config, s: State, s': State) {
    && s.store.Keys <= s'.store.Keys && ContentAddressed(c.codec, s'.store)
    && (exists batch :: s'.contents == Merged(s.contents, batch))
    && s' == s.(store := s'.store, contents := s'.contents)
  }

  ghost predicate Step(c: Config, s: State, l: Label, s': State) {
    Produces(c, s, l, s') || Works(c, s, l, s') || (l.Other? && OthersWrite(c, s, s'))
  }

  /** A run: states that follow one another from a start. */
  ghost predicate Runs(c: Config, ss: seq<State>, ls: seq<Label>) {
    && |ss| == |ls| + 1 && Init(c, ss[0])
    && forall i :: 0 <= i < |ls| ==> Step(c, ss[i], ls[i], ss[i + 1])
  }

  /** The peer of the worker answers only what that worker asked it for. */
  predicate AnswersAsked(s: State, l: Label) {
    l.Answer? && l.i < |s.ws| && s.ws[l.i].Fetching? ==> AnswersOnly([l.msg], s.ws[l.i].asked)
  }

  /** A run in which every peer does so, as one that follows dataHandler. */
  predicate PeersAnswerAsked(ss: seq<State>, ls: seq<Label>) {
    |ss| == |ls| + 1 && forall i :: 0 <= i < |ls| ==> AnswersAsked(ss[i], ls[i])
  }

  // ---- The invariant of every run ----

  /** Channels within their capacity, and what each place of the producer implies. */
  predicate Shape(c: Config, s: State) {
    && c.n > 0 && |s.ws| == c.n
    && |s.workch| <= WORK_PER_WORKER * c.n
    && s.collected <= s.workers <= c.n
    && (!Closed(s) ==> s.collected == 0 && (s.workers < c.n ==> s.failed))
    && (s.pc.Reading? || s.pc.Sending? || s.pc.Appending? || s.pc.Merging? ==> !s.failed)
    && (s.pc.Sending? ==> s.keys != {})
    && (!s.failed && (s.pc.LastMerge? || Closed(s)) ==> s.keys == {})
    && (!s.failed && Closed(s) ==> s.stmts == [])
    && (s.pc.Returned? ==> s.collected == s.workers)
  }

  function Gone(w: Worker): nat { if w.Exited? then 1 else 0 }

  /** Each worker that is gone left exactly one result, waiting or consumed. */
  ghost predicate OneResultEach(c: Config, s: State) {
    Total(s.ws, Gone) + s.workers == |s.resch| + c.n + s.collected
  }

  predicate Reported(w: Worker) { w.Emitting? || w.Exited? }

  /** Before the work channel closes only failures are reported; a worker that reports success
      found the closed channel empty. */
  predicate ReportsTrue(s: State) {
    && (!Closed(s) ==> forall r :: r in s.resch ==> r.failed)
    && forall i :: 0 <= i < |s.ws| && Reported(s.ws[i]) && !s.ws[i].failed ==> Closed(s) && s.workch == []
  }

  /** A failed worker that is gone has made the run fail, or its result still waits. */
  predicate FailuresKnown(s: State) {
    forall i :: 0 <= i < |s.ws| && s.ws[i].Exited? && s.ws[i].failed ==> s.failed || exists r :: r in s.resch && r.failed
  }

  function Carried(w: Worker): nat { if w.Exited? then 0 else w.count }

  function Reporting(r: MergeResult): nat { r.count }

  /** Every object put is counted once: consumed, waiting, or still with its worker. */
  ghost predicate Conserved(s: State) {
    s.puts == s.ocount + Total(s.resch, Reporting) + Total(s.ws, Carried)
  }

  /** The statements inserted are as many as were counted, all stored, under different ids. */
  ghost predicate RowsCounted(s: State) {
    && s.count == |s.rows| && DistinctIds(s.rows) && DistinctIds(s.contents)
    && forall r :: r in s.rows ==> r in s.contents
  }

  /** How far a worker has come: a key that is neither looked for nor open has its object. */
  ghost predicate WorkerSound(c: Codec, store: Objects, w: Worker) {
    match w
    case Checking(batch, todo, asked, _) => todo <= batch && asked <= batch && Progress(c, Table(c, batch), asked + todo, {}, store)
    case Fetching(batch, asked, closed, _) => asked <= batch && closed <= batch && Progress(c, Table(c, batch), asked, closed, store)
    case _ => true
  }

  ghost predicate WorkersSound(c: Config, s: State) {
    && ContentAddressed(c.codec, s.store)
    && forall i :: 0 <= i < |s.ws| ==> WorkerSound(c.codec, s.store, s.ws[i])
  }

  /** The statements passed to the store and those waiting for it are the first of the stream,
      all accepted; while nothing failed none is left out. */
  predicate VerifiedPrefix(c: Config, s: State) {
    var taken := s.passed + s.stmts;
    var behind := if s.pc.Sending? || s.pc.Appending? then 1 else 0;
    && |taken| + behind <= |s.heard|
    && (forall i :: 0 <= i < |taken| ==> Accepted(c, s.heard[i]) && s.heard[i].stmt == taken[i])
    && (behind == 1 ==> s.heard[|s.heard| - 1] == StmtVal(s.pc.stmt) && Accepted(c, StmtVal(s.pc.stmt)))
    && (!s.failed ==> |taken| + behind == |s.heard|)
  }

  predicate PassedStored(s: State) {
    IdsOf(s.passed) <= IdsOf(s.contents)
  }

  ghost predicate Inv(c: Config, s: State) {
    && Shape(c, s) && OneResultEach(c, s) && ReportsTrue(s) && FailuresKnown(s) && Conserved(s)
    && RowsCounted(s) && WorkersSound(c, s) && VerifiedPrefix(c, s) && PassedStored(s)
  }

  // ---- What holds as well when peers answer only what they are asked ----

  predicate InWork(s: State, k: string) { exists i :: 0 <= i < |s.workch| && k in s.workch[i] }

  predicate InBatch(s: State, k: string) { exists i :: 0 <= i < |s.ws| && Busy(s.ws[i]) && k in s.ws[i].batch }

  predicate Covered(c: Config, s: State, k: string) {
    k in s.keys || Present(c.codec, s.store, k) || InWork(s, k) || InBatch(s, k)
  }

  predicate Lost(s: State) {
    exists i :: 0 <= i < |s.ws| && Reported(s.ws[i]) && s.ws[i].failed
  }

  /** While nothing failed, every key named so far has its object, or is on its way to a worker. */
  predicate NothingForgotten(c: Config, s: State) {
    !s.failed && !Lost(s) ==>
      forall i, k :: 0 <= i < |s.heard| && s.heard[i].StmtVal? && k in Keys(s.heard[i].stmt) && c.codec.unb58(k).Some? ==> Covered(c, s, k)
  }

  predicate ClosedAsked(w: Worker) { w.Fetching? ==> w.closed <= w.asked }

  predicate AllClosedAsked(s: State) { forall i :: 0 <= i < |s.ws| ==> ClosedAsked(s.ws[i]) }
}
