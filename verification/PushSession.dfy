/** A push session (pushHandler of mcnode/proto.go) and the merge it feeds, as one transition
    system: they share the unbuffered channel of statements and the buffered one of the result. */
module PushSession {
  import opened Std
  import opened Statements
  import opened Batches
  import opened Datastore
  import opened Gc
  import opened MergeStream
  import opened MergeRuns
  import opened MergeLiveness
  import opened Push

  /** The merge that a session starts, and the rules for the peer. */
  datatype SessionConfig = SessionConfig(merge: Config, rules: seq<string>)

  /** Where the handler stands: `Offering` is in the select between handing on a statement and
      receiving the merge's result. */
  datatype Place = Unasked | Next | Offering(stmt: Statement) | Awaiting | Ending | Finished

  datatype Outcome = Outcome(scount: nat, ocount: nat, failed: bool)

  /** `open` says that the channel of statements is, `rch` is the channel of the result, `mres` the
      result received; `bad` is an error of the handler's own. */
  datatype Session = Session(
    at: Place,
    declared: set<string>,
    merge: Option<State>,
    open: bool,
    rch: Option<Outcome>,
    mres: Option<Outcome>,
    bad: bool,
    read: seq<PushValue>,
    sent: seq<ServerMsg>)

  datatype Move =
    | Ask(nss: seq<string>, written: bool) | NoRequest
    | Read(v: PushValue) | ReadFails
    | Forward | EarlyResult
    | MergeMoves(l: Label) | MergeSeesClose | Report
    | TakeResult | SayEnd(written: bool)

  const START := Session(Unasked, {}, None, false, None, None, false, [], [])

  /** The result of a merge that has returned. */
  function ResultOf(m: State): Outcome { Outcome(m.count, m.ocount, m.failed) }

  predicate Reported(s: Session) { s.rch.Some? || s.mres.Some? }

  /** A statement of a declared namespace is offered to the merge; anything else ends the loop. */
  function AfterRead(s: Session, v: PushValue): Session {
    var read := s.read + [v];
    match v
    case StmtValue(Some(stmt)) =>
      if stmt.namespace in s.declared then s.(read := read, at := Offering(stmt))
      else s.(read := read, at := Awaiting, open := false, bad := true)
    case EndValue => s.(read := read, at := Awaiting, open := false)
    case _ => s.(read := read, at := Awaiting, open := false, bad := true)
  }

  ghost predicate Moves(c: SessionConfig, s: Session, l: Move, s': Session) {
    match l
    case NoRequest => s.at.Unasked? && s' == s.(at := Finished)
    case Ask(nss, written) =>
      s.at.Unasked?
      && if !Admitted(c.rules, nss) then s' == s.(at := Finished, sent := if written then [RejectMsg] else [])
         else if !written then s' == s.(at := Finished)
         else
           && s'.merge.Some? && Init(c.merge, s'.merge.value)
           && s' == s.(at := Next, declared := Elements(nss), merge := s'.merge, open := true, sent := [AcceptMsg])
    case Read(v) => s.at.Next? && s' == AfterRead(s, v)
    case ReadFails => s.at.Next? && s' == s.(at := Awaiting, open := false, bad := true)
    case Forward =>
      && s.at.Offering? && s.merge.Some? && s'.merge.Some?
      && Step(c.merge, s.merge.value, Arrive(StmtVal(s.at.stmt)), s'.merge.value)
      && s' == s.(at := Next, merge := s'.merge)
    case EarlyResult => s.at.Offering? && s.rch.Some? && s' == s.(at := Ending, open := false, mres := s.rch, rch := None)
    case MergeMoves(ml) =>
      && s.merge.Some? && s'.merge.Some? && !ml.Arrive? && !ml.EndOfStream?
      && Step(c.merge, s.merge.value, ml, s'.merge.value)
      && s' == s.(merge := s'.merge)
    case MergeSeesClose =>
      && s.merge.Some? && s'.merge.Some? && !s.open
      && Step(c.merge, s.merge.value, EndOfStream, s'.merge.value)
      && s' == s.(merge := s'.merge)
    case Report =>
      && s.merge.Some? && s.merge.value.pc.Returned? && !Reported(s)
      && s' == s.(rch := Some(ResultOf(s.merge.value)))
    case TakeResult => s.at.Awaiting? && s.rch.Some? && s' == s.(at := Ending, mres := s.rch, rch := None)
    case SayEnd(written) =>
      && s.at.Ending? && s.mres.Some?
      && s' == s.(at := Finished, sent := s.sent + if written then [EndOf(s)] else [])
  }

  /** The end message: the merge's counts, and whether handler or merge failed. */
  function EndOf(s: Session): ServerMsg
    requires s.mres.Some?
  {
    EndMsg(s.mres.value.scount, s.mres.value.ocount, s.bad || s.mres.value.failed)
  }

  ghost predicate Sessions(c: SessionConfig, ss: seq<Session>, ls: seq<Move>) {
    && |ss| == |ls| + 1 && ss[0] == START
    && forall i :: 0 <= i < |ls| ==> Moves(c, ss[i], ls[i], ss[i + 1])
  }

  // ---- What every session keeps ----

  /** The statements among the values read. */
  function Pushed(read: seq<PushValue>): seq<StreamVal> {
    if read == [] then []
    else
      var v := read[|read| - 1];
      Pushed(read[..|read| - 1]) + if v.StmtValue? && v.stmt.Some? then [StmtVal(v.stmt.value)] else []
  }

  lemma PushedSnoc(read: seq<PushValue>, v: PushValue)
    ensures Pushed(read + [v]) == Pushed(read) + if v.StmtValue? && v.stmt.Some? then [StmtVal(v.stmt.value)] else []
  {
    assert (read + [v])[..|read|] == read;
  }

  /** What was sent so far, and what channels hold, at each place. */
  predicate Places(s: Session) {
    && (s.merge.None? <==> s.at.Unasked? || (s.at.Finished? && s.mres.None?))
    && (s.merge.None? ==> !Reported(s) && !s.open && !s.bad && s.read == [] && (s.sent == [] || (s.at.Finished? && s.sent == [RejectMsg])))
    && (s.merge.Some? ==> s.declared != {} && (s.open <==> s.at.Next? || s.at.Offering?))
    && (s.mres.Some? ==> s.at.Ending? || s.at.Finished?)
    && (s.at.Ending? ==> s.mres.Some?)
    && (s.merge.Some? && !s.at.Finished? ==> s.sent == [AcceptMsg])
    && (s.merge.Some? && s.at.Finished? ==> s.mres.Some? && (s.sent == [AcceptMsg] || s.sent == [AcceptMsg, EndOf(s)]))
    && (s.at.Next? || s.at.Offering? ==> !s.bad)
    && (s.at.Offering? ==> s.at.stmt.namespace in s.declared)
  }

  /** The result reported is that of a merge that has returned. */
  predicate ResultTrue(s: Session) {
    && !(s.rch.Some? && s.mres.Some?)
    && (Reported(s) ==> s.merge.Some? && s.merge.value.pc.Returned?)
    && (s.rch.Some? ==> s.rch.value == ResultOf(s.merge.value))
    && (s.mres.Some? ==> s.mres.value == ResultOf(s.merge.value))
  }

  /** A merge that stops reading while its channel is open has failed. */
  predicate StopsOnlyFailed(m: State, open: bool) {
    open && (m.pc.LastSend? || m.pc.LastMerge? || Closed(m)) ==> m.failed
  }

  /** The merge has heard statements of declared namespaces only: while neither side failed, all
      that were read. */
  predicate HeardPushed(s: Session, m: State) {
    && (forall i :: 0 <= i < |m.heard| ==> m.heard[i].StmtVal? && m.heard[i].stmt.namespace in s.declared)
    && (s.at.Next? ==> m.heard == Pushed(s.read))
    && (s.at.Offering? ==> m.heard + [StmtVal(s.at.stmt)] == Pushed(s.read))
    && (!s.bad && !m.failed ==> m.heard + (if s.at.Offering? then [StmtVal(s.at.stmt)] else []) == Pushed(s.read))
  }

  ghost predicate SessionInv(c: SessionConfig, s: Session) {
    && Places(s) && ResultTrue(s)
    && (s.merge.Some? ==>
          && Inv(c.merge, s.merge.value) && StopsOnlyFailed(s.merge.value, s.open) && HeardPushed(s, s.merge.value)
          && forall ns :: ns in s.declared ==> Allowed(c.rules, ns))
  }

  /** What a step of the merge does as the session sees it. */
  lemma {:induction false} MergeStep(c: Config, m: State, l: Label, m': State)
    requires Inv(c, m) && Step(c, m, l, m')
    ensures Inv(c, m') && (m.failed ==> m'.failed) && (m.pc.Returned? ==> m'.pc.Returned? && ResultOf(m') == ResultOf(m))
    ensures m'.heard == if l.Arrive? then m.heard + [l.v] else m.heard
    ensures !l.EndOfStream? ==> forall open :: StopsOnlyFailed(m, open) ==> StopsOnlyFailed(m', open)
  {
    InvKept(c, m, l, m');
    HeardGrows(c, m, l, m');
    ShapeOf(c, m);
    hide Inv, Works, Produces, Shape, ReportsTrue, Merged;
    if Works(c, m, l, m') {
      ProducerWaits(c, m, l, m');
    } else if Produces(c, m, l, m') {
      WorkersWait(c, m, l, m');
      ProducerStops(c, m, l, m');
    }
  }

  /** Only the end of the stream makes a merge that has not failed stop reading. */
  lemma {:induction false} ProducerStops(c: Config, m: State, l: Label, m': State)
    requires Produces(c, m, l, m') && ReportsTrue(m) && Shape(c, m)
    ensures !m.pc.Returned?
    ensures l.EndOfStream? || (m'.pc.LastSend? || m'.pc.LastMerge? || Closed(m') ==> m'.failed || m.pc.LastSend? || m.pc.LastMerge? || Closed(m))
  {
    hide Accepted, Keys, Merged, IdsOf, Growth;
    if l.Interrupted? { assert m.resch[0] in m.resch; }
  }

  lemma ShapeOf(c: Config, m: State)
    requires Inv(c, m)
    ensures Shape(c, m) && ReportsTrue(m)
  {
  }

  lemma {:induction false} SessionKept(c: SessionConfig, s: Session, l: Move, s': Session)
    requires SessionInv(c, s) && Moves(c, s, l, s')
    ensures SessionInv(c, s')
  {
    match l {
      case Forward => ForwardKept(c, s, s');
      case MergeMoves(_) => MergeKept(c, s, l, s');
      case MergeSeesClose => MergeKept(c, s, l, s');
      case Ask(_, _) => AskKept(c, s, l, s');
      case Read(v) => ReadKept(c, s, v);
      case _ => hide Inv, Step, Init, Allowed, Pushed;
    }
  }

  lemma {:induction false} ForwardKept(c: SessionConfig, s: Session, s': Session)
    requires SessionInv(c, s) && Moves(c, s, Forward, s')
    ensures SessionInv(c, s')
  {
    hide Inv, Step, Init, Allowed, Pushed;
    MergeStep(c.merge, s.merge.value, Arrive(StmtVal(s.at.stmt)), s'.merge.value);
  }

  lemma {:induction false} MergeKept(c: SessionConfig, s: Session, l: Move, s': Session)
    requires SessionInv(c, s) && Moves(c, s, l, s') && (l.MergeMoves? || l.MergeSeesClose?)
    ensures SessionInv(c, s')
  {
    hide Inv, Step, Init, Allowed, Pushed;
    MergeStep(c.merge, s.merge.value, if l.MergeMoves? then l.l else EndOfStream, s'.merge.value);
  }

  lemma {:induction false} ReadKept(c: SessionConfig, s: Session, v: PushValue)
    requires SessionInv(c, s) && s.at.Next?
    ensures SessionInv(c, AfterRead(s, v))
  {
    PushedSnoc(s.read, v);
    hide Inv, Allowed, Pushed;
  }

  lemma {:induction false} AskKept(c: SessionConfig, s: Session, l: Move, s': Session)
    requires SessionInv(c, s) && Moves(c, s, l, s') && l.Ask?
    ensures SessionInv(c, s')
  {
    hide Inv, Init, Allowed;
    if Admitted(c.rules, l.nss) && l.written {
      InvStart(c.merge, s'.merge.value);
      StartForm(c.merge, s'.merge.value);
      assert l.nss[0] in Elements(l.nss);
      forall ns | ns in s'.declared ensures Allowed(c.rules, ns) {
        var i :| 0 <= i < |l.nss| && l.nss[i] == ns;
      }
    }
  }

  lemma StartForm(c: Config, m: State)
    ensures Init(c, m) ==> m.heard == [] && m.pc.Reading?
  {
  }

  lemma {:induction false} EverySession(c: SessionConfig, ss: seq<Session>, ls: seq<Move>, i: nat)
    requires Sessions(c, ss, ls) && i < |ss|
    ensures SessionInv(c, ss[i])
  {
    hide SessionInv, Moves;
    if i == 0 {
      assert SessionInv(c, START) by { StartHolds(c); }
    } else {
      EverySession(c, ss, ls, i - 1);
      SessionKept(c, ss[i - 1], ls[i - 1], ss[i]);
    }
  }

  lemma StartHolds(c: SessionConfig)
    ensures SessionInv(c, START)
  {
  }

  // ---- Safety ----

  /** In every session, in every interleaving, each statement handed to the store has a namespace
      that was declared, and that some rule for the peer allows. */
  lemma {:induction false} OnlyAllowedIsMerged(c: SessionConfig, ss: seq<Session>, ls: seq<Move>, i: nat, stmt: Statement)
    requires Sessions(c, ss, ls) && i < |ss| && ss[i].merge.Some? && stmt in ss[i].merge.value.passed
    ensures stmt.namespace in ss[i].declared && Allowed(c.rules, stmt.namespace)
  {
    EverySession(c, ss, ls, i);
    var m := ss[i].merge.value;
    hide Sessions, Allowed;
    assert VerifiedPrefix(c.merge, m);
    PassedAccepted(c.merge, m);
    hide Inv;
    var j :| 0 <= j < |m.passed| && m.passed[j] == stmt;
    assert m.heard[j] == StmtVal(stmt);
  }

  /** What a finished session has sent: nothing or one reject and no merge was started; or an accept
      and exactly one end message, the last, with the counts of the merge that has returned and the
      failure of either side, unless it could not be written. */
  lemma {:induction false} OneEndPerAccept(c: SessionConfig, ss: seq<Session>, ls: seq<Move>)
    requires Sessions(c, ss, ls) && ss[|ls|].at.Finished?
    ensures var s := ss[|ls|];
      if s.merge.None? then s.sent == [] || s.sent == [RejectMsg]
      else
        var m := s.merge.value;
        && m.pc.Returned?
        && s.sent <= [AcceptMsg, EndMsg(m.count, m.ocount, s.bad || m.failed)]
        && AcceptMsg in s.sent
  {
    EverySession(c, ss, ls, |ls|);
    hide Sessions, Inv, Allowed;
  }

  /** While a session goes on it has sent no end message, and nothing but an accept. */
  lemma {:induction false} NoEarlyEnd(c: SessionConfig, ss: seq<Session>, ls: seq<Move>, i: nat)
    requires Sessions(c, ss, ls) && i < |ss| && !ss[i].at.Finished?
    ensures ss[i].sent == if ss[i].merge.Some? then [AcceptMsg] else []
  {
    EverySession(c, ss, ls, i);
    hide Sessions, Inv, Allowed;
  }

  /** A merge that reports while statements are still offered to it has failed, so the end message
      says so. */
  lemma {:induction false} EarlyResultsFail(c: SessionConfig, ss: seq<Session>, ls: seq<Move>, i: nat)
    requires Sessions(c, ss, ls) && i < |ls| && ls[i].EarlyResult?
    ensures ss[i + 1].mres.Some? && EndOf(ss[i + 1]).failed
  {
    EverySession(c, ss, ls, i);
    assert Moves(c, ss[i], ls[i], ss[i + 1]);
    hide Sessions, Inv, Allowed, Step;
  }

  /** The answer to a request, when it can be written: accepted, and a merge started for what was
      declared, exactly when the rules allow every namespace. */
  lemma AcceptsExactlyAdmitted(c: SessionConfig, ss: seq<Session>, ls: seq<Move>, nss: seq<string>)
    requires Sessions(c, ss, ls) && |ls| > 0 && ls[0] == Ask(nss, true)
    ensures ss[1].sent == if Admitted(c.rules, nss) then [AcceptMsg] else [RejectMsg]
    ensures ss[1].merge.Some? <==> Admitted(c.rules, nss)
    ensures Admitted(c.rules, nss) ==> ss[1].declared == Elements(nss) && ss[1].at.Next?
  {
    assert Moves(c, ss[0], ls[0], ss[1]);
    hide Init, Admitted;
  }

  /** And it can be accepted, on any stores that are in order. */
  lemma {:induction false} AdmittedCanStart(c: SessionConfig, nss: seq<string>, contents: seq<Statement>, store: Objects) returns (s: Session)
    requires Admitted(c.rules, nss) && c.merge.n > 0 && DistinctIds(contents) && ContentAddressed(c.merge.codec, store)
    ensures Sessions(c, [START, s], [Ask(nss, true)]) && s.merge.Some? && s.merge.value.contents == contents && s.merge.value.store == store
  {
    hide Admitted, Produces, Works, OthersWrite;
    var m, m' := MergeLiveness.RunsStart(c.merge, contents, store, OtherVal);
    s := START.(at := Next, declared := Elements(nss), merge := Some(m), open := true, sent := [AcceptMsg]);
    assert Init(c.merge, m);
    assert Moves(c, START, Ask(nss, true), s);
  }

  /** A statement of a declared namespace. */
  predicate InDeclared(declared: set<string>, v: PushValue) {
    v.StmtValue? && v.stmt.Some? && v.stmt.value.namespace in declared
  }

  /** The peer sent statements of declared namespaces, and then its end. */
  predicate Ended(declared: set<string>, read: seq<PushValue>) {
    && read != [] && read[|read| - 1].EndValue?
    && forall i :: 0 <= i < |read| - 1 ==> InDeclared(declared, read[i])
  }

  /** What was read so far, at each place, while the handler has not failed. */
  predicate ReadSoFar(s: Session) {
    && (s.at.Next? || s.at.Offering? ==> forall i :: 0 <= i < |s.read| ==> InDeclared(s.declared, s.read[i]))
    && (s.at.Awaiting? && !s.bad ==> Ended(s.declared, s.read))
    && (s.mres.Some? && !s.bad && !s.mres.value.failed ==> Ended(s.declared, s.read))
  }

  lemma {:induction false} ReadKeeps(c: SessionConfig, s: Session, l: Move, s': Session)
    requires SessionInv(c, s) && ReadSoFar(s) && Moves(c, s, l, s')
    ensures ReadSoFar(s')
  {
    hide Inv, Step, Init, Allowed, Admitted, Pushed, HeardPushed;
    if l.Read? && s.at.Next? {
      var v := l.v;
      assert s'.read == s.read + [v];
      forall i | 0 <= i < |s.read| ensures s'.read[i] == s.read[i] {}
    }
  }

  lemma {:induction false} AlwaysReadSoFar(c: SessionConfig, ss: seq<Session>, ls: seq<Move>, i: nat)
    requires Sessions(c, ss, ls) && i < |ss|
    ensures ReadSoFar(ss[i])
  {
    hide SessionInv, Moves, ReadSoFar;
    if i == 0 {
      assert ReadSoFar(START) by { NothingRead(); }
    } else {
      AlwaysReadSoFar(c, ss, ls, i - 1);
      EverySession(c, ss, ls, i - 1);
      ReadKeeps(c, ss[i - 1], ls[i - 1], ss[i]);
    }
  }

  lemma NothingRead()
    ensures ReadSoFar(START)
  {
  }

  /** A session that sends an end message without error was told the end: its peer sent statements of
      declared namespaces and then its own end message, and nothing else. */
  lemma {:induction false} CleanEndMeansEnded(c: SessionConfig, ss: seq<Session>, ls: seq<Move>)
    requires Sessions(c, ss, ls) && |ss[|ls|].sent| == 2 && ss[|ls|].sent[1].EndMsg? && !ss[|ls|].sent[1].failed
    ensures Ended(ss[|ls|].declared, ss[|ls|].read)
  {
    EverySession(c, ss, ls, |ls|);
    AlwaysReadSoFar(c, ss, ls, |ls|);
    hide Sessions, Inv, Allowed, HeardPushed, Ended;
  }

  // ---- An end without error ----

  /** The peers of the merge's workers answer only what they are asked. */
  predicate SessionAsked(ss: seq<Session>, ls: seq<Move>) {
    && |ss| == |ls| + 1
    && forall i :: 0 <= i < |ls| && ls[i].MergeMoves? && ss[i].merge.Some? ==> AnswersAsked(ss[i].merge.value, ls[i].l)
  }

  ghost predicate MergeForgetsNothing(c: SessionConfig, s: Session) {
    s.merge.Some? ==> AllClosedAsked(s.merge.value) && NothingForgotten(c.merge, s.merge.value)
  }

  lemma {:induction false} ForgetsNothingKept(c: SessionConfig, s: Session, l: Move, s': Session)
    requires SessionInv(c, s) && MergeForgetsNothing(c, s) && Moves(c, s, l, s')
    requires l.MergeMoves? && s.merge.Some? ==> AnswersAsked(s.merge.value, l.l)
    ensures MergeForgetsNothing(c, s')
  {
    hide Step, Init, Allowed, AnswersAsked, AllClosedAsked, NothingForgotten, Inv, ResultTrue, HeardPushed;
    match l {
      case Forward => MergeForgetsNothingStep(c.merge, s.merge.value, Arrive(StmtVal(s.at.stmt)), s'.merge.value);
      case MergeMoves(ml) => MergeForgetsNothingStep(c.merge, s.merge.value, ml, s'.merge.value);
      case MergeSeesClose => MergeForgetsNothingStep(c.merge, s.merge.value, EndOfStream, s'.merge.value);
      case Ask(_, _) => if s'.merge.Some? && s.merge.None? { StartCovered(c.merge, s'.merge.value); }
      case _ =>
    }
  }

  lemma {:induction false} MergeForgetsNothingStep(c: Config, m: State, l: Label, m': State)
    requires Inv(c, m) && AllClosedAsked(m) && NothingForgotten(c, m) && Step(c, m, l, m')
    requires l.Answer? ==> AnswersAsked(m, l)
    ensures AllClosedAsked(m') && NothingForgotten(c, m')
  {
    hide Step, NothingForgotten, AllClosedAsked;
    ClosedAskedKept(c, m, l, m');
    NothingForgottenKept(c, m, l, m');
  }

  lemma {:induction false} EveryAskedSession(c: SessionConfig, ss: seq<Session>, ls: seq<Move>, i: nat)
    requires Sessions(c, ss, ls) && SessionAsked(ss, ls) && i < |ss|
    ensures MergeForgetsNothing(c, ss[i])
  {
    hide SessionInv, Moves, MergeForgetsNothing, AnswersAsked;
    if i == 0 {
      assert MergeForgetsNothing(c, START) by { StartForgets(c); }
    } else {
      EveryAskedSession(c, ss, ls, i - 1);
      EverySession(c, ss, ls, i - 1);
      ForgetsNothingKept(c, ss[i - 1], ls[i - 1], ss[i]);
    }
  }

  lemma StartForgets(c: SessionConfig)
    ensures MergeForgetsNothing(c, START)
  {
  }

  /** A session that sends an end message without error has stored every statement that was pushed,
      and the datastore has every object they name. */
  lemma {:induction false} CleanEndMeansStored(c: SessionConfig, ss: seq<Session>, ls: seq<Move>, k: nat)
    requires Sessions(c, ss, ls) && SessionAsked(ss, ls) && k < |Pushed(ss[|ls|].read)|
    requires |ss[|ls|].sent| == 2 && ss[|ls|].sent[1].EndMsg? && !ss[|ls|].sent[1].failed
    ensures ss[|ls|].merge.Some?
    ensures var m, v := ss[|ls|].merge.value, Pushed(ss[|ls|].read)[k];
      Accepted(c.merge, v) && v.stmt.id in IdsOf(m.contents) && HasObjects(c.merge.codec, m.store, v.stmt)
  {
    EverySession(c, ss, ls, |ls|);
    EveryAskedSession(c, ss, ls, |ls|);
    var s := ss[|ls|];
    hide Sessions, SessionAsked, Inv, NothingForgotten, AllClosedAsked, Allowed, HasObjects, Accepted, IdsOf, Pushed;
    var m := s.merge.value;
    assert m.heard == Pushed(s.read);
    Completed(c.merge, m, k);
  }

  // ---- No deadlock, and an end ----

  /** Moves a session makes by itself, without failures or cancellation; messages of the pushing
      peer and of the peers of the workers are waited for. */
  predicate OwnMove(l: Move) { !l.NoRequest? && !l.ReadFails? && (l.MergeMoves? ==> Own(l.l)) }

  ghost predicate CanMove(c: SessionConfig, s: Session) {
    exists l: Move, s': Session :: OwnMove(l) && Moves(c, s, l, s')
  }

  lemma OnlyReaders(c: Config, m: State, l: Label, m': State)
    requires Step(c, m, l, m') && !m.pc.Reading?
    ensures !l.Arrive? && !l.EndOfStream?
  {
    hide Accepted, Inserted, Held, OnMessage;
  }

  /** The merge can go on by itself unless it waits for the handler, or has returned. */
  lemma {:induction false} MergeCanMove(c: SessionConfig, s: Session)
    requires s.merge.Some? && Inv(c.merge, s.merge.value) && !s.merge.value.pc.Returned? && !s.merge.value.pc.Reading?
    ensures CanMove(c, s)
  {
    hide Step, Inv, Init;
    var m := s.merge.value;
    MergeLiveness.NeverStuck(c.merge, m);
    var ml: Label, m' :| Own(ml) && Step(c.merge, m, ml, m');
    OnlyReaders(c.merge, m, ml, m');
    assert Moves(c, s, MergeMoves(ml), s.(merge := Some(m')));
  }

  /** The two ends of the channels never wait for each other forever. */
  lemma {:induction false} NeverStuck(c: SessionConfig, s: Session)
    requires SessionInv(c, s) && !s.at.Finished?
    ensures CanMove(c, s)
  {
    hide Inv, Allowed, Init;
    if s.at.Unasked? {
      assert !Admitted(c.rules, []);
      assert Moves(c, s, Ask([], true), s.(at := Finished, sent := [RejectMsg]));
    } else if s.at.Next? {
      assert Moves(c, s, Read(EndValue), AfterRead(s, EndValue));
    } else if s.at.Ending? {
      assert Moves(c, s, SayEnd(true), s.(at := Finished, sent := s.sent + [EndOf(s)]));
    } else {
      WaitingMoves(c, s);
    }
  }

  lemma {:induction false} WaitingMoves(c: SessionConfig, s: Session)
    requires SessionInv(c, s) && (s.at.Offering? || s.at.Awaiting?)
    ensures CanMove(c, s)
  {
    hide Inv, Allowed, Init, Accepted, Keys, Works, OthersWrite;
    var m := s.merge.value;
    if s.rch.Some? {
      if s.at.Offering? {
        assert Moves(c, s, EarlyResult, s.(at := Ending, open := false, mres := s.rch, rch := None));
      } else {
        assert Moves(c, s, TakeResult, s.(at := Ending, mres := s.rch, rch := None));
      }
    } else if m.pc.Returned? {
      assert Moves(c, s, Report, s.(rch := Some(ResultOf(m))));
    } else if m.pc.Reading? {
      if s.at.Offering? {
        var m' := Arrives(c.merge, m, StmtVal(s.at.stmt));
        assert Moves(c, s, Forward, s.(at := Next, merge := Some(m')));
      } else {
        assert Step(c.merge, m, EndOfStream, m.(pc := LastSend));
        assert Moves(c, s, MergeSeesClose, s.(merge := Some(m.(pc := LastSend))));
      }
    } else {
      MergeCanMove(c, s);
    }
  }

  /** A merge that reads takes whatever is offered. */
  lemma {:induction false} Arrives(c: Config, m: State, v: StreamVal) returns (m': State)
    requires m.pc.Reading? && v.StmtVal?
    ensures Step(c, m, Arrive(v), m')
  {
    hide Works, OthersWrite, Keys, Accepted;
    var keys := m.keys + Keys(v.stmt);
    m' := if Accepted(c, v)
      then m.(heard := m.heard + [v], keys := keys, pc := if |keys| >= BATCH then Sending(v.stmt) else Appending(v.stmt))
      else m.(heard := m.heard + [v], failed := true, pc := LastSend);
    assert Produces(c, m, Arrive(v), m');
  }

  function ToMove(at: Place): nat {
    match at
    case Unasked => 4
    case Next => 3
    case Offering(stmt) => 3 + ToRead(StmtVal(stmt))
    case Awaiting => 2
    case Ending => 1
    case Finished => 0
  }

  function SessionPotential(c: SessionConfig, s: Session): nat {
    ToMove(s.at) + (if s.merge.Some? then Potential(s.merge.value) else 7 + 3 * c.merge.n) + if Reported(s) then 0 else 1
  }

  function ReadCost(v: PushValue): nat {
    if v.StmtValue? && v.stmt.Some? then 1 + ToRead(StmtVal(v.stmt.value)) else 0
  }

  predicate ByOthers(l: Move) { l.MergeMoves? && l.l.Other? }

  lemma {:induction false} MoveUses(c: SessionConfig, s: Session, l: Move, s': Session)
    requires SessionInv(c, s) && Moves(c, s, l, s')
    ensures SessionPotential(c, s') + (if ByOthers(l) then 0 else 1) <= SessionPotential(c, s) + if l.Read? then ReadCost(l.v) else 0
  {
    hide Inv, Step, Init, Allowed, Potential, ToRead, HeardPushed;
    match l {
      case Forward => MergeUses(c.merge, s.merge.value, Arrive(StmtVal(s.at.stmt)), s'.merge.value);
      case MergeMoves(ml) => MergeUses(c.merge, s.merge.value, ml, s'.merge.value);
      case MergeSeesClose => MergeUses(c.merge, s.merge.value, EndOfStream, s'.merge.value);
      case Ask(_, _) => if s'.merge.Some? && s.merge.None? { StartPotential(c.merge, s'.merge.value); }
      case _ =>
    }
  }

  lemma MergeUses(c: Config, m: State, l: Label, m': State)
    requires Inv(c, m) && Step(c, m, l, m')
    ensures Potential(m') + (if l.Other? then 0 else 1) <= Potential(m) + if l.Arrive? then ToRead(l.v) else 0
  {
    hide Step, Potential, ToRead;
    StepUses(c, m, l, m');
  }

  function OwnMoves(ls: seq<Move>): nat {
    if ls == [] then 0 else OwnMoves(ls[..|ls| - 1]) + if ByOthers(ls[|ls| - 1]) then 0 else 1
  }

  /** A session that has read so much from its peer has made a bounded number of moves. */
  lemma {:induction false} SessionsEnd(c: SessionConfig, ss: seq<Session>, ls: seq<Move>)
    requires Sessions(c, ss, ls)
    ensures OwnMoves(ls) + SessionPotential(c, ss[|ls|]) <= 12 + 3 * c.merge.n + Total(ss[|ls|].read, ReadCost)
    decreases |ls|
  {
    hide SessionInv, ReadCost;
    if ls != [] {
      var n := |ls| - 1;
      SessionsEnd(c, ss[..n + 1], ls[..n]);
      EverySession(c, ss, ls, n);
      assert ss[..n + 1][n] == ss[n] && Moves(c, ss[n], ls[n], ss[n + 1]);
      hide SessionPotential, Moves, Sessions;
      MoveUses(c, ss[n], ls[n], ss[n + 1]);
      ReadGrows(c, ss[n], ls[n], ss[n + 1]);
      if ls[n].Read? { TotalSnoc(ss[n].read, ls[n].v, ReadCost); }
    }
  }

  lemma ReadGrows(c: SessionConfig, s: Session, l: Move, s': Session)
    requires Moves(c, s, l, s')
    ensures s'.read == if l.Read? then s.read + [l.v] else s.read
  {
    hide Step, Init, Admitted;
  }
}
