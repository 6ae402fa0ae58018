/** The sending end of a push (doPush of mcnode/proto.go): it declares the namespaces one query
    finds and sends the statements another finds. */
module PushQuery {
  import opened Std
  import opened Statements
  import opened Tables
  import opened Store
  import opened Queries
  import opened Compile
  import opened Meaning
  import opened Rows
  import opened Push
  import S = Sql
  import E = EvalAgrees
  import L = Limits

  /** The two answers of an unchanged store: of the namespace query, and of the query itself. */
  ghost predicate Answers(q: Query, db: Db, nsRows: seq<seq<S.Value>>, rows: seq<seq<S.Value>>) {
    && Inv(db) && Pushable(q)
    && S.IsAnswer(Plan(NamespaceQuery(q)), db, nsRows)
    && S.IsAnswer(Plan(q), db, rows)
  }

  /** A query for whole statements, as the push interface checks. */
  predicate Pushable(q: Query) {
    WellFormed(q) && IsSimpleSelect(q, "*")
  }

  function NamespaceQuery(q: Query): Query { WithSimpleSelect(q, "namespace") }

  function NamespaceRow(s: Statement): seq<S.Value> { [S.Text(s.namespace)] }

  lemma PushableForm(q: Query)
    requires Pushable(q)
    ensures WellFormed(NamespaceQuery(q)) && Compilable(q) && Compilable(NamespaceQuery(q))
    ensures HasIndex(NamespaceQuery(q)) == HasIndex(q)
    ensures DistinctSelector(NamespaceQuery(q).selector) && !DistinctSelector(q.selector)
  {
  }

  lemma {:induction false} SameChosen(q: Query, recs: seq<Rec>)
    ensures Chosen(NamespaceQuery(q), recs) == Chosen(q, recs)
  {
    if recs != [] { SameChosen(q, recs[1..]); }
  }

  /** What the two answers are drawn from: the same records, shown in two ways. */
  lemma {:induction false} TwoViews(q: Query, db: Db, nsRows: seq<seq<S.Value>>, rows: seq<seq<S.Value>>)
    returns (recs: seq<Rec>, nsCands: seq<S.Candidate>, cands: seq<S.Candidate>)
    requires Inv(db) && Pushable(q)
    ensures Views(q, recs, nsCands, cands)
    ensures var limit := if q.limit > 0 then Some(q.limit) else None;
      && (S.IsAnswer(Plan(NamespaceQuery(q)), db, nsRows) <==> S.Delivers(nsCands, true, OrderDirs(q.order), limit, nsRows))
      && (S.IsAnswer(Plan(q), db, rows) <==> S.Delivers(cands, false, OrderDirs(q.order), limit, rows))
    ensures recs == Chosen(q, Universe(db, HasIndex(q)))
    ensures nsCands == Selected(NamespaceQuery(q), Universe(db, HasIndex(q))) && cands == Selected(q, Universe(db, HasIndex(q)))
  {
    PushableForm(q);
    var nsq := NamespaceQuery(q);
    var all := Universe(db, HasIndex(q));
    CompilePreservesMeaning(nsq, db, nsRows);
    CompilePreservesMeaning(q, db, rows);
    SameChosen(q, all);
    SelectedAreChosen(nsq, all);
    SelectedAreChosen(q, all);
    hide Inv, WellFormed, Compilable, S.IsAnswer, Plan, HasIndex, Universe, S.Delivers, Selected, Chosen, DistinctSelector;
    recs, nsCands, cands := Chosen(q, all), Selected(nsq, all), Selected(q, all);
  }

  /** Without LIMIT no statement is sent outside the declared namespaces. */
  lemma {:induction false} PushStaysDeclared(q: Query, db: Db, nsRows: seq<seq<S.Value>>, rows: seq<seq<S.Value>>, i: nat)
    requires Answers(q, db, nsRows, rows) && q.limit == 0 && i < |rows|
    ensures exists s :: rows[i] == [S.Blob(s)] && NamespaceRow(s) in nsRows
  {
    var recs, nsCands, cands := TwoViews(q, db, nsRows, rows);
    hide Answers, Pushable, Inv;
    var k := DeliveredRow(cands, false, OrderDirs(q.order), None, rows, i);
    var j := E.DeliveredRows(nsCands, true, OrderDirs(q.order), nsRows, k);
    assert rows[i] == [S.Blob(recs[k].stmt)] && nsRows[j] == NamespaceRow(recs[k].stmt);
  }

  // ---- With LIMIT ----

  /** Record `a` may come before record `b` under ORDER BY. */
  predicate SortsBefore(order: Option<seq<OrderSpec>>, a: Rec, b: Rec) {
    S.KeyLeq(OrderDirs(order), SortRow(order, a), SortRow(order, b))
  }

  /** The records that must come before record `k`. */
  ghost function RecordsAhead(order: Option<seq<OrderSpec>>, recs: seq<Rec>, k: nat): set<nat>
    requires k < |recs|
  {
    set j: nat | j < |recs| && !SortsBefore(order, recs[k], recs[j])
  }

  /** The other namespaces of which some record may come before record `k`. */
  ghost function NamesBefore(order: Option<seq<OrderSpec>>, recs: seq<Rec>, k: nat): set<string>
    requires k < |recs|
  {
    set j: nat | j < |recs| && recs[j].stmt.namespace != recs[k].stmt.namespace && SortsBefore(order, recs[j], recs[k]) :: recs[j].stmt.namespace
  }

  /** A namespace with a record that the LIMIT can keep, and with a record behind so many other
      namespaces that the LIMIT can cut it from the list of namespaces. */
  ghost predicate Overtaken(order: Option<seq<OrderSpec>>, recs: seq<Rec>, limit: nat) {
    exists k, k' ::
      && 0 <= k < |recs| && 0 <= k' < |recs| && recs[k].stmt.namespace == recs[k'].stmt.namespace
      && |RecordsAhead(order, recs, k)| < limit && |NamesBefore(order, recs, k')| >= limit
  }

  /** The namespaces of the records a query selects, before LIMIT. */
  ghost function Namespaces(recs: seq<Rec>): set<string> {
    set i | 0 <= i < |recs| :: recs[i].stmt.namespace
  }

  /** Both views sort the same records by the same keys. */
  ghost predicate Views(q: Query, recs: seq<Rec>, nsCands: seq<S.Candidate>, cands: seq<S.Candidate>) {
    && |recs| == |nsCands| == |cands|
    && forall i :: 0 <= i < |recs| ==>
         nsCands[i] == S.Candidate(NamespaceRow(recs[i].stmt), SortRow(q.order, recs[i]))
         && cands[i] == S.Candidate([S.Blob(recs[i].stmt)], SortRow(q.order, recs[i]))
  }

  lemma {:induction false} UniformViews(q: Query, recs: seq<Rec>, nsCands: seq<S.Candidate>, cands: seq<S.Candidate>)
    requires Views(q, recs, nsCands, cands) && WellFormed(q)
    ensures L.AllUniform(nsCands) && L.AllUniform(cands)
  {
    forall i, j | 0 <= i < |recs| && 0 <= j < |recs| ensures L.Uniform(SortRow(q.order, recs[i]), SortRow(q.order, recs[j])) {
    }
    hide SortRow, L.Uniform;
    forall i, j | 0 <= i < |recs| && 0 <= j < |recs|
      ensures L.Uniform(nsCands[i].keys, nsCands[j].keys) && L.Uniform(cands[i].keys, cands[j].keys)
    {
    }
  }

  lemma {:induction false} AheadOfViews(q: Query, recs: seq<Rec>, nsCands: seq<S.Candidate>, cands: seq<S.Candidate>, k: nat)
    requires Views(q, recs, nsCands, cands) && k < |recs|
    ensures L.Ahead(cands, OrderDirs(q.order), k) == RecordsAhead(q.order, recs, k)
    ensures |L.Rivals(nsCands, OrderDirs(q.order), k)| == |NamesBefore(q.order, recs, k)|
  {
    hide S.KeyLeq, SortRow, OrderDirs;
    var rivals, names := L.Rivals(nsCands, OrderDirs(q.order), k), NamesBefore(q.order, recs, k);
    var shown := set ns | ns in names :: [S.Text(ns)];
    assert shown == rivals by {
      forall row: seq<S.Value> | row in rivals ensures row in shown {
        var j: nat :| j < |nsCands| && nsCands[j].row != nsCands[k].row && L.Before(nsCands, OrderDirs(q.order), j, k) && row == nsCands[j].row;
        assert recs[j].stmt.namespace in names;
      }
      forall row: seq<S.Value> | row in shown ensures row in rivals {
        var ns :| ns in names && row == [S.Text(ns)];
        var j: nat :| j < |recs| && recs[j].stmt.namespace == ns && ns != recs[k].stmt.namespace && SortsBefore(q.order, recs[j], recs[k]);
        assert nsCands[j].row == row && nsCands[k].row == [S.Text(recs[k].stmt.namespace)];
        assert row[0].s != nsCands[k].row[0].s;
        assert L.Before(nsCands, OrderDirs(q.order), j, k);
      }
    }
    TextsCount(names);
  }

  lemma {:induction false} TextsCount(names: set<string>)
    ensures |set ns | ns in names :: [S.Text(ns)]| == |names|
  {
    if names != {} {
      var n :| n in names;
      TextsCount(names - {n});
      var rest := set ns | ns in names - {n} :: [S.Text(ns)];
      assert [S.Text(n)] !in rest by {
        forall ns | ns in names - {n} ensures [S.Text(ns)] != [S.Text(n)] { assert [S.Text(ns)][0].s != [S.Text(n)][0].s; }
      }
      assert (set ns | ns in names :: [S.Text(ns)]) == rest + {[S.Text(n)]};
    }
  }

  /** With LIMIT, a push is sure to stay within the namespaces it declares exactly when no namespace
      is overtaken: whatever ORDER BY, and whichever rows the database may choose. */
  lemma {:induction false} LimitedPush(q: Query, db: Db)
    requires Inv(db) && Pushable(q) && q.limit > 0
    ensures (forall nsRows, rows, s :: Answers(q, db, nsRows, rows) && [S.Blob(s)] in rows ==> NamespaceRow(s) in nsRows)
      <==> !Overtaken(q.order, Chosen(q, Universe(db, HasIndex(q))), q.limit)
  {
    var recs := Chosen(q, Universe(db, HasIndex(q)));
    hide Universe, HasIndex, Chosen, Inv, Pushable, S.Delivers, S.IsAnswer, Plan, RecordsAhead, NamesBefore;
    if Overtaken(q.order, recs, q.limit) {
      var nsRows, rows, s := OutsideAnswer(q, db, recs);
      assert Answers(q, db, nsRows, rows) && [S.Blob(s)] in rows && NamespaceRow(s) !in nsRows;
    } else {
      forall nsRows, rows, s | Answers(q, db, nsRows, rows) && [S.Blob(s)] in rows ensures NamespaceRow(s) in nsRows {
        if NamespaceRow(s) !in nsRows { OutsideIsOvertaken(q, db, nsRows, rows, s); }
      }
    }
  }

  /** A statement sent outside the declared namespaces shows that its namespace is overtaken. */
  lemma {:induction false} OutsideIsOvertaken(q: Query, db: Db, nsRows: seq<seq<S.Value>>, rows: seq<seq<S.Value>>, s: Statement)
    requires Answers(q, db, nsRows, rows) && q.limit > 0 && [S.Blob(s)] in rows && NamespaceRow(s) !in nsRows
    ensures Overtaken(q.order, Chosen(q, Universe(db, HasIndex(q))), q.limit)
  {
    var recs, nsCands, cands := TwoViews(q, db, nsRows, rows);
    hide Universe, HasIndex, Chosen, Inv, Pushable, S.Delivers, S.IsAnswer, Plan, SortRow, RecordsAhead, NamesBefore, L.Ahead, L.Rivals;
    var i :| 0 <= i < |rows| && rows[i] == [S.Blob(s)];
    var k := L.KeptHasFewAhead(cands, OrderDirs(q.order), q.limit, rows, i);
    assert cands[k].row == [S.Blob(recs[k].stmt)] && [S.Blob(recs[k].stmt)][0].stmt == s;
    assert nsCands[k].row == NamespaceRow(s);
    var k' := L.CutHasRivals(nsCands, OrderDirs(q.order), q.limit, nsRows, k);
    assert NamespaceRow(recs[k'].stmt)[0].s == recs[k].stmt.namespace;
    AheadOfViews(q, recs, nsCands, cands, k);
    AheadOfViews(q, recs, nsCands, cands, k');
  }

  /** An overtaken namespace: answers the database may give that send a statement outside. */
  lemma {:induction false} OutsideAnswer(q: Query, db: Db, recs: seq<Rec>)
    returns (nsRows: seq<seq<S.Value>>, rows: seq<seq<S.Value>>, s: Statement)
    requires Inv(db) && Pushable(q) && q.limit > 0
    requires recs == Chosen(q, Universe(db, HasIndex(q))) && Overtaken(q.order, recs, q.limit)
    ensures Answers(q, db, nsRows, rows) && [S.Blob(s)] in rows && NamespaceRow(s) !in nsRows
  {
    var _, nsCands, cands := TwoViews(q, db, [], []);
    UniformViews(q, recs, nsCands, cands);
    hide Universe, HasIndex, Chosen, Inv, Pushable, S.Delivers, S.IsAnswer, Plan, SortRow, RecordsAhead, NamesBefore, L.Ahead, L.Rivals, L.AllUniform;
    var k, k' :| 0 <= k < |recs| && 0 <= k' < |recs| && recs[k].stmt.namespace == recs[k'].stmt.namespace
      && |RecordsAhead(q.order, recs, k)| < q.limit && |NamesBefore(q.order, recs, k')| >= q.limit;
    AheadOfViews(q, recs, nsCands, cands, k);
    AheadOfViews(q, recs, nsCands, cands, k');
    rows := L.CanBeKept(cands, OrderDirs(q.order), k, q.limit);
    nsRows := L.CanBeCut(nsCands, OrderDirs(q.order), k', q.limit);
    s := recs[k].stmt;
    var _, nsCands', cands' := TwoViews(q, db, nsRows, rows);
    assert cands[k].row == [S.Blob(s)] && nsCands[k'].row == NamespaceRow(s);
  }

  /** No more namespaces than the LIMIT: none is overtaken, whatever the order. */
  lemma {:induction false} FewNamespacesAreSafe(order: Option<seq<OrderSpec>>, recs: seq<Rec>, limit: nat)
    requires |Namespaces(recs)| <= limit
    ensures !Overtaken(order, recs, limit)
  {
    hide SortsBefore;
    forall k | 0 <= k < |recs| ensures |NamesBefore(order, recs, k)| < limit {
      assert NamesBefore(order, recs, k) <= Namespaces(recs) - {recs[k].stmt.namespace};
      L.SubsetSize(NamesBefore(order, recs, k), Namespaces(recs) - {recs[k].stmt.namespace});
    }
  }

  /** Without ORDER BY more namespaces than the LIMIT are not safe. */
  lemma {:induction false} UnorderedPush(recs: seq<Rec>, limit: nat)
    requires limit > 0
    ensures Overtaken(None, recs, limit) <==> |Namespaces(recs)| > limit
  {
    if |Namespaces(recs)| <= limit {
      FewNamespacesAreSafe(None, recs, limit);
    } else {
      assert recs != [] by { NoRecords(recs); }
      assert RecordsAhead(None, recs, 0) == {};
      assert NamesBefore(None, recs, 0) == Namespaces(recs) - {recs[0].stmt.namespace};
    }
  }

  lemma NoRecords(recs: seq<Rec>)
    ensures recs == [] ==> Namespaces(recs) == {}
  {
  }

  /** ORDER BY that starts with the namespace, in either direction, is always safe. */
  lemma {:induction false} NamespaceOrderIsSafe(order: Option<seq<OrderSpec>>, recs: seq<Rec>, limit: nat)
    requires order.Some? && order.value != [] && order.value[0].sel == "namespace"
    ensures !Overtaken(order, recs, limit)
  {
    forall k, k' | 0 <= k < |recs| && 0 <= k' < |recs| && recs[k].stmt.namespace == recs[k'].stmt.namespace
      ensures |NamesBefore(order, recs, k')| <= |RecordsAhead(order, recs, k)|
    {
      NamesAreAhead(order, recs, k, k');
    }
  }

  lemma {:induction false} NamesAreAhead(order: Option<seq<OrderSpec>>, recs: seq<Rec>, k: nat, k': nat)
    requires order.Some? && order.value != [] && order.value[0].sel == "namespace"
    requires k < |recs| && k' < |recs| && recs[k].stmt.namespace == recs[k'].stmt.namespace
    ensures |NamesBefore(order, recs, k')| <= |RecordsAhead(order, recs, k)|
  {
    var ahead := RecordsAhead(order, recs, k);
    var names := set j | j in ahead && j < |recs| :: recs[j].stmt.namespace;
    forall ns | ns in NamesBefore(order, recs, k') ensures ns in names {
      var j: nat :| j < |recs| && recs[j].stmt.namespace == ns && ns != recs[k'].stmt.namespace && SortsBefore(order, recs[j], recs[k']);
      StrictlyAhead(order, recs[j], recs[k'], recs[k]);
      assert j in ahead;
    }
    hide RecordsAhead, NamesBefore;
    L.SubsetSize(NamesBefore(order, recs, k'), names);
    NamesCount(recs, ahead);
  }

  lemma {:induction false} StrictlyAhead(order: Option<seq<OrderSpec>>, a: Rec, b: Rec, b': Rec)
    requires order.Some? && order.value != [] && order.value[0].sel == "namespace"
    requires a.stmt.namespace != b.stmt.namespace == b'.stmt.namespace && SortsBefore(order, a, b)
    ensures !SortsBefore(order, b', a)
  {
    L.TextTotal(a.stmt.namespace, b.stmt.namespace);
    assert SortRow(order, a)[0] == S.Text(a.stmt.namespace) && SortRow(order, b)[0] == S.Text(b.stmt.namespace);
    assert SortRow(order, b')[0] == S.Text(b.stmt.namespace);
    hide FieldValue;
  }

  lemma {:induction false} NamesCount(recs: seq<Rec>, some: set<nat>)
    ensures |set j | j in some && j < |recs| :: recs[j].stmt.namespace| <= |some|
    decreases |some|
  {
    var names := set j | j in some && j < |recs| :: recs[j].stmt.namespace;
    if some != {} {
      var k :| k in some;
      NamesCount(recs, some - {k});
      var rest := set j | j in some - {k} && j < |recs| :: recs[j].stmt.namespace;
      if k < |recs| {
        assert names == rest + {recs[k].stmt.namespace};
      } else {
        assert names == rest;
      }
    } else {
      assert names == {};
    }
  }

  // ---- The sending end ----

  datatype PushReply = Accepted | Rejected | OtherReply | NoReply

  /** What the select of the sending loop sees: the next statement or the end of the query, an
      end message of the peer, or a cancellation. */
  datatype Event = QueryGoes | PeerEnds | Cancels

  datatype PushEnd = NothingToPush | NotConnected | NotAccepted | WriteFailed | DbError(e: StoreError) | PeerEnded | Ended

  function Declared(nsRows: seq<seq<S.Value>>): (nss: seq<string>)
    ensures |nss| == |nsRows|
  {
    seq(|nsRows|, i requires 0 <= i < |nsRows| => if nsRows[i] != [] && nsRows[i][0].Text? then nsRows[i][0].s else "")
  }

  /** No answers the database may give send a statement outside the declared namespaces. */
  ghost predicate SafePush(q: Query, db: Db)
    requires Inv(db)
  {
    q.limit <= 0 || !Overtaken(q.order, Chosen(q, Universe(db, HasIndex(q))), q.limit)
  }

  lemma {:induction false} SafeStaysDeclared(q: Query, db: Db, nsRows: seq<seq<S.Value>>, rows: seq<seq<S.Value>>, i: nat, s: Statement)
    requires Answers(q, db, nsRows, rows) && SafePush(q, db) && i < |rows| && rows[i] == [S.Blob(s)]
    ensures NamespaceRow(s) in nsRows
  {
    hide Overtaken, Chosen, Universe, HasIndex, WellFormed, S.IsAnswer, Inv;
    assert rows[i] in rows;
    if q.limit == 0 {
      PushStaysDeclared(q, db, nsRows, rows, i);
      var s' :| rows[i] == [S.Blob(s')] && NamespaceRow(s') in nsRows;
      assert [S.Blob(s')][0].stmt == s;
    } else {
      assert q.limit > 0 by { LimitInRange(q); }
      LimitedPush(q, db);
    }
  }

  lemma LimitInRange(q: Query)
    requires Pushable(q)
    ensures q.limit >= 0
  {
  }

  /** Pushes the statements of a query. `nsAnswer` and `answer` are what the database delivers for
      the two queries, `events` what the loop's select sees, `writes(n)` whether message n can be
      written, the request being the first. Nothing is sent before the peer accepts, and the end
      value only as the last; when the database does not fail every statement sent lies in a
      declared namespace, if there is no LIMIT or no namespace is overtaken. */
  method {:induction false} DoPush(sdb: SqlDb, q: Query, nsAnswer: seq<seq<S.Value>>, answer: seq<seq<S.Value>>,
      connected: bool, reply: PushReply, events: nat -> Event, writes: nat -> bool)
    returns (declared: seq<string>, sent: seq<PushValue>, end: PushEnd)
    requires Answers(q, sdb.db, nsAnswer, answer)
    modifies sdb`calls
    ensures !(connected && writes(0) && reply.Accepted?) ==> sent == []
    ensures forall i :: 0 <= i < |sent| - (if end.Ended? then 1 else 0) ==> SendsRow(answer, sent, i)
    ensures end.Ended? ==> sent != [] && sent[|sent| - 1] == EndValue
    ensures Orderly(sent)
    ensures end.Ended? && |sent| <= |answer| ==> sdb.Failed(old(sdb.calls)) || events(|sent| - 1).Cancels?
    ensures |declared| <= |nsAnswer| && forall i :: 0 <= i < |declared| ==> nsAnswer[i] == [S.Text(declared[i])]
    ensures |declared| < |nsAnswer| ==> sdb.Failed(old(sdb.calls))
    ensures match end
      case NothingToPush => declared == []
      case NotConnected => !connected
      case NotAccepted => !reply.Accepted?
      case WriteFailed => connected && exists n :: !writes(n)
      case DbError(_) => sdb.Failed(old(sdb.calls))
      case PeerEnded => events(|sent|).PeerEnds?
      case Ended => declared != []
    ensures !sdb.Failed(old(sdb.calls)) && SafePush(q, sdb.db) ==> Within(declared, sent)
  {
    hide Inv, S.IsAnswer, Plan, WellFormed, SafePush, ObjectsOf, ShowsOne, AggregateIs, ReadsPrefix, Declared;
    PushableForm(q);
    declared, sent := [], [];
    var nsr := sdb.Query(NamespaceQuery(q), nsAnswer);
    if nsr.Err? { return declared, sent, DbError(nsr.error); }
    DeclaredRows(q, nsAnswer, nsr.value);
    if |nsr.value| == 0 { return declared, sent, NothingToPush; }
    ghost var failed :| |nsr.value| < |nsAnswer| ==> old(sdb.calls) <= failed < sdb.calls && sdb.fails(failed);
    declared := Declared(nsAnswer[..|nsr.value|]);
    if !connected { return declared, sent, NotConnected; }
    if !writes(0) { return declared, sent, WriteFailed; }
    if !reply.Accepted? { return declared, sent, NotAccepted; }
    var stmts := sdb.QueryStream(q, answer, None);
    if stmts.Err? { return declared, sent, DbError(stmts.error); }
    ghost var safe := !sdb.Failed(old(sdb.calls)) && SafePush(q, sdb.db);
    assert |nsr.value| < |nsAnswer| ==> sdb.Failed(old(sdb.calls));
    assert nsAnswer[..|nsAnswer|] == nsAnswer;
    ghost var calls := sdb.calls;
    while true
      invariant sdb.calls == calls
      invariant |sent| <= |stmts.value|
      invariant forall j :: 0 <= j < |sent| ==> SendsRow(answer, sent, j)
      invariant Orderly(sent) && (safe ==> Within(declared, sent))
      invariant !sdb.Failed(old(sdb.calls)) ==> |stmts.value| == |answer|
      decreases |stmts.value| - |sent|
    {
      var i := |sent|;
      match events(i) {
        case PeerEnds => return declared, sent, PeerEnded;
        case Cancels => break;
        case QueryGoes => if i == |stmts.value| { break; }
      }
      if !writes(i + 1) { return declared, sent, WriteFailed; }
      StatementRow(q, sdb.db, answer, stmts.value, i);
      var s := stmts.value[i].stmt;
      if safe {
        SafeStaysDeclared(q, sdb.db, nsAnswer, answer, i, s);
        InDeclared(nsAnswer, s);
      }
      SendsMore(answer, sent, s);
      sent := sent + [StmtValue(Some(s))];
    }
    if !writes(|sent| + 1) { return declared, sent, WriteFailed; }
    EndKeeps(answer, sent);
    return declared, sent + [EndValue], Ended;
  }

  /** Every value sent is a statement or the end value. */
  predicate Orderly(sent: seq<PushValue>) {
    forall i :: 0 <= i < |sent| ==> sent[i].EndValue? || (sent[i].StmtValue? && sent[i].stmt.Some?)
  }

  /** Every statement sent has a declared namespace. */
  predicate Within(declared: seq<string>, sent: seq<PushValue>) {
    forall i :: 0 <= i < |sent| && sent[i].StmtValue? && sent[i].stmt.Some? ==> sent[i].stmt.value.namespace in declared
  }

  /** Value `i` is the statement of row `i`. */
  predicate SendsRow(answer: seq<seq<S.Value>>, sent: seq<PushValue>, i: nat) {
    i < |sent| && i < |answer| && sent[i].StmtValue? && sent[i].stmt.Some? && answer[i] == [S.Blob(sent[i].stmt.value)]
  }

  lemma SendsMore(answer: seq<seq<S.Value>>, sent: seq<PushValue>, s: Statement)
    requires |sent| < |answer| && answer[|sent|] == [S.Blob(s)] && forall i :: 0 <= i < |sent| ==> SendsRow(answer, sent, i)
    ensures forall i :: 0 <= i <= |sent| ==> SendsRow(answer, sent + [StmtValue(Some(s))], i)
  {
    forall i | 0 <= i <= |sent| ensures SendsRow(answer, sent + [StmtValue(Some(s))], i) {
      assert i < |sent| ==> SendsRow(answer, sent, i);
    }
  }

  lemma EndKeeps(answer: seq<seq<S.Value>>, sent: seq<PushValue>)
    requires forall i :: 0 <= i < |sent| ==> SendsRow(answer, sent, i)
    ensures forall i :: 0 <= i < |sent| ==> SendsRow(answer, sent + [EndValue], i)
  {
    forall i | 0 <= i < |sent| ensures SendsRow(answer, sent + [EndValue], i) {
      assert SendsRow(answer, sent, i);
    }
  }

  /** What a whole-statement query delivers are the statements of its rows. */
  lemma {:induction false} StatementRow(q: Query, db: Db, answer: seq<seq<S.Value>>, objs: seq<Obj>, i: nat)
    requires Inv(db) && Pushable(q) && S.IsAnswer(Plan(q), db, answer) && ReadsPrefix(q, answer, objs) && i < |objs|
    ensures objs[i].StmtObj? && answer[i] == [S.Blob(objs[i].stmt)]
  {
    PushableForm(q);
    CompilePreservesMeaning(q, db, answer);
    hide Inv, WellFormed, S.IsAnswer, Plan, Means;
    var rec := AnswersScan(q, db, answer, i);
    assert answer[..|objs|][i] == answer[i];
  }

  /** Each namespace declared is the one a row shows. */
  lemma {:induction false} DeclaredRows(q: Query, nsAnswer: seq<seq<S.Value>>, objs: seq<Obj>)
    requires ReadsPrefix(NamespaceQuery(q), nsAnswer, objs)
    ensures |objs| <= |nsAnswer|
    ensures forall i :: 0 <= i < |objs| ==> nsAnswer[i] == [S.Text(Declared(nsAnswer[..|objs|])[i])]
  {
    var rows := nsAnswer[..|objs|];
    forall i | 0 <= i < |objs| ensures nsAnswer[i] == [S.Text(Declared(rows)[i])] {
      assert rows[i] == nsAnswer[i];
      assert Scan(CompileQueryRowSelector(NamespaceQuery(q)).value, rows[i]) == Ok(objs[i]);
    }
  }

  lemma InDeclared(nsRows: seq<seq<S.Value>>, s: Statement)
    ensures NamespaceRow(s) in nsRows ==> s.namespace in Declared(nsRows)
  {
    if NamespaceRow(s) in nsRows {
      var i :| 0 <= i < |nsRows| && nsRows[i] == NamespaceRow(s);
      assert Declared(nsRows)[i] == s.namespace;
    }
  }
}
