/** `doGC` of mcnode/gc.go: every stored statement feeds the table, then the store is swept. */
module NodeGc {
  import opened Std
  import opened Statements
  import opened Tables
  import opened Batches
  import opened Store
  import opened Datastore
  import opened Gc
  import opened Queries
  import C = Compile
  import M = Meaning
  import R = Rows
  import S = Sql
  import E = EvalAgrees
  import P = Printer
  import PP = ParsePrint
  import PQ = ParseQuery

  const ALL_STATEMENTS := "SELECT * FROM *"

  function AllStatements(): Query {
    Query(OpSelect, "*", SimpleSelector("*"), None, None, 0)
  }

  lemma AllStatementsForm()
    ensures WellFormed(AllStatements()) && C.Compilable(AllStatements()) && !C.HasIndex(AllStatements())
  {
  }

  lemma AllStatementsText()
    requires WellFormed(AllStatements())
    ensures P.Print(AllStatements()) == ALL_STATEMENTS
  {
    hide WellFormed;
    assert "*" + ("" + ("" + "")) == "*";
    assert P.PrintWhere(None) == "" && P.PrintOrder(None) == "" && P.PrintLimit(0) == "";
    assert P.PrintSelector(SimpleSelector("*")) == "*";
    assert "SELECT " + ("*" + (" FROM " + "*")) == ALL_STATEMENTS;
  }

  lemma AllStatementsParses()
    ensures PQ.Parsed(ALL_STATEMENTS) == Ok(AllStatements())
  {
    AllStatementsForm();
    AllStatementsText();
    hide WellFormed, PQ.Parsed, P.Print;
    PP.ParseUndoesPrint(AllStatements());
  }

  function StreamOf(objs: seq<R.Obj>): (stream: seq<StreamVal>)
    ensures |stream| == |objs|
  {
    seq(|objs|, i requires 0 <= i < |objs| => if objs[i].StmtObj? then StmtVal(objs[i].stmt) else OtherVal)
  }

  ghost predicate Answered(db: Db, answer: seq<seq<S.Value>>) {
    Inv(db) && S.IsAnswer(C.Plan(AllStatements()), db, answer)
  }

  lemma {:induction false} OnlyContents(db: Db, answer: seq<seq<S.Value>>, objs: seq<R.Obj>, i: nat)
    requires Inv(db) && M.Means(AllStatements(), db, answer)
    requires ReadsPrefix(AllStatements(), answer, objs) && i < |objs|
    ensures objs[i].StmtObj? && objs[i].stmt in Contents(db)
  {
    AllStatementsForm();
    var recs := M.Entries(db.stmts, db.envs);
    hide Inv, M.Means, WellFormed, C.Compilable;
    var rec := R.AnswersScan(AllStatements(), db, answer, i);
    assert answer[..|objs|][i] == answer[i];
    var k :| 0 <= k < |recs| && recs[k] == rec;
    assert Contents(db)[k] == rec.stmt;
  }

  lemma {:induction false} AllContents(db: Db, answer: seq<seq<S.Value>>, objs: seq<R.Obj>, i: nat)
    requires Inv(db) && M.Means(AllStatements(), db, answer)
    requires ReadsPrefix(AllStatements(), answer, objs) && |objs| == |answer| && i < |Contents(db)|
    ensures R.StmtObj(Contents(db)[i]) in objs
  {
    AllStatementsForm();
    var q, s := AllStatements(), Contents(db)[i];
    var recs := M.Entries(db.stmts, db.envs);
    var cands := M.Selected(q, recs);
    R.SelectedAreChosen(q, recs);
    assert S.Delivers(cands, false, M.OrderDirs(q.order), None, answer);
    assert M.Selects(q, recs[i]) && recs[i] in R.Chosen(q, recs);
    hide Inv, M.Means, WellFormed, C.Compilable, S.Delivers, M.Selected, M.Selects;
    var k :| 0 <= k < |R.Chosen(q, recs)| && R.Chosen(q, recs)[k] == recs[i];
    var j := E.DeliveredRows(cands, false, M.OrderDirs(q.order), answer, k);
    assert answer[..|objs|] == answer;
    assert answer[j] == [S.Blob(s)];
    assert objs[j] == R.StmtObj(s);
  }

  /** The query delivers every stored statement, and only those, in some order. */
  lemma {:induction false} DeliversContents(db: Db, answer: seq<seq<S.Value>>, objs: seq<R.Obj>)
    requires Answered(db, answer) && ReadsPrefix(AllStatements(), answer, objs)
    ensures forall i :: 0 <= i < |objs| ==> objs[i].StmtObj? && objs[i].stmt in Contents(db)
    ensures |objs| == |answer| ==> forall s :: s in Contents(db) ==> R.StmtObj(s) in objs
  {
    var q := AllStatements();
    AllStatementsForm();
    M.CompilePreservesMeaning(q, db, answer);
    hide Inv, M.Means, S.IsAnswer, ReadsPrefix, WellFormed, Contents;
    forall i | 0 <= i < |objs| ensures objs[i].StmtObj? && objs[i].stmt in Contents(db) {
      OnlyContents(db, answer, objs, i);
    }
    if |objs| == |answer| {
      forall s | s in Contents(db) ensures R.StmtObj(s) in objs {
        var i :| 0 <= i < |Contents(db)| && Contents(db)[i] == s;
        AllContents(db, answer, objs, i);
      }
    }
  }

  lemma {:induction false} StreamKeysBySet(a: seq<Statement>, b: seq<Statement>)
    requires forall s :: s in a ==> s in b
    ensures StreamKeys(a) <= StreamKeys(b)
  {
    hide Collected;
    forall k | k in StreamKeys(a) ensures k in StreamKeys(b) {
      var i :| 0 <= i < |a| && k in Collected(a[i]).0;
      assert a[i] in b;
      var j :| 0 <= j < |b| && b[j] == a[i];
    }
  }

  lemma {:induction false} DeliveredObjects(objs: seq<R.Obj>)
    requires forall i :: 0 <= i < |objs| ==> objs[i].StmtObj?
    ensures |Delivered(StreamOf(objs))| == |objs|
    ensures forall i :: 0 <= i < |objs| ==> Delivered(StreamOf(objs))[i] == objs[i].stmt
  {
    if objs != [] {
      DeliveredObjects(objs[1..]);
      assert StreamOf(objs)[1..] == StreamOf(objs[1..]);
    }
  }

  /** The keys collected are those of the stored statements, whatever order they come in. */
  lemma {:induction false} CollectsContents(db: Db, objs: seq<R.Obj>)
    requires forall i :: 0 <= i < |objs| ==> objs[i].StmtObj? && objs[i].stmt in Contents(db)
    requires forall s :: s in Contents(db) ==> R.StmtObj(s) in objs
    ensures |Delivered(StreamOf(objs))| == |objs|
    ensures StreamKeys(Delivered(StreamOf(objs))) == StreamKeys(Contents(db))
  {
    hide StreamKeys, Contents, StreamOf, Delivered;
    DeliveredObjects(objs);
    var d := Delivered(StreamOf(objs));
    forall s | s in d ensures s in Contents(db) {
      var i :| 0 <= i < |d| && d[i] == s;
    }
    forall s | s in Contents(db) ensures s in d {
      var i :| 0 <= i < |objs| && objs[i] == R.StmtObj(s);
      assert d[i] == s;
    }
    StreamKeysBySet(d, Contents(db));
    StreamKeysBySet(Contents(db), d);
  }

  /** The statements among the objects a query delivers. */
  function StmtsOf(objs: seq<R.Obj>): seq<Statement> {
    Delivered(StreamOf(objs))
  }

  /** What one collection has seen: statements of the store, one for each row it was delivered. */
  ghost predicate Saw(db: Db, answer: seq<seq<S.Value>>, seen: seq<Statement>) {
    && |seen| <= |answer|
    && (forall s :: s in seen ==> s in Contents(db))
    && (|seen| == |answer| ==> StreamKeys(seen) == StreamKeys(Contents(db)))
  }

  lemma {:induction false} DeliveredSaw(db: Db, answer: seq<seq<S.Value>>, objs: seq<R.Obj>)
    requires Answered(db, answer) && ReadsPrefix(AllStatements(), answer, objs)
    ensures (forall i :: 0 <= i < |objs| ==> objs[i].StmtObj?) && |StmtsOf(objs)| == |objs|
    ensures Saw(db, answer, StmtsOf(objs))
  {
    hide Answered, ReadsPrefix, StreamKeys, Contents, StreamOf, Delivered;
    DeliversContents(db, answer, objs);
    DeliveredObjects(objs);
    NoMoreThanRows(answer, objs);
    if |objs| == |answer| { CollectsContents(db, objs); }
    forall s | s in StmtsOf(objs) ensures s in Contents(db) {
      var i :| 0 <= i < |StmtsOf(objs)| && StmtsOf(objs)[i] == s;
      assert objs[i].stmt == s;
    }
  }

  lemma NoMoreThanRows(answer: seq<seq<S.Value>>, objs: seq<R.Obj>)
    requires ReadsPrefix(AllStatements(), answer, objs)
    ensures |objs| <= |answer|
  {
  }

  /** A second run, which queries and collects again into a new table and may be delivered the
      statements in another order, removes nothing when both runs were delivered all: it counts 0. */
  lemma {:induction false} SecondRunRemovesNone(c: Codec, db: Db, answer: seq<seq<S.Value>>, objs: seq<R.Obj>,
      answer': seq<seq<S.Value>>, objs': seq<R.Obj>, store: map<Bytes, Bytes>)
    requires Answered(db, answer) && ReadsPrefix(AllStatements(), answer, objs) && |objs| == |answer|
    requires Answered(db, answer') && ReadsPrefix(AllStatements(), answer', objs') && |objs'| == |answer'|
    ensures var once := Survivors(c, StreamKeys(StmtsOf(objs)), store);
      var twice := Survivors(c, StreamKeys(StmtsOf(objs')), once);
      twice == once && |once| - |twice| == 0
  {
    DeliveredSaw(db, answer, objs);
    DeliveredSaw(db, answer', objs');
    hide StreamKeys, StmtsOf, Answered, ReadsPrefix, Contents;
    var once := Survivors(c, StreamKeys(StmtsOf(objs)), store);
    assert Survivors(c, StreamKeys(StmtsOf(objs')), once) == once;
  }

  /** A run over clean statements that did not see all of them, because a row was not delivered or
      the context was cancelled, keeps exactly what the statements it saw name, of the objects it
      was given. */
  lemma {:induction false} CutShortKeeps(c: Codec, db: Db, answer: seq<seq<S.Value>>, seen: seq<Statement>, store: map<Bytes, Bytes>, d: Bytes)
    requires Saw(db, answer, seen) && (forall s :: s in Contents(db) ==> Clean(s)) && d in store
    ensures d in Survivors(c, StreamKeys(seen), store) <==> Referenced(c, seen, d)
    ensures Referenced(c, seen, d) ==> Referenced(c, Contents(db), d)
  {
    hide StreamKeys, Contents, Clean, Keys, Mentions;
    forall i | 0 <= i < |seen| ensures Clean(seen[i]) { assert seen[i] in seen; }
    GcIsExact(c, seen, store);
    if i :| 0 <= i < |seen| && Mentions(seen[i], c.b58(HashFromBytes(d))) {
      assert seen[i] in Contents(db);
      var j :| 0 <= j < |Contents(db)| && Contents(db)[j] == seen[i];
    }
  }

  lemma NamesItsObject(c: Codec, stmt: Statement, data: Bytes)
    requires stmt.body.SimpleBody? && stmt.body.simple.obj == c.b58(Hash(c, data))
    ensures Referenced(c, [stmt], c.sha256(data)) && ContentAddressed(c, map[c.sha256(data) := data])
  {
    assert HashFromBytes(c.sha256(data)) == Hash(c, data);
    assert Mentions([stmt][0], stmt.body.simple.obj);
  }

  /** So a failure that goes unreported loses objects: with one stored statement, and its row not
      delivered, the object it names is removed. */
  lemma {:induction false} CutShortLoses(c: Codec, db: Db, answer: seq<seq<S.Value>>, stmt: Statement, data: Bytes)
    requires Contents(db) == [stmt] && |answer| == 1 && stmt.body.SimpleBody? && stmt.body.simple.obj == c.b58(Hash(c, data))
    ensures Saw(db, answer, []) && Referenced(c, Contents(db), c.sha256(data))
    ensures ContentAddressed(c, map[c.sha256(data) := data])
    ensures c.sha256(data) !in Survivors(c, StreamKeys([]), map[c.sha256(data) := data])
  {
    NamesItsObject(c, stmt, data);
    NoStreamKeys();
  }

  datatype GcResult = NodeMustBeOffline | Stopped(deleted: nat) | Swept(deleted: nat)

  /** The first half: the keys of every statement delivered go to the table. A cancelled context
      ends the query after `cut` statements, without an error. */
  method CollectStored(sdb: SqlDb, gc: GcDb, answer: seq<seq<S.Value>>, cut: Option<nat>) returns (ok: bool, ghost seen: seq<Statement>)
    requires Answered(sdb.db, answer)
    modifies sdb`calls, gc`refs, gc`calls
    ensures old(sdb.calls) <= sdb.calls && old(gc.calls) <= gc.calls
    ensures ok ==> gc.refs == old(gc.refs) + StreamKeys(seen) && Saw(sdb.db, answer, seen) && |seen| <= CutAt(cut, |answer|)
    ensures ok && |seen| < CutAt(cut, |answer|) ==> sdb.Failed(old(sdb.calls))
    ensures !ok ==> sdb.Failed(old(sdb.calls)) || gc.Failed(old(gc.calls))
  {
    AllStatementsForm();
    AllStatementsParses();
    var q := PQ.ParseQuery(ALL_STATEMENTS);
    hide AllStatements, Inv, S.IsAnswer, C.Plan, WellFormed, C.Compilable, StreamKeys, Contents, StreamOf, Delivered, C.HasIndex;
    hide PQ.Parsed, R.ScanAll, Saw;
    seen := [];
    var objs := sdb.QueryStream(q.value, answer, cut);
    if objs.Err? { return false, seen; }
    DeliveredSaw(sdb.db, answer, objs.value);
    seen := StmtsOf(objs.value);
    var merged := gc.Merge(StreamOf(objs.value));
    assert merged.Err? ==> merged == Err(GcError.IoError) && gc.Failed(old(gc.calls));
    return merged.Ok?, seen;
  }

  /** Garbage collection of an offline node. Nothing is removed unless the keys of all statements seen
      were collected, and then only objects these do not name, also when the sweep stops midway. A cancelled context ends the query of the statements
      after `rowCut` of them, and the listing of the objects after `keyCut`: neither is an error.
      What is removed are objects among those listed whose keys were not collected from the
      statements seen. Only when neither is cut and no call of the statement database fails is what
      is left exactly what the stored statements' keys say; the count says how many went. */
  method DoGc(offline: bool, sdb: SqlDb, ds: RocksDs, fails: nat -> bool, answer: seq<seq<S.Value>>, rowCut: Option<nat>, keyCut: Option<nat>)
    returns (r: GcResult, ghost seen: seq<Statement>)
    requires Answered(sdb.db, answer) && Sound(ds.codec)
    modifies sdb`calls, ds`store, ds`calls
    ensures !offline ==> r == NodeMustBeOffline && ds.store == old(ds.store)
    ensures offline ==> !r.NodeMustBeOffline?
    ensures r.Swept? ==> Saw(sdb.db, answer, seen) && |seen| <= CutAt(rowCut, |answer|)
    ensures r.Swept? ==> SweepLeaves(ds.codec, StreamKeys(seen), keyCut, old(ds.store), ds.store)
    ensures r.Swept? && |seen| < CutAt(rowCut, |answer|) ==> sdb.Failed(old(sdb.calls))
    ensures r.Swept? && !sdb.Failed(old(sdb.calls)) && CutAt(rowCut, |answer|) == |answer| && CutAt(keyCut, |old(ds.store)|) == |old(ds.store)| ==>
      ds.store == Survivors(ds.codec, StreamKeys(Contents(sdb.db)), old(ds.store))
    ensures r.Swept? || r.Stopped? ==> r.deleted == |old(ds.store)| - |ds.store|
    ensures forall d :: d in ds.store ==> d in old(ds.store) && ds.store[d] == old(ds.store)[d]
    ensures r.Stopped? && ds.store != old(ds.store) ==> Saw(sdb.db, answer, seen) && (|seen| == CutAt(rowCut, |answer|) || sdb.Failed(old(sdb.calls)))
    ensures forall d :: d in old(ds.store) && d !in ds.store ==> !Valid(ds.codec, StreamKeys(seen), d)
    ensures r.Stopped? ==> sdb.Failed(old(sdb.calls)) || ds.Failed(old(ds.calls)) || exists k: nat :: fails(k)
  {
    hide Sound, Answered, StreamKeys, Contents, Survivors, SweepLeaves;
    seen := [];
    if !offline { return NodeMustBeOffline, seen; }
    var gc := new GcDb(fails);
    var ok;
    ok, seen := CollectStored(sdb, gc, answer, rowCut);
    if !ok { return Stopped(0), seen; }
    assert {} + StreamKeys(seen) == StreamKeys(seen);
    var count: nat;
    count, ok := gc.Gc(ds, keyCut);
    return if ok then Swept(count) else Stopped(count), seen;
  }

  /** A cancellation that loses an object: one statement is stored, no call fails, and the query is
      cut before its row. The run reports success and has removed the object the statement names. */
  method CancelledRunLoses(sdb: SqlDb, ds: RocksDs, fails: nat -> bool, answer: seq<seq<S.Value>>, ghost stmt: Statement, ghost data: Bytes)
    returns (r: GcResult)
    requires Answered(sdb.db, answer) && Sound(ds.codec)
    requires (forall n :: !sdb.fails(n)) && (forall n :: !ds.fails(n)) && (forall n :: !fails(n))
    requires Contents(sdb.db) == [stmt] && stmt.body.SimpleBody? && stmt.body.simple.obj == ds.codec.b58(Hash(ds.codec, data))
    requires ds.store == map[ds.codec.sha256(data) := data]
    modifies sdb`calls, ds`store, ds`calls
    ensures ContentAddressed(ds.codec, old(ds.store)) && Referenced(ds.codec, Contents(sdb.db), ds.codec.sha256(data))
    ensures r == Swept(1) && ds.store == map[]
  {
    hide Sound, Answered, SweepLeaves, Contents, Saw;
    ghost var seen: seq<Statement>;
    r, seen := DoGc(true, sdb, ds, fails, answer, Some(0), None);
    assert seen == [];
    assert CutAt(None, |old(ds.store)|) == |old(ds.store)|;
    SweepWhole(ds.codec, StreamKeys([]), None, old(ds.store), ds.store);
    NamesItsObject(ds.codec, stmt, data);
    NoStreamKeys();
    assert ds.store == map[];
  }
}
