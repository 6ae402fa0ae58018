/** The statement store of mcnode/db.go: three tables changed inside transactions. */
module Store {
  import opened Std
  import opened Statements
  import opened Tables
  import opened Batches
  import opened StoreInv
  import opened Queries
  import C = Compile
  import CQ = CompileQuery
  import M = Meaning
  import R = Rows
  import S = Sql

  datatype StoreError =
    | IoError
    | PrimaryKeyError
    | UniqueError
    | BadQuery
    | CompileFailed(e: C.CompileError)
    | StreamError(scan: R.ScanError)

  class SqlDb {
    var db: Db
    /** Which database calls fail for reasons outside this program, by their number. */
    const fails: nat -> bool
    var calls: nat

    constructor (fails: nat -> bool)
      ensures Inv(db) && Contents(db) == [] && this.fails == fails
    {
      db := Db([], [], [], 1);
      calls := 0;
      this.fails := fails;
    }

    /** Some call since number `from` failed. */
    predicate Failed(from: nat)
      reads this`calls
    {
      exists k :: from <= k < calls && fails(k)
    }

    method Io() returns (bad: bool)
      modifies this`calls
      ensures calls == old(calls) + 1 && bad == fails(old(calls))
    {
      bad := fails(calls);
      calls := calls + 1;
    }

    // ---- Prepared statements ----

    method InsertData(s: Statement) returns (r: Result<(), StoreError>)
      modifies this`db, this`calls
      ensures old(calls) <= calls
      ensures r.Ok? ==> forall i :: 0 <= i < |old(db).stmts| ==> old(db).stmts[i].id != s.id
      ensures r.Ok? ==> db == old(db).(stmts := old(db).stmts + [StmtRow(s.id, s)])
      ensures r.Err? ==> db == old(db)
      ensures r == Err(PrimaryKeyError) ==> exists i :: 0 <= i < |db.stmts| && db.stmts[i].id == s.id
      ensures r.Err? && r != Err(PrimaryKeyError) ==> r == Err(IoError) && Failed(old(calls))
    {
      var bad := Io();
      if bad { return Err(IoError); }
      if exists i :: 0 <= i < |db.stmts| && db.stmts[i].id == s.id { return Err(PrimaryKeyError); }
      db := db.(stmts := db.stmts + [StmtRow(s.id, s)]);
      return Ok(());
    }

    method InsertEnvelope(s: Statement) returns (r: Result<(), StoreError>)
      modifies this`db, this`calls
      ensures old(calls) <= calls
      ensures r.Ok? ==> db == old(db).(envs := old(db).envs + [EnvelopeOf(s, old(db).next)], next := old(db).next + 1)
      ensures r.Err? ==> db == old(db)
      ensures r == Err(UniqueError) ==> exists i :: 0 <= i < |db.envs| && db.envs[i].id == s.id
      ensures r.Err? && r != Err(UniqueError) ==> r == Err(IoError) && Failed(old(calls))
    {
      var bad := Io();
      if bad { return Err(IoError); }
      if exists i :: 0 <= i < |db.envs| && db.envs[i].id == s.id { return Err(UniqueError); }
      db := db.(envs := db.envs + [EnvelopeOf(s, db.next)], next := db.next + 1);
      return Ok(());
    }

    /** One row for each identifier, in no particular order. */
    method InsertRefs(s: Statement) returns (r: Result<(), StoreError>)
      modifies this`db, this`calls
      ensures old(calls) <= calls
      ensures r.Ok? ==> db == old(db).(refs := db.refs) && AddsRefs(old(db).refs, s, Refs(s), db.refs)
      ensures r.Err? ==> r == Err(IoError) && Failed(old(calls))
    {
      hide Refs, AddsRefs;
      var rest := StatementRefs(s);
      NoRefs(db.refs, s);
      while rest != {}
        invariant rest <= Refs(s) && old(calls) <= calls
        invariant db == old(db).(refs := db.refs) && AddsRefs(old(db).refs, s, Refs(s) - rest, db.refs)
        decreases |rest|
      {
        var wki :| wki in rest;
        var bad := Io();
        if bad { return Err(IoError); }
        AddsOneRef(old(db).refs, s, Refs(s) - rest, db.refs, wki);
        db := db.(refs := db.refs + [RefRow(s.id, wki)]);
        assert Refs(s) - (rest - {wki}) == Refs(s) - rest + {wki};
        rest := rest - {wki};
      }
      assert Refs(s) - {} == Refs(s);
      return Ok(());
    }

    /** The inserts that follow a new Statement row; with the tables in step they cannot clash. */
    method InsertRest(s: Statement, ghost before: Db) returns (r: Result<(), StoreError>)
      requires Inv(before) && forall i :: 0 <= i < |before.stmts| ==> before.stmts[i].id != s.id
      requires db == before.(stmts := before.stmts + [StmtRow(s.id, s)])
      modifies this`db, this`calls
      ensures old(calls) <= calls
      ensures r.Ok? ==> Adds(before, s, db)
      ensures r.Err? ==> r == Err(IoError) && Failed(old(calls))
    {
      hide AddsRefs, Refs, HasRef, Distinct, EnvelopeOf;
      assert forall i :: 0 <= i < |before.envs| ==> before.envs[i].id != s.id by { NoEnvelope(before, s.id); }
      r := InsertEnvelope(s);
      if r.Err? { return; }
      r := InsertRefs(s);
    }

    // ---- Transactions ----

    method Begin() returns (r: Result<Db, StoreError>)
      modifies this`calls
      ensures old(calls) <= calls
      ensures r.Ok? ==> r.value == db
      ensures r.Err? ==> r == Err(IoError) && Failed(old(calls))
    {
      var bad := Io();
      return if bad then Err(IoError) else Ok(db);
    }

    method Rollback(snapshot: Db)
      modifies this`db
      ensures db == snapshot
    {
      db := snapshot;
    }

    /** A commit that fails leaves nothing of the transaction. */
    method Commit(snapshot: Db) returns (r: Result<(), StoreError>)
      modifies this`db, this`calls
      ensures old(calls) <= calls
      ensures r.Ok? ==> db == old(db)
      ensures r.Err? ==> db == snapshot && r == Err(IoError) && Failed(old(calls))
    {
      var bad := Io();
      if bad {
        Rollback(snapshot);
        return Err(IoError);
      }
      return Ok(());
    }

    // ---- Writing ----

    /** Stores a statement whole or not at all; a stored id is a primary key error. */
    method Put(s: Statement) returns (r: Result<(), StoreError>)
      requires Inv(db)
      modifies this`db, this`calls
      ensures Inv(db) && old(calls) <= calls
      ensures r.Ok? ==> s.id !in IdsOf(Contents(old(db))) && Adds(old(db), s, db)
      ensures r.Ok? ==> Contents(db) == Contents(old(db)) + [s]
      ensures r.Err? ==> db == old(db)
      ensures r == Err(PrimaryKeyError) ==> s.id in IdsOf(Contents(db))
      ensures r.Err? && r != Err(PrimaryKeyError) ==> r == Err(IoError) && Failed(old(calls))
    {
      hide Adds, Inv, IdsOf, Contents;
      ContentsIds(db);
      var tx := Begin();
      if tx.Err? { return Err(tx.error); }
      r := InsertData(s);
      if r.Err? {
        Rollback(tx.value);
        return;
      }
      r := InsertRest(s, tx.value);
      if r.Err? {
        Rollback(tx.value);
        return;
      }
      AddKeepsInv(tx.value, s, db);
      r := Commit(tx.value);
    }

    /** Merging a statement reports whether it was new; a stored id is not an error. */
    method Merge(s: Statement) returns (r: Result<bool, StoreError>)
      requires Inv(db)
      modifies this`db, this`calls
      ensures Inv(db) && old(calls) <= calls
      ensures r.Ok? ==> Contents(db) == MergeOne(Contents(old(db)), s)
      ensures r.Ok? ==> (r.value <==> s.id !in IdsOf(Contents(old(db))))
      ensures r.Err? ==> db == old(db) && r == Err(IoError) && Failed(old(calls))
    {
      hide Inv, IdsOf, Contents, Adds;
      var put := Put(s);
      match put {
        case Ok(_) => return Ok(true);
        case Err(e) => return if e.PrimaryKeyError? then Ok(false) else Err(e);
      }
    }

    /** Stores all of a batch or none of it. */
    method PutBatch(batch: seq<Statement>) returns (r: Result<(), StoreError>)
      requires Inv(db)
      modifies this`db, this`calls
      ensures Inv(db) && old(calls) <= calls
      ensures r.Ok? ==> Contents(db) == Contents(old(db)) + batch
      ensures r.Err? ==> db == old(db)
      ensures r == Err(PrimaryKeyError) ==> !DistinctIds(Contents(old(db)) + batch)
      ensures r.Err? && r != Err(PrimaryKeyError) ==> r == Err(IoError) && Failed(old(calls))
    {
      hide Inv, Adds, IdsOf, Contents, DistinctIds;
      var tx := Begin();
      if tx.Err? { return Err(tx.error); }
      ghost var stored := Contents(db);
      assert stored + batch[..0] == stored;
      for i := 0 to |batch|
        invariant Inv(db) && old(calls) <= calls && tx.value == old(db)
        invariant Contents(db) == stored + batch[..i]
      {
        ghost var before := db;
        ContentsIds(before);
        r := InsertData(batch[i]);
        if r.Err? {
          if r == Err(PrimaryKeyError) { Clash(stored, batch, i); }
          Rollback(tx.value);
          return;
        }
        r := InsertRest(batch[i], before);
        if r.Err? {
          Rollback(tx.value);
          return;
        }
        AddKeepsInv(before, batch[i], db);
        assert stored + batch[..i] + [batch[i]] == stored + batch[..i + 1];
      }
      assert batch[..|batch|] == batch;
      r := Commit(tx.value);
    }

    /** Refines the fold of `Merge` over the batch: ids already stored are skipped, nothing else
        fails but the database, and the count is the number of statements stored. */
    method MergeBatch(batch: seq<Statement>) returns (r: Result<nat, StoreError>)
      requires Inv(db)
      modifies this`db, this`calls
      ensures Inv(db) && old(calls) <= calls
      ensures r.Ok? ==> Contents(db) == Merged(Contents(old(db)), batch)
      ensures r.Ok? ==> r.value == |Contents(db)| - |Contents(old(db))|
      ensures r.Err? ==> db == old(db) && r == Err(IoError) && Failed(old(calls))
    {
      hide Inv, Adds, IdsOf, Contents, DistinctIds, Merged;
      var tx := Begin();
      if tx.Err? { return Err(tx.error); }
      ghost var stored := Contents(db);
      var count := 0;
      assert Merged(stored, batch[..0]) == stored by { MergedNone(stored); }
      for i := 0 to |batch|
        invariant Inv(db) && old(calls) <= calls && tx.value == old(db)
        invariant Contents(db) == Merged(stored, batch[..i]) && count == |Contents(db)| - |stored|
      {
        ghost var before := db;
        ContentsIds(before);
        MergedSnoc(stored, batch, i);
        var data := InsertData(batch[i]);
        match data {
          case Err(e) =>
            if !e.PrimaryKeyError? {
              Rollback(tx.value);
              return Err(e);
            }
          case Ok(_) =>
            var rest := InsertRest(batch[i], before);
            if rest.Err? {
              Rollback(tx.value);
              return Err(rest.error);
            }
            AddKeepsInv(before, batch[i], db);
            count := count + 1;
        }
      }
      assert batch[..|batch|] == batch;
      var done := Commit(tx.value);
      return if done.Ok? then Ok(count) else Err(done.error);
    }

    // ---- Reading ----

    /** The rows of a query as objects. Reading stops at a row the database fails to deliver,
        and that failure is not reported. */
    method Query(q: Query, answer: seq<seq<S.Value>>) returns (r: Result<seq<R.Obj>, StoreError>)
      requires Inv(db) && WellFormed(q)
      requires C.Compilable(q) ==> S.IsAnswer(C.Plan(q), db, answer)
      modifies this`calls
      ensures old(calls) <= calls
      ensures !C.Compilable(q) ==> r == Err(CompileFailed(C.IllegalSelector))
      ensures C.Compilable(q) && r.Err? ==> r == Err(IoError) && Failed(old(calls))
      ensures r.Ok? ==> ReadsPrefix(q, answer, r.value) && (|r.value| < |answer| ==> Failed(old(calls)))
      ensures r.Ok? ==> ObjectsOf(q, db, r.value)
      ensures r.Ok? && q.selector.FunctionSelector? && !Failed(old(calls)) ==> |r.value| == 1
    {
      r := QueryStream(q, answer, None);
      assert r.Ok? && q.selector.FunctionSelector? ==> |answer| == 1 by {
        hide Inv, S.IsAnswer, C.Plan, WellFormed, C.Compilable, ReadsPrefix;
        if C.Compilable(q) && q.selector.FunctionSelector? { OneAggregate(q, db, answer); }
      }
    }

    /** The same as a stream, which a cancelled context closes after `cut` objects: that is not
        reported either, so the receiver sees the end of a shorter answer. */
    method QueryStream(q: Query, answer: seq<seq<S.Value>>, cut: Option<nat>) returns (r: Result<seq<R.Obj>, StoreError>)
      requires Inv(db) && WellFormed(q)
      requires C.Compilable(q) ==> S.IsAnswer(C.Plan(q), db, answer)
      modifies this`calls
      ensures old(calls) <= calls
      ensures !C.Compilable(q) ==> r == Err(CompileFailed(C.IllegalSelector))
      ensures C.Compilable(q) && r.Err? ==> r == Err(IoError) && Failed(old(calls))
      ensures r.Ok? ==> ReadsPrefix(q, answer, r.value) && |r.value| <= CutAt(cut, |answer|)
      ensures r.Ok? && |r.value| < CutAt(cut, |answer|) ==> Failed(old(calls))
      ensures r.Ok? ==> ObjectsOf(q, db, r.value)
    {
      r := ReadRows(q, answer, cut);
      if r.Ok? {
        hide S.IsAnswer, C.Plan, WellFormed, C.Compilable, ReadsPrefix, ObjectsOf;
        ReadObjects(q, db, answer, r.value);
      }
    }

    /** Compiles the query and reads its rows one by one. */
    method ReadRows(q: Query, answer: seq<seq<S.Value>>, cut: Option<nat>) returns (r: Result<seq<R.Obj>, StoreError>)
      requires Inv(db) && WellFormed(q)
      requires C.Compilable(q) ==> S.IsAnswer(C.Plan(q), db, answer)
      modifies this`calls
      ensures old(calls) <= calls
      ensures !C.Compilable(q) ==> r == Err(CompileFailed(C.IllegalSelector))
      ensures C.Compilable(q) && r.Err? ==> r == Err(IoError) && Failed(old(calls))
      ensures r.Ok? ==> ReadsPrefix(q, answer, r.value) && |r.value| <= CutAt(cut, |answer|)
      ensures r.Ok? && |r.value| < CutAt(cut, |answer|) ==> Failed(old(calls))
    {
      assert |q.namespace| > 0;
      hide Inv, S.IsAnswer, C.Plan, R.Scan, WellFormed, C.Compilable, S.Parse, R.ScanAll, ReadsPrefix;
      QueryScans(q, db, answer);
      var compiled := CQ.CompileQuery(q);
      if compiled.Err? { return Err(CompileFailed(compiled.error)); }
      var rsel := compiled.value.1;
      var bad := Io();
      if bad { return Err(IoError); }
      var res: seq<R.Obj> := [];
      NothingScanned(q, rsel, answer);
      for i := 0 to CutAt(cut, |answer|)
        invariant old(calls) <= calls && |res| == i && ReadsPrefix(q, answer, res)
      {
        var stop := Io();
        if stop { return Ok(res); }
        var obj := R.Scan(rsel, answer[i]);
        match obj {
          case Err(e) => return Err(StreamError(e));
          case Ok(o) =>
            OneMoreScanned(q, rsel, answer, res, o);
            res := res + [o];
        }
      }
      return Ok(res);
    }

    /** Deletes an id from the three tables. */
    method DeleteRows(id: string) returns (ok: bool)
      modifies this`db, this`calls
      ensures old(calls) <= calls
      ensures ok ==> db == Without(old(db), id)
      ensures !ok ==> Failed(old(calls))
    {
      var bad := Io();
      if bad { return false; }
      db := db.(stmts := WithoutStmt(db.stmts, id));
      bad := Io();
      if bad { return false; }
      db := db.(envs := WithoutEnv(db.envs, id));
      bad := Io();
      if bad { return false; }
      db := db.(refs := WithoutRefs(db.refs, id));
      return true;
    }

    /** Deletes, from all three tables, every id the query delivers, and counts the ids delivered. */
    method Delete(q: Query, answer: seq<seq<S.Value>>) returns (r: Result<nat, StoreError>)
      requires Inv(db) && WellFormed(q)
      requires C.Compilable(q) ==> S.IsAnswer(C.Plan(q), db, answer)
      modifies this`db, this`calls
      ensures Inv(db) && old(calls) <= calls
      ensures q.op.OpSelect? ==> r == Err(BadQuery)
      ensures q.op.OpDelete? && r.Err? ==> r == Err(IoError) && Failed(old(calls))
      ensures r.Err? ==> db == old(db)
      ensures r.Ok? ==> r.value <= |answer| && (r.value < |answer| ==> Failed(old(calls)))
      ensures r.Ok? ==> Contents(db) == Kept(Contents(old(db)), RowIds(answer[..r.value]))
    {
      if !q.op.OpDelete? { return Err(BadQuery); }
      assert C.Compilable(q);
      hide Inv, S.IsAnswer, C.Plan, WellFormed, C.Compilable, Kept, Contents, RowIds, Without, R.ScanAll;
      var stream := ReadRows(q, answer, None);
      if stream.Err? { return Err(stream.error); }
      StreamIds(q, db, answer, stream.value);
      hide ReadsPrefix;
      var tx := Begin();
      if tx.Err? { return Err(tx.error); }
      var count: nat := 0;
      assert Contents(db) == Kept(Contents(db), RowIds(answer[..0])) by { KeptAll(Contents(db), answer); }
      for i := 0 to |stream.value|
        invariant Inv(db) && old(calls) <= calls && tx.value == old(db) && count == i <= |answer|
        invariant |stream.value| < |answer| ==> Failed(old(calls))
        invariant Contents(db) == Kept(Contents(old(db)), RowIds(answer[..i]))
      {
        match stream.value[i] {
          case StrObj(id) =>
            DeleteKeepsInv(db, id);
            var deleted := DeleteRows(id);
            if !deleted {
              Rollback(tx.value);
              return Err(IoError);
            }
            KeptNext(Contents(old(db)), answer, i, id);
            count := count + 1;
          case _ => assert false;
        }
      }
      var done := Commit(tx.value);
      return if done.Ok? then Ok(count) else Err(done.error);
    }
  }

  /** The objects are those of the first rows. */
  ghost predicate ReadsPrefix(q: Query, answer: seq<seq<S.Value>>, objs: seq<R.Obj>) {
    && C.CompileQueryRowSelector(q).Ok?
    && |objs| <= |answer|
    && R.ScanAll(C.CompileQueryRowSelector(q).value, answer[..|objs|], objs)
  }

  lemma NothingScanned(q: Query, rsel: C.RowSelector, answer: seq<seq<S.Value>>)
    requires C.CompileQueryRowSelector(q) == Ok(rsel)
    ensures ReadsPrefix(q, answer, [])
  {
  }

  lemma OneMoreScanned(q: Query, rsel: C.RowSelector, answer: seq<seq<S.Value>>, objs: seq<R.Obj>, obj: R.Obj)
    requires C.CompileQueryRowSelector(q) == Ok(rsel) && ReadsPrefix(q, answer, objs)
    requires |objs| < |answer| && R.Scan(rsel, answer[|objs|]) == Ok(obj)
    ensures ReadsPrefix(q, answer, objs + [obj])
  {
    hide R.Scan;
    assert answer[..|objs| + 1] == answer[..|objs|] + [answer[|objs|]];
  }

  /** What a query hands back: for each object a record it selects, shown by its selector; or the
      one number of its function over all the records it selects. */
  ghost predicate ObjectsOf(q: Query, db: Db, objs: seq<R.Obj>)
    requires Inv(db)
  {
    var recs := R.Chosen(q, M.Universe(db, C.HasIndex(q)));
    if q.selector.FunctionSelector? then
      |objs| <= 1 && forall i :: 0 <= i < |objs| ==> R.AggregateIs(q.selector.fn, q.selector.arg, recs, objs[i])
    else forall i :: 0 <= i < |objs| ==> ShowsOne(q.selector, recs, objs[i])
  }

  ghost predicate ShowsOne(sel: Selector, recs: seq<M.Rec>, obj: R.Obj) {
    exists k :: 0 <= k < |recs| && obj == R.ObjectFor(sel, recs[k])
  }

  lemma {:induction false} OneAggregate(q: Query, db: Db, answer: seq<seq<S.Value>>)
    requires Inv(db) && WellFormed(q) && C.Compilable(q) && q.selector.FunctionSelector? && S.IsAnswer(C.Plan(q), db, answer)
    ensures |answer| == 1
  {
    M.CompilePreservesMeaning(q, db, answer);
    R.AggregateScans(q, db, answer);
  }

  lemma {:induction false} ReadObjects(q: Query, db: Db, answer: seq<seq<S.Value>>, objs: seq<R.Obj>)
    requires Inv(db) && WellFormed(q) && C.Compilable(q) && S.IsAnswer(C.Plan(q), db, answer) && ReadsPrefix(q, answer, objs)
    ensures ObjectsOf(q, db, objs)
  {
    M.CompilePreservesMeaning(q, db, answer);
    if q.selector.FunctionSelector? { R.AggregateScans(q, db, answer); }
    hide S.IsAnswer, C.Plan, M.Means, WellFormed, C.Compilable, R.AggregateIs, R.Scan;
    if q.selector.FunctionSelector? {
      forall i | 0 <= i < |objs| ensures Ok(objs[i]) == R.Scan(C.CompileQueryRowSelector(q).value, answer[0]) {
        assert answer[..|objs|][i] == answer[i];
      }
    } else {
      forall i | 0 <= i < |objs| ensures ShowsOne(q.selector, R.Chosen(q, M.Universe(db, C.HasIndex(q))), objs[i]) {
        ReadsOne(q, db, answer, objs, i);
      }
    }
  }

  lemma {:induction false} ReadsOne(q: Query, db: Db, answer: seq<seq<S.Value>>, objs: seq<R.Obj>, i: nat)
    requires Inv(db) && WellFormed(q) && !q.selector.FunctionSelector? && M.Means(q, db, answer)
    requires ReadsPrefix(q, answer, objs) && i < |objs|
    ensures ShowsOne(q.selector, R.Chosen(q, M.Universe(db, C.HasIndex(q))), objs[i])
  {
    var all := M.Universe(db, C.HasIndex(q));
    var rec := R.AnswersScan(q, db, answer, i);
    R.SelectedAreChosen(q, all);
    hide M.Means, WellFormed, Inv;
    assert answer[..|objs|][i] == answer[i];
    var k :| 0 <= k < |R.Chosen(q, all)| && R.Chosen(q, all)[k] == rec;
  }

  /** The ids in the rows of a simple `id` query. */
  function RowIds(rows: seq<seq<S.Value>>): set<string> {
    set i | 0 <= i < |rows| && |rows[i]| > 0 && rows[i][0].Text? :: rows[i][0].s
  }

  lemma KeptAll(stored: seq<Statement>, rows: seq<seq<S.Value>>)
    ensures Kept(stored, RowIds(rows[..0])) == stored
  {
    assert RowIds(rows[..0]) == {};
    KeptNone(stored);
  }

  lemma KeptNext(stored: seq<Statement>, rows: seq<seq<S.Value>>, i: nat, id: string)
    requires i < |rows| && rows[i] == [S.Text(id)]
    ensures Kept(Kept(stored, RowIds(rows[..i])), {id}) == Kept(stored, RowIds(rows[..i + 1]))
  {
    KeptAlso(stored, RowIds(rows[..i]), id);
    NextRowId(rows, i, id);
  }

  lemma NextRowId(rows: seq<seq<S.Value>>, i: nat, id: string)
    requires i < |rows| && rows[i] == [S.Text(id)]
    ensures RowIds(rows[..i + 1]) == RowIds(rows[..i]) + {id}
  {
    var a, b := rows[..i], rows[..i + 1];
    assert b == a + [rows[i]];
    forall x ensures x in RowIds(b) <==> x in RowIds(a) || x == id {
      if x in RowIds(a) {
        var k :| 0 <= k < |a| && |a[k]| > 0 && a[k][0].Text? && a[k][0].s == x;
        assert b[k] == a[k];
      }
      if x == id { assert b[i] == [S.Text(id)]; }
    }
  }

  /** No row of a well-formed query fails to scan. */
  lemma {:induction false} QueryScans(q: Query, db: Db, answer: seq<seq<S.Value>>)
    requires Inv(db) && WellFormed(q)
    requires C.Compilable(q) ==> S.IsAnswer(C.Plan(q), db, answer)
    ensures C.CompileQueryRowSelector(q).Ok?
    ensures C.Compilable(q) ==> forall i :: 0 <= i < |answer| ==> R.Scan(C.CompileQueryRowSelector(q).value, answer[i]).Ok?
  {
    if C.Compilable(q) {
      M.CompilePreservesMeaning(q, db, answer);
      hide S.IsAnswer, C.Plan, M.Means, WellFormed, R.Scan, R.AggregateIs, R.Chosen, M.Universe, Inv;
      RowsScan(q, db, answer);
    }
  }

  lemma {:induction false} RowsScan(q: Query, db: Db, answer: seq<seq<S.Value>>)
    requires Inv(db) && WellFormed(q) && C.Compilable(q) && M.Means(q, db, answer)
    ensures C.CompileQueryRowSelector(q).Ok? && forall i :: 0 <= i < |answer| ==> R.Scan(C.CompileQueryRowSelector(q).value, answer[i]).Ok?
  {
    SelectorCompiles(q);
    hide M.Means, WellFormed, R.Scan, R.AggregateIs, R.ObjectFor, M.Universe, M.Selects, Inv;
    if q.selector.FunctionSelector? {
      R.AggregateScans(q, db, answer);
    } else {
      forall i | 0 <= i < |answer| ensures R.Scan(C.CompileQueryRowSelector(q).value, answer[i]).Ok? {
        var rec := R.AnswersScan(q, db, answer, i);
      }
    }
  }

  lemma SelectorCompiles(q: Query)
    requires WellFormed(q)
    ensures C.CompileQueryRowSelector(q).Ok?
  {
    hide WellFormedCriteria, WellFormedNamespace, WellFormedOrder;
  }

  /** What a delete query streams are the ids of its rows. */
  lemma {:induction false} StreamIds(q: Query, db: Db, answer: seq<seq<S.Value>>, objs: seq<R.Obj>)
    requires Inv(db) && WellFormed(q) && q.op.OpDelete?
    requires S.IsAnswer(C.Plan(q), db, answer) && ReadsPrefix(q, answer, objs)
    ensures forall i :: 0 <= i < |objs| ==> objs[i].StrObj? && answer[i] == [S.Text(objs[i].s)]
  {
    M.CompilePreservesMeaning(q, db, answer);
    hide S.IsAnswer, C.Plan, M.Means, WellFormed, Inv;
    forall i | 0 <= i < |objs| ensures objs[i].StrObj? && answer[i] == [S.Text(objs[i].s)] {
      assert q.selector == SimpleSelector("id") by { DeletesIds(q); }
      var rec := R.AnswersScan(q, db, answer, i);
      assert answer[..|objs|][i] == answer[i];
    }
  }

  lemma DeletesIds(q: Query)
    requires WellFormed(q) && q.op.OpDelete?
    ensures q.selector == SimpleSelector("id")
  {
  }

  lemma NoRefs(refs: seq<RefRow>, s: Statement)
    ensures AddsRefs(refs, s, Refs(s) - Refs(s), refs)
  {
    hide Refs;
    assert refs[|refs|..] == [];
  }

  lemma NoEnvelope(db: Db, id: string)
    requires Inv(db) && forall i :: 0 <= i < |db.stmts| ==> db.stmts[i].id != id
    ensures forall i :: 0 <= i < |db.envs| ==> db.envs[i].id != id
  {
  }

  lemma MergedNone(stored: seq<Statement>)
    ensures Merged(stored, []) == stored
  {
  }

  lemma Clash(stored: seq<Statement>, batch: seq<Statement>, i: nat)
    requires i < |batch| && batch[i].id in IdsOf(stored + batch[..i])
    ensures !DistinctIds(stored + batch)
  {
    var front, all := stored + batch[..i], stored + batch;
    var s :| s in front && s.id == batch[i].id;
    var j :| 0 <= j < |front| && front[j] == s;
    assert all[j] == s && all[|stored| + i] == batch[i];
  }
}
