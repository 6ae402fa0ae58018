/** What queries find among the stored statements, said of the statements themselves: by source, by
    reference, by number and by name, and in what order. */
module Finding {
  import opened Std
  import opened Queries
  import opened Statements
  import opened Tables
  import opened Batches
  import opened StoreInv
  import opened Compile
  import opened Meaning
  import opened Rows
  import opened Eval
  import Deleting
  import IndexJoin
  import EvalAgrees
  import L = Limits
  import S = Sql

  /** `SELECT id FROM * WHERE` one criterion. */
  function ByCriterion(c: Criteria): Query {
    Query(OpSelect, "*", SimpleSelector("id"), Some(c), None, 0)
  }

  /** Without `wki` and LIMIT the id of a stored statement is delivered exactly when the query
      selects its record. */
  lemma {:induction false} SelectsStored(q: Query, db: Db, rows: seq<seq<S.Value>>, i: nat)
    requires Inv(db) && WellFormed(q) && !HasIndex(q) && q.limit == 0 && q.selector == SimpleSelector("id")
    requires S.IsAnswer(Plan(q), db, rows) && i < |db.stmts|
    ensures [S.Text(db.stmts[i].id)] in rows <==> Selects(q, Rec(db.stmts[i].data, db.envs[i].counter, None))
  {
    CompilePreservesMeaning(q, db, rows);
    var recs := Entries(db.stmts, db.envs);
    var rec, id := recs[i], db.stmts[i].id;
    SelectedAreChosen(q, recs);
    var cands := Selected(q, recs);
    assert S.Delivers(cands, false, OrderDirs(q.order), None, rows);
    if Selects(q, rec) {
      assert rec in Chosen(q, recs);
      var k :| 0 <= k < |Chosen(q, recs)| && Chosen(q, recs)[k] == rec;
      var j := EvalAgrees.DeliveredRows(cands, false, OrderDirs(q.order), rows, k);
      assert rows[j] == [S.Text(id)];
    }
    if [S.Text(id)] in rows {
      var j :| 0 <= j < |rows| && rows[j] == [S.Text(id)];
      var r := AnswersScan(q, db, rows, j);
      assert [S.Text(r.stmt.id)][0].s == id;
      Deleting.SameEntry(db, r, i);
    }
  }

  // ---- By source ----

  /** `source = p` finds a stored statement exactly when `p` is the publisher at the end of its
      chain of first statements. */
  lemma {:induction false} FoundBySource(db: Db, p: string, rows: seq<seq<S.Value>>, i: nat, chain: seq<Statement>)
    requires var c := ValueCriteria("source", "=", p);
      Inv(db) && WellFormedCriteria(c) && WellFormed(ByCriterion(c)) && S.IsAnswer(Plan(ByCriterion(c)), db, rows)
    requires i < |db.stmts| && FirstChain(db.stmts[i].data, chain)
    ensures [S.Text(db.stmts[i].id)] in rows <==> chain[|chain| - 1].publisher == p
  {
    var q := ByCriterion(ValueCriteria("source", "=", p));
    SourceEndsChain(db.stmts[i].data, chain);
    SelectsStored(q, db, rows, i);
  }

  /** So right after a statement is stored: whatever else is there. */
  lemma {:induction false} PutThenFindBySource(db: Db, s: Statement, db': Db, p: string, rows: seq<seq<S.Value>>, chain: seq<Statement>)
    requires Inv(db) && Adds(db, s, db') && forall i :: 0 <= i < |db.stmts| ==> db.stmts[i].id != s.id
    requires var c := ValueCriteria("source", "=", p);
      WellFormedCriteria(c) && WellFormed(ByCriterion(c)) && S.IsAnswer(Plan(ByCriterion(c)), db', rows)
    requires FirstChain(s, chain)
    ensures [S.Text(s.id)] in rows <==> chain[|chain| - 1].publisher == p
  {
    AddKeepsInv(db, s, db');
    assert db'.stmts[|db.stmts|].data == s && db'.stmts[|db.stmts|].id == s.id;
    FoundBySource(db', p, rows, |db.stmts|, chain);
  }

  // ---- By reference ----

  /** `wki = w` finds a stored statement exactly when it refers to `w`. */
  lemma {:induction false} FoundByReference(db: Db, w: string, rows: seq<seq<S.Value>>, i: nat)
    requires var c := IndexCriteria("wki", w);
      Inv(db) && WellFormedCriteria(c) && WellFormed(ByCriterion(c)) && S.IsAnswer(Plan(ByCriterion(c)), db, rows)
    requires i < |db.stmts|
    ensures [S.Text(db.stmts[i].id)] in rows <==> RefersTo(db.stmts[i].data, w)
  {
    var c := IndexCriteria("wki", w);
    var q, s, counter := ByCriterion(c), db.stmts[i].data, db.envs[i].counter;
    assert HasIndex(q) by { assert IsIndexCriteria(c); }
    IndexJoin.IndexRows(q, db, rows, i);
    NamesBodyByBody(s, w);
    hide Refs, RefersTo, Inv, S.IsAnswer, Plan, WellFormed;
    if wki :| wki in IndexJoin.MatchingRefs(q, s, counter) { assert wki == w; }
    if w in Refs(s) {
      assert Selects(q, Rec(s, counter, Some(w)));
      assert w in IndexJoin.MatchingRefs(q, s, counter);
    }
  }

  // ---- How often ----

  /** The rows of the selected records, in the records' order. */
  ghost function ChosenRows(q: Query, db: Db): seq<seq<S.Value>>
    requires Inv(db)
  {
    var recs := Chosen(q, Universe(db, HasIndex(q)));
    seq(|recs|, i requires 0 <= i < |recs| => RowFor(q.selector, recs[i]))
  }

  /** A namespace, publisher or source is listed once, however many selected records show it; all of
      them are without LIMIT. */
  lemma {:induction false} EachNameOnce(q: Query, db: Db, rows: seq<seq<S.Value>>)
    requires Inv(db) && WellFormed(q) && S.IsAnswer(Plan(q), db, rows)
    requires q.selector.SimpleSelector? && q.selector.sel in {"namespace", "publisher", "source"}
    ensures Distinct(rows) && Elements(rows) <= Elements(ChosenRows(q, db))
    ensures |rows| == if 0 < q.limit < |Elements(ChosenRows(q, db))| then q.limit else |Elements(ChosenRows(q, db))|
  {
    CompilePreservesMeaning(q, db, rows);
    var all := Universe(db, HasIndex(q));
    var cands := Selected(q, all);
    SelectedAreChosen(q, all);
    assert IndexJoin.RowsOfCandidates(cands) == ChosenRows(q, db);
    var limit := if q.limit > 0 then Some(q.limit) else None;
    hide Inv, S.IsAnswer, Plan, WellFormed, Selected, Universe, HasIndex, S.KeyLeq, OrderDirs, ChosenRows;
    OnceEach(cands, OrderDirs(q.order), limit, rows);
  }

  lemma {:induction false} OnceEach(cands: seq<S.Candidate>, desc: seq<bool>, limit: Option<nat>, rows: seq<seq<S.Value>>)
    requires S.Delivers(cands, true, desc, limit, rows)
    ensures Distinct(rows) && Elements(rows) <= Elements(IndexJoin.RowsOfCandidates(cands))
    ensures var n := |Elements(IndexJoin.RowsOfCandidates(cands))|;
      |rows| == if limit.Some? && limit.value < n then limit.value else n
  {
    hide S.KeyLeq;
    var perm :| S.Arranged(cands, true, desc, perm) && rows == S.Take(S.Shown(cands, perm), limit);
    var shown, of := S.Shown(cands, perm), IndexJoin.RowsOfCandidates(cands);
    forall row ensures row in shown <==> row in of {
      if row in of {
        var k :| 0 <= k < |of| && of[k] == row;
        var i := EvalAgrees.ArrangedCovers(cands, true, desc, perm, k);
        assert shown[i] == row;
      }
      if row in shown {
        var i :| 0 <= i < |shown| && shown[i] == row;
        assert of[perm[i]] == row;
      }
    }
    assert Elements(shown) == Elements(of);
    DistinctCount(shown);
  }

  /** Any other selector lists a row for each selected record: as many as there are, or as LIMIT says. */
  lemma {:induction false} EachRecordOnce(q: Query, db: Db, rows: seq<seq<S.Value>>)
    requires Inv(db) && WellFormed(q) && S.IsAnswer(Plan(q), db, rows)
    requires match q.selector
      case SimpleSelector(sel) => sel in {"*", "body", "id", "timestamp", "counter"}
      case CompoundSelector(sels) => |sels| > 1
      case _ => false
    ensures multiset(rows) <= multiset(ChosenRows(q, db))
    ensures |rows| == if 0 < q.limit < |ChosenRows(q, db)| then q.limit else |ChosenRows(q, db)|
  {
    CompilePreservesMeaning(q, db, rows);
    var all := Universe(db, HasIndex(q));
    var cands := Selected(q, all);
    SelectedAreChosen(q, all);
    assert IndexJoin.RowsOfCandidates(cands) == ChosenRows(q, db);
    var limit := if q.limit > 0 then Some(q.limit) else None;
    hide Inv, S.IsAnswer, Plan, WellFormed, Selected, Universe, HasIndex, S.KeyLeq, OrderDirs, ChosenRows;
    IndexJoin.DeliveredSome(cands, OrderDirs(q.order), limit, rows);
  }

  // ---- By number and name ----

  /** Comparisons with the timestamp and the counter are the comparisons of numbers they say. */
  lemma FoundByNumber(n: int, rec: Rec)
    ensures Satisfies(RangeCriteria("timestamp", "<", n), rec) <==> rec.stmt.timestamp < n
    ensures Satisfies(RangeCriteria("timestamp", "<=", n), rec) <==> rec.stmt.timestamp <= n
    ensures Satisfies(RangeCriteria("timestamp", ">", n), rec) <==> rec.stmt.timestamp > n
    ensures Satisfies(RangeCriteria("timestamp", ">=", n), rec) <==> rec.stmt.timestamp >= n
    ensures Satisfies(RangeCriteria("timestamp", "=", n), rec) <==> rec.stmt.timestamp == n
    ensures Satisfies(RangeCriteria("timestamp", "!=", n), rec) <==> rec.stmt.timestamp != n
    ensures Satisfies(RangeCriteria("counter", "<", n), rec) <==> rec.counter < n
    ensures Satisfies(RangeCriteria("counter", "<=", n), rec) <==> rec.counter <= n
    ensures Satisfies(RangeCriteria("counter", ">", n), rec) <==> rec.counter > n
    ensures Satisfies(RangeCriteria("counter", ">=", n), rec) <==> rec.counter >= n
    ensures Satisfies(RangeCriteria("counter", "=", n), rec) <==> rec.counter == n
    ensures Satisfies(RangeCriteria("counter", "!=", n), rec) <==> rec.counter != n
  {
  }

  /** Ids and publishers are compared as texts. */
  lemma FoundByName(val: string, rec: Rec)
    ensures Satisfies(ValueCriteria("id", "=", val), rec) <==> rec.stmt.id == val
    ensures Satisfies(ValueCriteria("id", "!=", val), rec) <==> rec.stmt.id != val
    ensures Satisfies(ValueCriteria("publisher", "=", val), rec) <==> rec.stmt.publisher == val
    ensures Satisfies(ValueCriteria("publisher", "!=", val), rec) <==> rec.stmt.publisher != val
  {
  }

  /** A wildcard reads names in any case of the letters A to Z, and of no other character. */
  lemma FoldsLetters(a: char, b: char)
    ensures S.Fold(a) == S.Fold(b) <==>
      a == b || ('A' <= a <= 'Z' && b as int == a as int + 32) || ('A' <= b <= 'Z' && a as int == b as int + 32)
  {
  }

  // ---- In order ----

  /** Records by time, in the direction of the first item of ORDER BY. */
  predicate InTime(dir: string, a: Statement, b: Statement) {
    if dir == "DESC" then a.timestamp >= b.timestamp else a.timestamp <= b.timestamp
  }

  lemma SortsByTime(order: seq<OrderSpec>, a: Rec, b: Rec)
    requires order != [] && order[0].sel == "timestamp"
    requires S.KeyLeq(OrderDirs(Some(order)), SortRow(Some(order), a), SortRow(Some(order), b))
    ensures InTime(order[0].dir, a.stmt, b.stmt)
  {
    assert SortRow(Some(order), a)[0] == S.Int(a.stmt.timestamp) && SortRow(Some(order), b)[0] == S.Int(b.stmt.timestamp);
  }

  /** Row `i` is that of `s`, no later than the rows behind it and than any statement of these that
      does not come before it. */
  ghost predicate StandsInTime(dir: string, recs: seq<Rec>, rows: seq<seq<S.Value>>, i: nat, s: Statement)
    requires i < |rows|
  {
    && rows[i] == [S.Blob(s)]
    && (forall j, t :: i < j < |rows| && rows[j] == [S.Blob(t)] ==> InTime(dir, s, t))
    && (forall k :: 0 <= k < |recs| ==> [S.Blob(recs[k].stmt)] in rows[..i] || InTime(dir, s, recs[k].stmt))
  }

  lemma {:induction false} ArrangedInTime(order: seq<OrderSpec>, recs: seq<Rec>, cands: seq<S.Candidate>, perm: seq<nat>, limit: Option<nat>, i: nat)
    requires order != [] && order[0].sel == "timestamp" && |cands| == |recs|
    requires forall k :: 0 <= k < |recs| ==> cands[k] == S.Candidate([S.Blob(recs[k].stmt)], SortRow(Some(order), recs[k]))
    requires S.Arranged(cands, false, OrderDirs(Some(order)), perm)
    requires i < |S.Take(S.Shown(cands, perm), limit)|
    ensures i < |perm| && perm[i] < |recs|
    ensures StandsInTime(order[0].dir, recs, S.Take(S.Shown(cands, perm), limit), i, recs[perm[i]].stmt)
  {
    hide S.KeyLeq, SortRow, OrderDirs, StandsInTime, InTime;
    var rows := S.Take(S.Shown(cands, perm), limit);
    var dir, stmts := order[0].dir, seq(|perm|, j requires 0 <= j < |perm| => recs[perm[j]].stmt);
    forall j | 0 <= j < |rows| ensures rows[j] == [S.Blob(stmts[j])] { assert rows[j] == cands[perm[j]].row; }
    forall j | i < j < |perm| ensures InTime(dir, stmts[i], stmts[j]) {
      SortsByTime(order, recs[perm[i]], recs[perm[j]]);
    }
    forall k | 0 <= k < |recs| ensures recs[k].stmt in stmts {
      Pigeonhole(perm, |cands|, k);
      var p :| 0 <= p < |perm| && perm[p] == k;
      assert stmts[p] == recs[k].stmt;
    }
    ListedInTime(dir, recs, stmts, rows, i);
  }

  /** Rows that are the first of a list of all the statements, of which one comes before all behind it. */
  lemma {:induction false} ListedInTime(dir: string, recs: seq<Rec>, stmts: seq<Statement>, rows: seq<seq<S.Value>>, i: nat)
    requires i < |rows| <= |stmts| && forall j :: 0 <= j < |rows| ==> rows[j] == [S.Blob(stmts[j])]
    requires forall j :: i < j < |stmts| ==> InTime(dir, stmts[i], stmts[j])
    requires forall k :: 0 <= k < |recs| ==> recs[k].stmt in stmts
    ensures StandsInTime(dir, recs, rows, i, stmts[i])
  {
    var s := stmts[i];
    forall j, t | i < j < |rows| && rows[j] == [S.Blob(t)] ensures InTime(dir, s, t) {
      assert [S.Blob(t)][0].stmt == [S.Blob(stmts[j])][0].stmt;
    }
    forall k | 0 <= k < |recs| ensures [S.Blob(recs[k].stmt)] in rows[..i] || InTime(dir, s, recs[k].stmt) {
      var p :| 0 <= p < |stmts| && stmts[p] == recs[k].stmt;
      if p < i { assert rows[..i][p] == [S.Blob(recs[k].stmt)]; }
    }
  }

  /** `SELECT * ... ORDER BY timestamp` delivers statements by time; and what it delivers, with a LIMIT
      as well, comes no later than what it does not. */
  lemma {:induction false} DeliveredInTime(q: Query, db: Db, rows: seq<seq<S.Value>>, i: nat) returns (s: Statement)
    requires Inv(db) && WellFormed(q) && q.selector == SimpleSelector("*") && S.IsAnswer(Plan(q), db, rows) && i < |rows|
    requires q.order.Some? && q.order.value[0].sel == "timestamp"
    ensures StandsInTime(q.order.value[0].dir, Chosen(q, Universe(db, HasIndex(q))), rows, i, s)
  {
    CompilePreservesMeaning(q, db, rows);
    var all := Universe(db, HasIndex(q));
    var recs, cands := Chosen(q, all), Selected(q, all);
    SelectedAreChosen(q, all);
    var limit := if q.limit > 0 then Some(q.limit) else None;
    hide Inv, S.IsAnswer, Plan, WellFormed, Selected, Chosen, Universe, HasIndex, S.KeyLeq, SortRow, OrderDirs, S.Arranged, StandsInTime;
    var perm :| S.Arranged(cands, false, OrderDirs(q.order), perm) && rows == S.Take(S.Shown(cands, perm), limit);
    ArrangedInTime(q.order.value, recs, cands, perm, limit, i);
    s := recs[perm[i]].stmt;
  }

  // ---- Where the evaluator differs ----

  /** The evaluator takes a source to be the publisher, whatever is inside. */
  lemma EvalSource(val: string, s: Statement)
    ensures Evals(ValueCriteria("source", "=", val), s) <==> s.publisher == val
    ensures Evals(ValueCriteria("source", "!=", val), s) <==> s.publisher != val
  {
  }

  /** It knows no counter: every statement's is 0, in criteria and as a value. */
  lemma EvalCounter(op: string, n: int, at: nat, s: Statement)
    requires RangeOp(op)
    ensures Evals(RangeCriteria("counter", op, n), s) <==> CompareInt(op, 0, n)
    ensures KeyOf("counter", at, s) == Untyped(0)
  {
  }

  /** It compares wildcards letter by letter: `foo.*` does not find `Foo.x`, which the compiled
      query finds. */
  lemma EvalWildcard(part: string, s: Statement)
    ensures MakeNamespaceFilter(part + ".*")(s) <==> part <= s.namespace
    ensures s.namespace == "Foo.x" ==> !MakeNamespaceFilter("foo" + ".*")(s) && InNamespace("foo" + ".*", s)
  {
    var ns := part + ".*";
    assert |ns| == |part| + 2 && ns[|ns| - 1] == '*' && ns[..|ns| - 2] == part;
    WildcardReads("foo", s);
    var foo := "foo" + ".*";
    assert |foo| == 5 && foo[4] == '*' && foo[..3] == "foo";
    if s.namespace == "Foo.x" { assert s.namespace[0] == 'F' && "foo"[0] == 'f'; }
  }
}
