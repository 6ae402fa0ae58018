/** Which statements a delete query removes, and when its count is right. */
module Deleting {
  import opened Std
  import opened Statements
  import opened Tables
  import opened Batches
  import opened StoreInv
  import opened Store
  import opened Queries
  import opened Compile
  import opened Meaning
  import opened Rows
  import opened IndexJoin
  import EvalAgrees
  import L = Limits
  import S = Sql

  /** A delete query and its answer over a store in step. */
  ghost predicate Deletion(q: Query, db: Db, answer: seq<seq<S.Value>>) {
    Inv(db) && WellFormed(q) && q.op.OpDelete? && S.IsAnswer(Plan(q), db, answer)
  }

  lemma {:induction false} RefRecsOf(rec: Rec, refs: seq<RefRow>)
    ensures forall r :: r in RefRecs(rec, refs) ==> r.stmt == rec.stmt
  {
    if refs != [] { RefRecsOf(rec, refs[1..]); }
  }

  lemma {:induction false} AllRefRecsOf(recs: seq<Rec>, refs: seq<RefRow>)
    ensures forall r :: r in AllRefRecs(recs, refs) ==> exists i :: 0 <= i < |recs| && recs[i].stmt == r.stmt
  {
    if recs != [] {
      RefRecsOf(recs[0], refs);
      AllRefRecsOf(recs[1..], refs);
      forall r | r in AllRefRecs(recs, refs) ensures exists i :: 0 <= i < |recs| && recs[i].stmt == r.stmt {
        if r in RefRecs(recs[0], refs) {
          assert recs[0].stmt == r.stmt;
        } else {
          var i :| 0 <= i < |recs[1..]| && recs[1..][i].stmt == r.stmt;
          assert recs[i + 1].stmt == r.stmt;
        }
      }
    }
  }

  lemma {:induction false} UniverseStored(db: Db, index: bool, rec: Rec)
    requires Inv(db) && rec in Universe(db, index)
    ensures rec.stmt.id in IdsOf(Contents(db))
  {
    var entries := Entries(db.stmts, db.envs);
    AllRefRecsOf(entries, db.refs);
    var i :| 0 <= i < |entries| && entries[i].stmt == rec.stmt;
    assert Contents(db)[i] == rec.stmt;
  }

  /** Every delivered row is the id of a stored statement. */
  lemma {:induction false} RowsAreStoredIds(q: Query, db: Db, answer: seq<seq<S.Value>>, i: nat) returns (id: string)
    requires Deletion(q, db, answer) && i < |answer|
    ensures answer[i] == [S.Text(id)] && id in IdsOf(Contents(db)) && id in RowIds(answer)
  {
    CompilePreservesMeaning(q, db, answer);
    var rec := AnswersScan(q, db, answer, i);
    UniverseStored(db, HasIndex(q), rec);
    id := rec.stmt.id;
    assert answer[i][0].Text? && answer[i][0].s == id;
  }

  lemma {:induction false} IdsAreElements(q: Query, db: Db, answer: seq<seq<S.Value>>)
    requires Deletion(q, db, answer)
    ensures |RowIds(answer)| == |Elements(answer)| && RowIds(answer) <= IdsOf(Contents(db))
  {
    forall i | 0 <= i < |answer|
      ensures |answer[i]| == 1 && answer[i][0].Text? && answer[i][0].s in IdsOf(Contents(db))
    {
      var id := RowsAreStoredIds(q, db, answer, i);
    }
    hide IdsOf, Contents, Deletion;
    assert RowIds(answer) <= IdsOf(Contents(db));
    SameSize(answer);
  }

  lemma {:induction false} SameSize(rows: seq<seq<S.Value>>)
    requires forall i :: 0 <= i < |rows| ==> |rows[i]| == 1 && rows[i][0].Text?
    ensures |RowIds(rows)| == |Elements(rows)|
  {
    var ids := seq(|rows|, i requires 0 <= i < |rows| => rows[i][0].s);
    forall id ensures id in Elements(ids) <==> id in RowIds(rows) {
      if id in Elements(ids) {
        var i :| 0 <= i < |ids| && ids[i] == id;
        assert rows[i][0].s == id;
      }
      if i :| 0 <= i < |rows| && |rows[i]| > 0 && rows[i][0].Text? && rows[i][0].s == id { assert ids[i] == id; }
    }
    assert Elements(ids) == RowIds(rows);
    forall i, j | 0 <= i < j < |rows| ensures ids[i] == ids[j] <==> rows[i] == rows[j] {
      assert rows[i] == [S.Text(ids[i])] && rows[j] == [S.Text(ids[j])];
    }
    SameRepeats(ids, rows);
  }

  /** A delete removes as many statements as it delivered different ids; its count is that
      number exactly when no id was delivered twice. */
  lemma {:induction false} CountExactly(q: Query, db: Db, answer: seq<seq<S.Value>>)
    requires Deletion(q, db, answer)
    ensures var removed := |Contents(db)| - |Kept(Contents(db), RowIds(answer))|;
      removed <= |answer| && (removed == |answer| <==> Distinct(answer))
  {
    IdsAreElements(q, db, answer);
    ContentsIds(db);
    KeptCount(Contents(db), RowIds(answer));
    hide Deletion, IdsOf, Contents, Kept, RowIds;
    assert RowIds(answer) * IdsOf(Contents(db)) == RowIds(answer);
    ElementsCount(answer);
    if Distinct(answer) { DistinctCount(answer); }
  }

  // ---- Queries without `wki` ----

  /** The number of statements an answer removes is the number the delete counts. */
  ghost predicate CountsRight(db: Db, answer: seq<seq<S.Value>>) {
    |answer| == |Contents(db)| - |Kept(Contents(db), RowIds(answer))|
  }

  /** Without `wki` no id is delivered twice, so the count is the number removed: the number of
      statements selected, up to the LIMIT. */
  lemma {:induction false} PlainCount(q: Query, db: Db, answer: seq<seq<S.Value>>)
    requires Deletion(q, db, answer) && !HasIndex(q)
    ensures CountsRight(db, answer)
    ensures |answer| == CutAt(if q.limit > 0 then Some(q.limit) else None, |Chosen(q, Entries(db.stmts, db.envs))|)
  {
    CompilePreservesMeaning(q, db, answer);
    var recs := Entries(db.stmts, db.envs);
    DistinctEntries(db);
    ChosenDistinct(q, recs);
    SelectedAreChosen(q, recs);
    var cands := Selected(q, recs);
    var limit := if q.limit > 0 then Some(q.limit) else None;
    forall i, j | 0 <= i < j < |cands| ensures cands[i].row != cands[j].row {
      assert cands[i].row == [S.Text(Chosen(q, recs)[i].stmt.id)];
      assert cands[j].row == [S.Text(Chosen(q, recs)[j].stmt.id)];
    }
    assert S.Delivers(cands, false, OrderDirs(q.order), limit, answer);
    DeliveredDistinct(cands, OrderDirs(q.order), limit, answer);
    CountExactly(q, db, answer);
  }

  lemma {:induction false} DeliveredDistinct(cands: seq<S.Candidate>, desc: seq<bool>, limit: Option<nat>, rows: seq<seq<S.Value>>)
    requires S.Delivers(cands, false, desc, limit, rows)
    requires forall i, j :: 0 <= i < j < |cands| ==> cands[i].row != cands[j].row
    ensures Distinct(rows)
  {
    hide S.KeyLeq;
    var perm :| S.Arranged(cands, false, desc, perm) && rows == S.Take(S.Shown(cands, perm), limit);
    forall i, j | 0 <= i < j < |rows| ensures rows[i] != rows[j] {
      assert perm[i] != perm[j];
      assert rows[i] == cands[perm[i]].row && rows[j] == cands[perm[j]].row;
    }
  }

  ghost predicate DistinctRecs(recs: seq<Rec>) {
    forall i, j :: 0 <= i < j < |recs| ==> recs[i].stmt.id != recs[j].stmt.id
  }

  lemma DistinctEntries(db: Db)
    requires Inv(db)
    ensures DistinctRecs(Entries(db.stmts, db.envs))
  {
    var recs := Entries(db.stmts, db.envs);
    forall i, j | 0 <= i < j < |recs| ensures recs[i].stmt.id != recs[j].stmt.id {
      assert db.stmts[i].id != db.stmts[j].id;
    }
  }

  lemma {:induction false} ChosenDistinct(q: Query, recs: seq<Rec>)
    requires DistinctRecs(recs)
    ensures DistinctRecs(Chosen(q, recs))
  {
    hide Selects;
    if recs != [] {
      var rest := recs[1..];
      assert DistinctRecs(rest);
      ChosenDistinct(q, rest);
      SelectedAreChosen(q, rest);
      var c := Chosen(q, rest);
      forall i | 0 <= i < |c| ensures c[i].stmt.id != recs[0].stmt.id {
        assert c[i] in rest;
        var k :| 0 <= k < |rest| && rest[k] == c[i];
        assert recs[k + 1] == c[i];
      }
    }
  }

  /** Without `wki` only selected statements are deleted, and without LIMIT all of them. */
  lemma {:induction false} PlainDeletesSelected(q: Query, db: Db, answer: seq<seq<S.Value>>, i: nat)
    requires Deletion(q, db, answer) && !HasIndex(q) && i < |db.stmts|
    ensures var kept := db.stmts[i].data in Kept(Contents(db), RowIds(answer));
      var selected := Selects(q, Rec(db.stmts[i].data, db.envs[i].counter, None));
      (!kept ==> selected) && (q.limit == 0 ==> (kept <==> !selected))
  {
    CompilePreservesMeaning(q, db, answer);
    var recs, s := Entries(db.stmts, db.envs), db.stmts[i].data;
    var rec := recs[i];
    SelectedAreChosen(q, recs);
    var cands := Selected(q, recs);
    if Selects(q, rec) && q.limit == 0 {
      assert S.Delivers(cands, false, OrderDirs(q.order), None, answer);
      assert rec in Chosen(q, recs);
      var k :| 0 <= k < |Chosen(q, recs)| && Chosen(q, recs)[k] == rec;
      var j := EvalAgrees.DeliveredRows(cands, false, OrderDirs(q.order), answer, k);
      assert answer[j] == [S.Text(s.id)];
    }
    if s.id in RowIds(answer) {
      var j :| 0 <= j < |answer| && |answer[j]| > 0 && answer[j][0].Text? && answer[j][0].s == s.id;
      var r := AnswersScan(q, db, answer, j);
      assert r.stmt.id == s.id;
      SameEntry(db, r, i);
    }
    assert s == Contents(db)[i];
    KeptMembers(Contents(db), RowIds(answer), s);
  }

  lemma SameIndex(recs: seq<Rec>, i: nat, k: nat)
    requires DistinctRecs(recs) && i < |recs| && k < |recs| && recs[i].stmt.id == recs[k].stmt.id
    ensures i == k
  {
  }

  lemma SameEntry(db: Db, rec: Rec, i: nat)
    requires Inv(db) && i < |db.stmts| && rec in Entries(db.stmts, db.envs) && rec.stmt.id == db.stmts[i].id
    ensures rec == Entries(db.stmts, db.envs)[i]
  {
    var recs := Entries(db.stmts, db.envs);
    DistinctEntries(db);
    var k :| 0 <= k < |recs| && recs[k] == rec;
    SameIndex(recs, i, k);
  }

  // ---- Queries with `wki` ----

  /** No statement has two references that satisfy the query on their own. */
  ghost predicate OneMatchEach(q: Query, db: Db)
    requires |db.stmts| == |db.envs|
  {
    forall i :: 0 <= i < |db.stmts| ==> |MatchingRefs(q, db.stmts[i].data, db.envs[i].counter)| <= 1
  }

  /** It is so exactly when no id is selected twice. */
  lemma {:induction false} SelectedOnce(q: Query, db: Db)
    requires Inv(db) && q.selector == SimpleSelector("id")
    ensures Distinct(RowsOfCandidates(Selected(q, Universe(db, true)))) <==> OneMatchEach(q, db)
  {
    var recs := Universe(db, true);
    var rows := RowsOfCandidates(Selected(q, recs));
    SelectedAreChosen(q, recs);
    forall r | r in rows ensures exists i :: 0 <= i < |db.stmts| && r == [S.Text(db.stmts[i].id)] {
      var k :| 0 <= k < |rows| && rows[k] == r;
      UniverseStored(db, true, Chosen(q, recs)[k]);
      ContentsIds(db);
    }
    forall i | 0 <= i < |db.stmts|
      ensures multiset(rows)[[S.Text(db.stmts[i].id)]] == |MatchingRefs(q, db.stmts[i].data, db.envs[i].counter)|
    {
      IndexHits(q, db, i);
    }
    DistinctMultiset(rows);
    hide MatchingRefs, Distinct, Selected, Universe, Inv;
    if OneMatchEach(q, db) {
      forall r | r in rows ensures multiset(rows)[r] <= 1 {
        var i :| 0 <= i < |db.stmts| && r == [S.Text(db.stmts[i].id)];
      }
    }
    if Distinct(rows) {
      forall i | 0 <= i < |db.stmts| ensures |MatchingRefs(q, db.stmts[i].data, db.envs[i].counter)| <= 1 {
        assert multiset(rows)[[S.Text(db.stmts[i].id)]] <= 1;
      }
    }
  }

  /** Two candidates that show the same row can come first. */
  lemma {:induction false} TwiceFirst(cands: seq<S.Candidate>, limit: Option<nat>) returns (rows: seq<seq<S.Value>>)
    requires !Distinct(RowsOfCandidates(cands)) && (forall i :: 0 <= i < |cands| ==> cands[i].keys == [])
    requires limit.Some? ==> limit.value >= 2
    ensures S.Delivers(cands, false, [], limit, rows) && !Distinct(rows)
  {
    var a, b :| 0 <= a < b < |cands| && RowsOfCandidates(cands)[a] == RowsOfCandidates(cands)[b];
    Below(|cands|);
    var others := UpTo(|cands|) - {a, b};
    var last := L.SortedListing(cands, [], others);
    L.AroundDistinct([a], b, last);
    var perm := [a] + [b] + last;
    assert perm[0] == a && perm[1] == b;
    forall i | 0 <= i < |perm| ensures perm[i] < |cands| { assert perm[i] in last || i < 2; }
    forall j: nat | j < |cands| ensures j in perm { assert j in last || j == a || j == b; }
    L.CountAll(perm, |cands|);
    assert S.Arranged(cands, false, [], perm);
    rows := S.Take(S.Shown(cands, perm), limit);
    assert rows[0] == cands[a].row && rows[1] == cands[b].row;
  }

  /** With `wki` the count of a delete is sure to be right exactly when no statement has two
      references that satisfy the query on their own, or with LIMIT 1. */
  lemma {:induction false} IndexCount(q: Query, db: Db)
    requires Inv(db) && WellFormed(q) && q.op.OpDelete? && HasIndex(q)
    ensures (forall answer :: Deletion(q, db, answer) ==> CountsRight(db, answer)) <==> q.limit == 1 || OneMatchEach(q, db)
  {
    SelectedOnce(q, db);
    hide MatchingRefs, Inv, WellFormed;
    if q.limit == 1 || OneMatchEach(q, db) {
      forall answer | Deletion(q, db, answer) ensures CountsRight(db, answer) {
        DeliveredOnce(q, db, answer);
        CountExactly(q, db, answer);
      }
    } else {
      var answer := CountedTwice(q, db);
      CountExactly(q, db, answer);
    }
  }

  lemma {:induction false} DeliveredOnce(q: Query, db: Db, answer: seq<seq<S.Value>>)
    requires Deletion(q, db, answer) && HasIndex(q)
    requires q.limit == 1 || Distinct(RowsOfCandidates(Selected(q, Universe(db, true))))
    ensures Distinct(answer)
  {
    CompilePreservesMeaning(q, db, answer);
    var cands := Selected(q, Universe(db, true));
    var limit := if q.limit > 0 then Some(q.limit) else None;
    hide S.KeyLeq, Inv, WellFormed, Selected, Universe;
    assert S.Delivers(cands, false, OrderDirs(q.order), limit, answer);
    if q.limit == 1 {
      assert |answer| <= 1;
    } else {
      var rows := RowsOfCandidates(cands);
      forall i, j | 0 <= i < j < |cands| ensures cands[i].row != cands[j].row {
        assert rows[i] != rows[j];
      }
      DeliveredDistinct(cands, OrderDirs(q.order), limit, answer);
    }
  }

  /** An answer in which some id comes twice. */
  lemma {:induction false} CountedTwice(q: Query, db: Db) returns (answer: seq<seq<S.Value>>)
    requires Inv(db) && WellFormed(q) && q.op.OpDelete? && HasIndex(q) && q.limit != 1
    requires !Distinct(RowsOfCandidates(Selected(q, Universe(db, true))))
    ensures Deletion(q, db, answer) && !Distinct(answer)
  {
    var recs := Universe(db, true);
    var cands := Selected(q, recs);
    SelectedAreChosen(q, recs);
    answer := TwiceFirst(cands, if q.limit > 0 then Some(q.limit) else None);
    CompilePreservesMeaning(q, db, answer);
  }

  /** Without LIMIT it is so for each answer. */
  lemma {:induction false} UnlimitedIndexCount(q: Query, db: Db, answer: seq<seq<S.Value>>)
    requires Deletion(q, db, answer) && HasIndex(q) && q.limit == 0
    ensures CountsRight(db, answer) <==> OneMatchEach(q, db)
  {
    CountExactly(q, db, answer);
    SelectedOnce(q, db);
    CompilePreservesMeaning(q, db, answer);
    var cands := Selected(q, Universe(db, true));
    DeliveredMultiset(cands, OrderDirs(q.order), answer);
    DistinctMultiset(answer);
    DistinctMultiset(RowsOfCandidates(cands));
  }

  lemma {:induction false} DistinctMultiset<T>(s: seq<T>)
    ensures Distinct(s) <==> forall x :: multiset(s)[x] <= 1
    ensures Distinct(s) <==> forall x :: x in s ==> multiset(s)[x] <= 1
  {
    if s != [] {
      var n := |s| - 1;
      DistinctMultiset(s[..n]);
      assert s == s[..n] + [s[n]];
      if Distinct(s) {
        assert Distinct(s[..n]) && s[n] !in s[..n];
      } else if Distinct(s[..n]) {
        assert s[n] in s[..n];
        assert multiset(s)[s[n]] > 1;
      } else {
        var x :| multiset(s[..n])[x] > 1;
        assert multiset(s)[x] > 1 && x in s;
      }
    }
  }

  /** `DELETE FROM * WHERE wki = a OR wki = b` counts a statement that refers to both twice. */
  lemma {:induction false} DeleteOvercounts(db: Db, answer: seq<seq<S.Value>>, i: nat)
    requires Inv(db) && i < |db.stmts| && {"a", "b"} <= Refs(db.stmts[i].data)
    requires var q := TwoRefs(); WellFormed(q) && S.IsAnswer(Plan(q), db, answer)
    ensures |answer| > |Contents(db)| - |Kept(Contents(db), RowIds(answer))|
  {
    var q := TwoRefs();
    CountExactly(q, db, answer);
    var a, b := IndexCriteria("wki", "a"), IndexCriteria("wki", "b");
    assert q.criteria == Some(CompoundCriteria("OR", a, b));
    assert IsIndexCriteria(a) && IsIndexCriteria(b);
    assert IsIndexCriteria(q.criteria.value);
    assert HasIndex(q);
    UnlimitedIndexCount(q, db, answer);
    var s, counter := db.stmts[i].data, db.envs[i].counter;
    forall w | w in {"a", "b"} ensures w in MatchingRefs(q, s, counter) {
      var rec := Rec(s, counter, Some(w));
      assert Satisfies(a, rec) || Satisfies(b, rec);
      assert Satisfies(q.criteria.value, rec);
    }
    AtLeastTwo(MatchingRefs(q, s, counter), "a", "b");
  }

  function TwoRefs(): Query {
    var either := CompoundCriteria("OR", IndexCriteria("wki", "a"), IndexCriteria("wki", "b"));
    Query(OpDelete, "*", SimpleSelector("id"), Some(either), None, 0)
  }

  lemma AtLeastTwo<T>(s: set<T>, a: T, b: T)
    requires a in s && b in s && a != b
    ensures |s| > 1
  {
    assert s == {a, b} + (s - {a, b});
  }
}
