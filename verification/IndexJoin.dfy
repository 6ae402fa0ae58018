/** What a `wki` criterion selects: the join with Refs tests one reference row at a time. */
module IndexJoin {
  import opened Std
  import opened Queries
  import opened Statements
  import opened Tables
  import opened Compile
  import S = Sql
  import opened Meaning
  import opened Eval
  import opened EvalAgrees

  /** The references of a statement that satisfy the query on their own. */
  ghost function MatchingRefs(q: Query, s: Statement, counter: int): set<string> {
    set wki | wki in Refs(s) && Selects(q, Rec(s, counter, Some(wki)))
  }

  ghost function RowsOfCandidates(cands: seq<S.Candidate>): seq<seq<S.Value>> {
    seq(|cands|, i requires 0 <= i < |cands| => cands[i].row)
  }

  /** How many selected records show this row. */
  ghost function Hits(q: Query, recs: seq<Rec>, row: seq<S.Value>): nat {
    multiset(RowsOfCandidates(Selected(q, recs)))[row]
  }

  lemma {:induction false} HitsCons(q: Query, rec: Rec, recs: seq<Rec>, row: seq<S.Value>)
    ensures Hits(q, [rec] + recs, row) == (if Selects(q, rec) && RowFor(q.selector, rec) == row then 1 else 0) + Hits(q, recs, row)
  {
    hide Selects, RowFor, SortRow;
    assert ([rec] + recs)[1..] == recs;
    var rest := RowsOfCandidates(Selected(q, recs));
    if Selects(q, rec) {
      assert RowsOfCandidates(Selected(q, [rec] + recs)) == [RowFor(q.selector, rec)] + rest;
    } else {
      assert RowsOfCandidates(Selected(q, [rec] + recs)) == rest;
    }
  }

  lemma {:induction false} HitsAppend(q: Query, a: seq<Rec>, b: seq<Rec>, row: seq<S.Value>)
    ensures Hits(q, a + b, row) == Hits(q, a, row) + Hits(q, b, row)
  {
    hide Hits;
    if a == [] {
      assert a + b == b;
      assert Hits(q, [], row) == 0 by { NoHits(q, row); }
    } else {
      HitsAppend(q, a[1..], b, row);
      HitsCons(q, a[0], a[1..], row);
      HitsCons(q, a[0], a[1..] + b, row);
      assert a == [a[0]] + a[1..];
      assert a + b == [a[0]] + (a[1..] + b);
    }
  }

  lemma {:induction false} NoHits(q: Query, row: seq<S.Value>)
    ensures Hits(q, [], row) == 0
  {
    assert RowsOfCandidates(Selected(q, [])) == [];
  }

  /** The references of `rec` among `refs` that satisfy the query. */
  ghost function RefsAmong(q: Query, rec: Rec, refs: seq<RefRow>): set<string> {
    set r | r in refs && r.id == rec.stmt.id && Selects(q, rec.(wki := Some(r.wki))) :: r.wki
  }

  /** A statement contributes one row for each of its matching references. */
  lemma {:induction false} HitsOfRefs(q: Query, rec: Rec, refs: seq<RefRow>)
    requires q.selector == SimpleSelector("id") && Distinct(refs)
    ensures Hits(q, RefRecs(rec, refs), [S.Text(rec.stmt.id)]) == |RefsAmong(q, rec, refs)|
  {
    hide Hits, Selects;
    var row := [S.Text(rec.stmt.id)];
    assert RowFor(q.selector, rec) == row;
    if refs == [] {
      NoHits(q, row);
      assert RefsAmong(q, rec, refs) == {};
    } else {
      var r := refs[0];
      assert refs == [r] + refs[1..];
      HitsOfRefs(q, rec, refs[1..]);
      var rest := RefRecs(rec, refs[1..]);
      var among := RefsAmong(q, rec, refs[1..]);
      if r.id == rec.stmt.id {
        var hit := rec.(wki := Some(r.wki));
        HitsCons(q, hit, rest, row);
        assert RowFor(q.selector, hit) == row;
      } else {
        assert [] + rest == rest;
      }
      hide RowFor, RefRecs;
      RefsAmongCons(q, rec, refs);
    }
  }

  lemma {:induction false} RefsAmongCons(q: Query, rec: Rec, refs: seq<RefRow>)
    requires refs != [] && Distinct(refs)
    ensures var r, among := refs[0], RefsAmong(q, rec, refs[1..]);
      if r.id == rec.stmt.id && Selects(q, rec.(wki := Some(r.wki)))
      then r.wki !in among && RefsAmong(q, rec, refs) == {r.wki} + among
      else RefsAmong(q, rec, refs) == among
  {
    hide Selects;
    var r, tail := refs[0], refs[1..];
    var among := RefsAmong(q, rec, tail);
    assert refs == [r] + tail;
    forall i | 0 <= i < |tail| ensures tail[i] != r {
      assert tail[i] == refs[i + 1];
    }
  }

  /** Other statements do not contribute. */
  lemma {:induction false} NoHitsElsewhere(q: Query, rec: Rec, refs: seq<RefRow>, id: string)
    requires q.selector == SimpleSelector("id") && rec.stmt.id != id
    ensures Hits(q, RefRecs(rec, refs), [S.Text(id)]) == 0
  {
    hide Hits, Selects;
    if refs == [] {
      NoHits(q, [S.Text(id)]);
    } else {
      NoHitsElsewhere(q, rec, refs[1..], id);
      var rest := RefRecs(rec, refs[1..]);
      if refs[0].id == rec.stmt.id {
        var hit := rec.(wki := Some(refs[0].wki));
        HitsCons(q, hit, rest, [S.Text(id)]);
        assert RowFor(q.selector, hit)[0] == S.Text(rec.stmt.id);
      } else {
        assert [] + rest == rest;
      }
    }
  }

  lemma {:induction false} HitsOfAll(q: Query, recs: seq<Rec>, refs: seq<RefRow>, at: int, id: string)
    requires q.selector == SimpleSelector("id") && Distinct(refs)
    requires 0 <= at < |recs| ==> recs[at].stmt.id == id
    requires forall i :: 0 <= i < |recs| && i != at ==> recs[i].stmt.id != id
    ensures Hits(q, AllRefRecs(recs, refs), [S.Text(id)]) == if 0 <= at < |recs| then |RefsAmong(q, recs[at], refs)| else 0
  {
    hide Hits, RefsAmong;
    if recs == [] {
      NoHits(q, [S.Text(id)]);
    } else {
      HitsOfAll(q, recs[1..], refs, at - 1, id);
      HitsAppend(q, RefRecs(recs[0], refs), AllRefRecs(recs[1..], refs), [S.Text(id)]);
      if at == 0 {
        HitsOfRefs(q, recs[0], refs);
      } else {
        NoHitsElsewhere(q, recs[0], refs, id);
      }
    }
  }

  /** Undoing DISTINCT-free delivery: the rows are the candidates' rows. */
  lemma {:induction false} DeliveredMultiset(cands: seq<S.Candidate>, desc: seq<bool>, rows: seq<seq<S.Value>>)
    requires S.Delivers(cands, false, desc, None, rows)
    ensures multiset(rows) == multiset(RowsOfCandidates(cands))
  {
    var perm :| S.Arranged(cands, false, desc, perm) && rows == S.Take(S.Shown(cands, perm), None);
    PermutedMultiset(RowsOfCandidates(cands), perm);
    assert rows == Pick(RowsOfCandidates(cands), perm);
  }

  /** A database may deliver some rows of the candidates, and each no more often than it occurs. */
  lemma {:induction false} DeliveredSome(cands: seq<S.Candidate>, desc: seq<bool>, limit: Option<nat>, rows: seq<seq<S.Value>>)
    requires S.Delivers(cands, false, desc, limit, rows)
    ensures multiset(rows) <= multiset(RowsOfCandidates(cands))
  {
    hide S.KeyLeq;
    var perm :| S.Arranged(cands, false, desc, perm) && rows == S.Take(S.Shown(cands, perm), limit);
    PermutedMultiset(RowsOfCandidates(cands), perm);
    var all := S.Shown(cands, perm);
    assert all == Pick(RowsOfCandidates(cands), perm);
    assert all == rows + all[|rows|..];
  }

  /** Before LIMIT, the id of a stored statement is selected once for each reference that
      satisfies the query by itself. */
  lemma {:induction false} IndexHits(q: Query, db: Db, i: nat)
    requires Inv(db) && q.selector == SimpleSelector("id") && i < |db.stmts|
    ensures Hits(q, Universe(db, true), [S.Text(db.stmts[i].id)]) == |MatchingRefs(q, db.stmts[i].data, db.envs[i].counter)|
  {
    var id := db.stmts[i].id;
    var recs := Entries(db.stmts, db.envs);
    forall k | 0 <= k < |recs| && k != i ensures recs[k].stmt.id != id {
      if k < i { assert db.stmts[k].id != db.stmts[i].id; } else { assert db.stmts[i].id != db.stmts[k].id; }
    }
    HitsOfAll(q, recs, db.refs, i, id);
    MatchingAreAmong(q, db, i);
  }

  /** `SELECT id ... WHERE` with a `wki` criterion lists the id of a stored statement at most once
      for each reference that satisfies the criteria by itself, and without LIMIT exactly so often:
      then it is listed iff some single reference does. */
  lemma {:induction false} IndexRows(q: Query, db: Db, rows: seq<seq<S.Value>>, i: nat)
    requires Inv(db) && WellFormed(q) && HasIndex(q) && q.selector == SimpleSelector("id")
    requires S.IsAnswer(Plan(q), db, rows) && i < |db.stmts|
    ensures multiset(rows)[[S.Text(db.stmts[i].id)]] <= |MatchingRefs(q, db.stmts[i].data, db.envs[i].counter)|
    ensures q.limit == 0 ==> multiset(rows)[[S.Text(db.stmts[i].id)]] == |MatchingRefs(q, db.stmts[i].data, db.envs[i].counter)|
    ensures q.limit == 0 ==>
      ([S.Text(db.stmts[i].id)] in rows <==> exists wki :: wki in MatchingRefs(q, db.stmts[i].data, db.envs[i].counter))
  {
    CompilePreservesMeaning(q, db, rows);
    IndexHits(q, db, i);
    var cands := Selected(q, Universe(db, true));
    var row := [S.Text(db.stmts[i].id)];
    var matching := MatchingRefs(q, db.stmts[i].data, db.envs[i].counter);
    DeliveredSome(cands, OrderDirs(q.order), if q.limit > 0 then Some(q.limit) else None, rows);
    if q.limit == 0 {
      DeliveredMultiset(cands, OrderDirs(q.order), rows);
      assert row in rows <==> multiset(rows)[row] > 0;
      assert matching == {} <==> !exists wki :: wki in matching;
    }
  }

  lemma {:induction false} MatchingAreAmong(q: Query, db: Db, i: nat)
    requires Inv(db) && i < |db.stmts|
    ensures RefsAmong(q, Entries(db.stmts, db.envs)[i], db.refs) == MatchingRefs(q, db.stmts[i].data, db.envs[i].counter)
  {
    hide Selects;
    var rec := Entries(db.stmts, db.envs)[i];
    var s := db.stmts[i].data;
    forall wki ensures RefRow(s.id, wki) in db.refs <==> wki in Refs(s) {
      if RefRow(s.id, wki) in db.refs {
        assert HasRef(db.stmts, RefRow(s.id, wki));
        var k :| 0 <= k < |db.stmts| && db.stmts[k].id == s.id && wki in Refs(db.stmts[k].data);
        assert k == i;
      }
      if wki in Refs(s) {
        assert HasRef(db.stmts, RefRow(s.id, wki));
      }
    }
    forall wki ensures wki in RefsAmong(q, rec, db.refs) <==> wki in MatchingRefs(q, s, db.envs[i].counter) {
      if wki in RefsAmong(q, rec, db.refs) {
        var r :| r in db.refs && r.id == rec.stmt.id && Selects(q, rec.(wki := Some(r.wki))) && r.wki == wki;
        assert r == RefRow(s.id, wki);
      }
      if wki in MatchingRefs(q, s, db.envs[i].counter) {
        assert RefRow(s.id, wki) in db.refs;
      }
    }
  }

  // ---- When the join agrees with testing the whole reference set ----

  /** No NOT above a `wki` leaf, and no AND with `wki` leaves on both sides. */
  predicate IndexSafe(c: Criteria) {
    match c
    case CompoundCriteria(op, l, r) =>
      IndexSafe(l) && IndexSafe(r) && (op == "AND" ==> !(IsIndexCriteria(l) && IsIndexCriteria(r)))
    case NegatedCriteria(e) => !IsIndexCriteria(e)
    case _ => true
  }

  /** Known operators, and neither a `source` nor a `counter` criterion. */
  predicate Comparable(c: Criteria) {
    match c
    case ValueCriteria(sel, op, _) => sel in {"id", "publisher"} && op in {"=", "!="}
    case RangeCriteria(sel, op, _) => sel == "timestamp" && RangeOp(op)
    case IndexCriteria(sel, _) => sel == "wki"
    case CompoundCriteria(op, l, r) => op in {"AND", "OR"} && Comparable(l) && Comparable(r)
    case NegatedCriteria(e) => Comparable(e)
  }

  /** Some single reference satisfies the criteria: the join's reading. */
  ghost predicate SomeRefSatisfies(c: Criteria, s: Statement, counter: int) {
    exists wki :: wki in Refs(s) && Satisfies(c, Rec(s, counter, Some(wki)))
  }

  lemma {:induction false} UnindexedAgrees(c: Criteria, rec: Rec)
    requires Comparable(c) && !IsIndexCriteria(c)
    ensures Satisfies(c, rec) <==> Evals(c, rec.stmt)
  {
    match c {
      case CompoundCriteria(_, l, r) =>
        UnindexedAgrees(l, rec);
        UnindexedAgrees(r, rec);
      case NegatedCriteria(e) => UnindexedAgrees(e, rec);
      case _ =>
    }
  }

  /** For safe criteria and a statement with references, one reference at a time is
      the same as the whole set. */
  lemma {:induction false} SafeIndexAgrees(c: Criteria, s: Statement, counter: int)
    requires Comparable(c) && IndexSafe(c) && Refs(s) != {}
    ensures SomeRefSatisfies(c, s, counter) <==> Evals(c, s)
  {
    if !IsIndexCriteria(c) {
      var w :| w in Refs(s);
      forall wki ensures Satisfies(c, Rec(s, counter, Some(wki))) <==> Evals(c, s) {
        UnindexedAgrees(c, Rec(s, counter, Some(wki)));
      }
      assert SomeRefSatisfies(c, s, counter) <==> Satisfies(c, Rec(s, counter, Some(w)));
    } else {
      match c {
        case IndexCriteria(_, val) =>
          if val in Refs(s) { assert Satisfies(c, Rec(s, counter, Some(val))); }
        case CompoundCriteria(op, l, r) =>
          SafeIndexAgrees(l, s, counter);
          SafeIndexAgrees(r, s, counter);
          SafeCompound(op, l, r, s, counter);
      }
    }
  }

  lemma {:induction false} SafeCompound(op: string, l: Criteria, r: Criteria, s: Statement, counter: int)
    requires op in {"AND", "OR"} && Comparable(l) && Comparable(r)
    requires op == "AND" ==> !(IsIndexCriteria(l) && IsIndexCriteria(r))
    requires SomeRefSatisfies(l, s, counter) <==> Evals(l, s)
    requires SomeRefSatisfies(r, s, counter) <==> Evals(r, s)
    ensures SomeRefSatisfies(CompoundCriteria(op, l, r), s, counter) <==> Evals(CompoundCriteria(op, l, r), s)
  {
    var c := CompoundCriteria(op, l, r);
    forall wki ensures var rec := Rec(s, counter, Some(wki));
      Satisfies(c, rec) == if op == "AND" then Satisfies(l, rec) && Satisfies(r, rec) else Satisfies(l, rec) || Satisfies(r, rec)
    {
    }
    if !IsIndexCriteria(l) {
      forall wki ensures Satisfies(l, Rec(s, counter, Some(wki))) <==> Evals(l, s) {
        UnindexedAgrees(l, Rec(s, counter, Some(wki)));
      }
    }
    if !IsIndexCriteria(r) {
      forall wki ensures Satisfies(r, Rec(s, counter, Some(wki))) <==> Evals(r, s) {
        UnindexedAgrees(r, Rec(s, counter, Some(wki)));
      }
    }
    hide Satisfies, Evals;
    assert Evals(c, s) == if op == "AND" then Evals(l, s) && Evals(r, s) else Evals(l, s) || Evals(r, s) by { EvalsCompound(op, l, r, s); }
    if SomeRefSatisfies(c, s, counter) {
      var wki :| wki in Refs(s) && Satisfies(c, Rec(s, counter, Some(wki)));
      if Satisfies(l, Rec(s, counter, Some(wki))) { assert SomeRefSatisfies(l, s, counter); }
      if Satisfies(r, Rec(s, counter, Some(wki))) { assert SomeRefSatisfies(r, s, counter); }
    }
    if Evals(c, s) {
      if SomeRefSatisfies(l, s, counter) {
        var wl :| wl in Refs(s) && Satisfies(l, Rec(s, counter, Some(wl)));
        if SomeRefSatisfies(r, s, counter) {
          var wr :| wr in Refs(s) && Satisfies(r, Rec(s, counter, Some(wr)));
          var w := if IsIndexCriteria(l) || op == "OR" then wl else wr;
          assert Satisfies(l, Rec(s, counter, Some(w)));
          assert Satisfies(c, Rec(s, counter, Some(w)));
        } else {
          assert Satisfies(c, Rec(s, counter, Some(wl)));
        }
      } else {
        var wr :| wr in Refs(s) && Satisfies(r, Rec(s, counter, Some(wr)));
        assert Satisfies(c, Rec(s, counter, Some(wr)));
      }
    }
  }

  lemma {:induction false} EvalsCompound(op: string, l: Criteria, r: Criteria, s: Statement)
    ensures Evals(CompoundCriteria(op, l, r), s) == if op == "AND" then Evals(l, s) && Evals(r, s) else Evals(l, s) || Evals(r, s)
  {
  }

  /** The compiled `wki` query selects exactly the statements the evaluator selects, when
      the criteria are safe and every stored statement has a reference. */
  lemma {:induction false} IndexAgreesWithEval(q: Query, db: Db, rows: seq<seq<S.Value>>, i: nat)
    requires Inv(db) && WellFormed(q) && HasIndex(q) && q.limit == 0 && q.selector == SimpleSelector("id")
    requires S.IsAnswer(Plan(q), db, rows) && i < |db.stmts|
    requires Comparable(q.criteria.value) && IndexSafe(q.criteria.value)
    requires Refs(db.stmts[i].data) != {}
    requires SameCase(q.namespace, [db.stmts[i].data])
    ensures [S.Text(db.stmts[i].id)] in rows <==> EvalSelects(q, db.stmts[i].data)
  {
    var s, counter, c := db.stmts[i].data, db.envs[i].counter, q.criteria.value;
    IndexRows(q, db, rows, i);
    SafeIndexAgrees(c, s, counter);
    NamespacesAgree(q.namespace, s);
    if wki :| wki in MatchingRefs(q, s, counter) {
      assert Satisfies(c, Rec(s, counter, Some(wki)));
    }
    if EvalSelects(q, s) {
      var wki :| wki in Refs(s) && Satisfies(c, Rec(s, counter, Some(wki)));
      assert wki in MatchingRefs(q, s, counter);
    }
  }

  lemma {:induction false} NamespacesAgree(ns: string, s: Statement)
    requires |ns| > 0 && SameCase(ns, [s])
    ensures InNamespace(ns, s) <==> MakeNamespaceFilter(ns)(s)
  {
    if |ns| > 1 && ns[|ns| - 1] == '*' {
      if ns[..|ns| - 2] <= s.namespace { PrefixFolds(ns[..|ns| - 2], s.namespace); }
      assert [s][0] == s;
    }
  }

  /** A reference that a query text can name. */
  predicate Lexeme(wki: string) {
    |wki| > 0 && forall i :: 0 <= i < |wki| ==> IsWkiChar(wki[i])
  }

  /** A `wki` criteria tree of some query text. */
  predicate Askable(c: Criteria) {
    WellFormedCriteria(c) && Comparable(c) && IsIndexCriteria(c)
  }

  /** For a given statement, the join and the evaluator agree on every `wki` criteria tree a query
      text can carry exactly when the statement has one reference, or has some and no query text
      can name any of them. */
  lemma {:induction false} AgreeExactlyOnOneRef(s: Statement, counter: int)
    ensures (forall c :: Askable(c) ==> (SomeRefSatisfies(c, s, counter) <==> Evals(c, s)))
       <==> |Refs(s)| == 1 || (Refs(s) != {} && forall wki :: wki in Refs(s) ==> !Lexeme(wki))
  {
    if Refs(s) == {} {
      NoRefDisagrees(s, counter);
    } else if |Refs(s)| == 1 || forall wki :: wki in Refs(s) ==> !Lexeme(wki) {
      forall c | Askable(c) ensures SomeRefSatisfies(c, s, counter) <==> Evals(c, s) {
        AnyRefDecides(c, s, counter);
      }
    } else {
      var a :| a in Refs(s) && Lexeme(a);
      var b :| b in Refs(s) && b != a by {
        assert Refs(s) != {a};
      }
      SeveralRefsDisagree(s, counter, a, b);
    }
  }

  /** NOT wki = x: there is no reference to join with, but the set lacks x. */
  lemma {:induction false} NoRefDisagrees(s: Statement, counter: int)
    requires Refs(s) == {}
    ensures exists c :: Askable(c) && Evals(c, s) && !SomeRefSatisfies(c, s, counter)
  {
    var leaf := IndexCriteria("wki", "x");
    var c := NegatedCriteria(leaf);
    assert Askable(leaf) && Askable(c);
    assert !Evals(leaf, s) && Evals(c, s);
  }

  /** NOT wki = a: the set has a, but the other reference is not a. */
  lemma {:induction false} SeveralRefsDisagree(s: Statement, counter: int, a: string, b: string)
    requires a in Refs(s) && b in Refs(s) && a != b && Lexeme(a)
    ensures exists c :: Askable(c) && !Evals(c, s) && SomeRefSatisfies(c, s, counter)
  {
    var leaf := IndexCriteria("wki", a);
    var c := NegatedCriteria(leaf);
    assert Askable(leaf) && Askable(c);
    assert Evals(leaf, s) && !Evals(c, s);
    assert Satisfies(c, Rec(s, counter, Some(b)));
  }

  /** With one reference, or with none that can be named, each reference by itself answers as
      the whole set does. */
  lemma {:induction false} AnyRefDecides(c: Criteria, s: Statement, counter: int)
    requires WellFormedCriteria(c) && Comparable(c)
    requires |Refs(s)| == 1 || (Refs(s) != {} && forall wki :: wki in Refs(s) ==> !Lexeme(wki))
    ensures SomeRefSatisfies(c, s, counter) <==> Evals(c, s)
  {
    forall wki | wki in Refs(s) ensures Satisfies(c, Rec(s, counter, Some(wki))) <==> Evals(c, s) {
      if |Refs(s)| == 1 { assert |Refs(s) - {wki}| == 0; assert Refs(s) == {wki}; }
      OneRefDecides(c, s, counter, wki);
    }
    var w :| w in Refs(s) by { assert Refs(s) != {}; }
  }

  lemma {:induction false} OneRefDecides(c: Criteria, s: Statement, counter: int, w: string)
    requires WellFormedCriteria(c) && Comparable(c) && w in Refs(s)
    requires forall wki :: Lexeme(wki) ==> (wki in Refs(s) <==> wki == w)
    ensures Satisfies(c, Rec(s, counter, Some(w))) <==> Evals(c, s)
  {
    match c {
      case CompoundCriteria(_, l, r) =>
        OneRefDecides(l, s, counter, w);
        OneRefDecides(r, s, counter, w);
      case NegatedCriteria(e) => OneRefDecides(e, s, counter, w);
      case IndexCriteria(_, val) => assert Lexeme(val);
      case _ =>
    }
  }
}
