/** The evaluator and the compiled SQL agree, on the queries both treat alike. */
module EvalAgrees {
  import opened Std
  import opened Queries
  import opened Statements
  import opened Tables
  import opened Compile
  import S = Sql
  import opened Meaning
  import opened Rows
  import opened Eval

  // ---- Where the two agree ----

  /** No `wki`, `source` or `counter` criterion. */
  predicate PlainCriteria(c: Criteria) {
    match c
    case ValueCriteria(sel, _, _) => sel != "source"
    case RangeCriteria(sel, _, _) => sel != "counter"
    case IndexCriteria(_, _) => false
    case CompoundCriteria(_, l, r) => PlainCriteria(l) && PlainCriteria(r)
    case NegatedCriteria(e) => PlainCriteria(e)
  }

  /** No stored namespace starts with the wildcard's prefix in another case only. */
  predicate SameCase(ns: string, stmts: seq<Statement>) {
    |ns| > 1 && ns[|ns| - 1] == '*' ==>
      forall i :: 0 <= i < |stmts| && FoldedPrefix(ns[..|ns| - 2], stmts[i].namespace) ==>
        ns[..|ns| - 2] <= stmts[i].namespace
  }

  ghost predicate Plain(q: Query, stmts: seq<Statement>) {
    && WellFormed(q) && q.limit == 0
    && (q.criteria.Some? ==> PlainCriteria(q.criteria.value))
    && SameCase(q.namespace, stmts)
  }

  /** `stmts` are the stored statements. */
  ghost predicate Stored(db: Db, stmts: seq<Statement>) {
    Inv(db) && |stmts| == |db.stmts| && forall i :: 0 <= i < |stmts| ==> stmts[i] == db.stmts[i].data
  }

  lemma {:induction false} CriteriaAgree(c: Criteria, rec: Rec)
    requires WellFormedCriteria(c) && PlainCriteria(c)
    ensures Satisfies(c, rec) <==> Evals(c, rec.stmt)
    ensures !IsIndexCriteria(c)
  {
    match c {
      case CompoundCriteria(_, l, r) =>
        CriteriaAgree(l, rec);
        CriteriaAgree(r, rec);
      case NegatedCriteria(e) => CriteriaAgree(e, rec);
      case RangeCriteria(sel, op, num) =>
      case _ =>
    }
  }

  lemma PrefixFolds(pre: string, s: string)
    requires pre <= s
    ensures FoldedPrefix(pre, s)
  {
  }

  lemma SelectsAgree(q: Query, stmts: seq<Statement>, i: nat, rec: Rec)
    requires Plain(q, stmts) && i < |stmts| && rec.stmt == stmts[i]
    ensures Selects(q, rec) <==> EvalSelects(q, stmts[i])
  {
    if q.criteria.Some? { CriteriaAgree(q.criteria.value, rec); }
    var ns := q.namespace;
    if |ns| > 1 && ns[|ns| - 1] == '*' && ns[..|ns| - 2] <= stmts[i].namespace {
      PrefixFolds(ns[..|ns| - 2], stmts[i].namespace);
    }
  }

  /** The evaluator passes exactly the records the query chooses, in table order. */
  lemma ChosenArePassing(q: Query, db: Db, stmts: seq<Statement>)
    requires Plain(q, stmts) && Stored(db, stmts)
    ensures !HasIndex(q)
    ensures forall i :: 0 <= i < |Passing(q, stmts)| ==> Passing(q, stmts)[i] < |stmts|
    ensures Chosen(q, Universe(db, HasIndex(q))) == Pick(Entries(db.stmts, db.envs), Passing(q, stmts))
  {
    if q.criteria.Some? {
      CriteriaAgree(q.criteria.value, Rec(Statement("", "", "", NilBody, 0, None), 0, None));
    }
    PassingIs(q, stmts);
    ChosenPrefix(q, db, stmts, |stmts|);
    assert stmts[..|stmts|] == stmts;
    var e := Entries(db.stmts, db.envs);
    assert e[..|e|] == e;
  }

  lemma {:induction false} ChosenPrefix(q: Query, db: Db, stmts: seq<Statement>, n: nat)
    requires Plain(q, stmts) && Stored(db, stmts) && n <= |stmts|
    ensures forall i :: 0 <= i < |Passing(q, stmts[..n])| ==> Passing(q, stmts[..n])[i] < |stmts|
    ensures Chosen(q, Entries(db.stmts, db.envs)[..n]) == Pick(Entries(db.stmts, db.envs), Passing(q, stmts[..n]))
  {
    var e := Entries(db.stmts, db.envs);
    assert |e| == |stmts| && (n > 0 ==> e[n - 1].stmt == stmts[n - 1]);
    hide Plain, Stored, Selects, EvalSelects, Entries;
    if n == 0 {
      assert e[..0] == [] && stmts[..0] == [];
    } else {
      hide Chosen, Passing, Pick;
      ChosenPrefix(q, db, stmts, n - 1);
      PassingStep(q, stmts, n - 1);
      SelectsAgree(q, stmts, n - 1, e[n - 1]);
      PrefixStep(q, e, Passing(q, stmts[..n - 1]), n - 1);
    }
  }

  lemma {:induction false} PrefixStep(q: Query, e: seq<Rec>, perm: seq<nat>, k: nat)
    requires k < |e| && (forall i :: 0 <= i < |perm| ==> perm[i] < |e|) && Chosen(q, e[..k]) == Pick(e, perm)
    ensures Selects(q, e[k]) ==> Chosen(q, e[..k + 1]) == Pick(e, perm + [k])
    ensures !Selects(q, e[k]) ==> Chosen(q, e[..k + 1]) == Pick(e, perm)
  {
    ChosenOne(q, e[k]);
    hide Chosen, Pick, Selects;
    ChosenAppend(q, e[..k], [e[k]]);
    assert e[..k + 1] == e[..k] + [e[k]];
    PickMore(e, perm, k);
  }

  lemma ChosenOne(q: Query, rec: Rec)
    ensures Chosen(q, [rec]) == if Selects(q, rec) then [rec] else []
  {
    hide Selects;
  }

  lemma PickMore<T>(vals: seq<T>, perm: seq<nat>, k: nat)
    requires k < |vals| && forall i :: 0 <= i < |perm| ==> perm[i] < |vals|
    ensures Pick(vals, perm + []) == Pick(vals, perm) + []
    ensures Pick(vals, perm + [k]) == Pick(vals, perm) + [vals[k]]
  {
    assert perm + [] == perm;
  }

  lemma {:induction false} ChosenAppend(q: Query, a: seq<Rec>, b: seq<Rec>)
    ensures Chosen(q, a + b) == Chosen(q, a) + Chosen(q, b)
  {
    if a == [] {
      assert a + b == b;
    } else {
      ChosenAppend(q, a[1..], b);
      assert (a + b)[1..] == a[1..] + b;
      Assoc(if Selects(q, a[0]) then [a[0]] else [], Chosen(q, a[1..]), Chosen(q, b));
    }
  }

  // ---- Results compared as objects ----

  /** The object a result-set value stands for. */
  function KeyObj(k: Key, stmts: seq<Statement>): Obj {
    match k
    case StmtKey(at) => if at < |stmts| then StmtObj(stmts[at]) else IntObj(0)
    case BodyKey(at) => if at < |stmts| then BodyObj(stmts[at].body) else IntObj(0)
    case StrKey(s) => StrObj(s)
    case Num(i) => IntObj(i)
    case Untyped(i) => IntObj(i)
  }

  lemma KeyIsField(sel: string, db: Db, stmts: seq<Statement>, at: nat)
    requires Stored(db, stmts) && at < |stmts| && SimpleName(sel) && sel != "counter"
    ensures KeyObj(KeyOf(sel, at, stmts[at]), stmts) == FieldObj(sel, Entries(db.stmts, db.envs)[at])
  {
  }

  lemma {:induction false} UnlimitedKeys(keys: seq<Key>)
    ensures FirstDistinct(keys, 0) == Elements(keys)
  {
    if keys != [] {
      UnlimitedKeys(keys[..|keys| - 1]);
      assert keys == keys[..|keys| - 1] + [keys[|keys| - 1]];
    }
  }

  /** Without LIMIT every candidate's row is delivered, and nothing else. */
  lemma DeliveredRows(cands: seq<S.Candidate>, distinct: bool, desc: seq<bool>, rows: seq<seq<S.Value>>, k: nat)
    returns (i: nat)
    requires S.Delivers(cands, distinct, desc, None, rows) && k < |cands|
    ensures i < |rows| && rows[i] == cands[k].row
  {
    var perm :| S.Arranged(cands, distinct, desc, perm) && rows == S.Take(S.Shown(cands, perm), None);
    i := ArrangedCovers(cands, distinct, desc, perm, k);
  }

  lemma {:induction false} ArrangedCovers(cands: seq<S.Candidate>, distinct: bool, desc: seq<bool>, perm: seq<nat>, k: nat)
    returns (i: nat)
    requires S.Arranged(cands, distinct, desc, perm) && k < |cands|
    ensures i < |perm| && perm[i] < |cands| && cands[perm[i]].row == cands[k].row
  {
    hide S.KeyLeq;
    if distinct {
      assert S.RowShown(cands, perm, cands[k].row);
      var j :| 0 <= j < |perm| && cands[perm[j]].row == cands[k].row;
      i := j;
    } else {
      Pigeonhole(perm, |cands|, k);
      hide Distinct;
      i :| 0 <= i < |perm| && perm[i] == k;
    }
  }

  /** Simple selectors show the same set of values. */
  lemma ValuesAgree(q: Query, db: Db, stmts: seq<Statement>, rows: seq<seq<S.Value>>, objs: seq<Obj>,
                    r: Result<EvalResult, EvalError>)
    requires Plain(q, stmts) && Stored(db, stmts)
    requires q.selector.SimpleSelector? && q.selector.sel != "counter"
    requires Means(q, db, rows) && CompileQueryRowSelector(q).Ok? && ScanAll(CompileQueryRowSelector(q).value, rows, objs)
    requires forall i :: 0 <= i < |Passing(q, stmts)| ==> Passing(q, stmts)[i] < |stmts|
    requires ValuesOutcome(q, q.selector.sel, stmts, r)
    ensures forall o :: o in objs <==> exists k :: k in r.value.vals && KeyObj(k, stmts) == o
  {
    var sel := q.selector.sel;
    var at := Passing(q, stmts);
    var keys := KeysAt(sel, stmts, at);
    var vals := r.value.vals;
    var recs := Universe(db, HasIndex(q));
    UnlimitedKeys(keys);
    ChosenArePassing(q, db, stmts);
    SelectedAreChosen(q, recs);
    forall o | o in objs ensures exists k :: k in vals && KeyObj(k, stmts) == o {
      var i :| 0 <= i < |objs| && objs[i] == o;
      var j := DeliveredRow(Selected(q, recs), DistinctSelector(q.selector), OrderDirs(q.order), None, rows, i);
      ScanReadsSelector(q, Chosen(q, recs)[j]);
      KeyIsField(sel, db, stmts, at[j]);
      assert keys[j] in Elements(keys);
      assert keys[j] in Elements(vals);
    }
    forall k | k in vals ensures KeyObj(k, stmts) in objs {
      assert k in Elements(vals);
      var j :| 0 <= j < |keys| && keys[j] == k;
      var i := DeliveredRows(Selected(q, recs), DistinctSelector(q.selector), OrderDirs(q.order), rows, j);
      ScanReadsSelector(q, Chosen(q, recs)[j]);
      KeyIsField(sel, db, stmts, at[j]);
      assert objs[i] in objs;
    }
  }

  /** `a` lists the values of `b` in some order. */
  ghost predicate Rearranges<T>(a: seq<T>, b: seq<T>) {
    exists perm: seq<nat> ::
      && |perm| == |b| && Distinct(perm)
      && (forall i :: 0 <= i < |perm| ==> perm[i] < |b|)
      && a == Pick(b, perm)
  }

  /** The objects of a compound result. */
  function CompoundObjs(objs: seq<map<string, Key>>, stmts: seq<Statement>): seq<Obj> {
    seq(|objs|, i requires 0 <= i < |objs| => MapObj(map sel | sel in objs[i] :: KeyObj(objs[i][sel], stmts)))
  }

  lemma CompoundObjAgrees(q: Query, db: Db, stmts: seq<Statement>, at: nat)
    requires Stored(db, stmts) && at < |stmts| && WellFormed(q) && q.selector.CompoundSelector?
    requires "counter" !in q.selector.sels
    ensures var o := ObjectOf(q.selector.sels, at, stmts[at]);
      MapObj(map sel | sel in o :: KeyObj(o[sel], stmts)) == ObjectFor(q.selector, Entries(db.stmts, db.envs)[at])
  {
    var sels := q.selector.sels;
    var o := ObjectOf(sels, at, stmts[at]);
    var rec := Entries(db.stmts, db.envs)[at];
    var l := map sel | sel in o :: KeyObj(o[sel], stmts);
    forall sel | sel in sels ensures KeyObj(o[sel], stmts) == FieldObj(sel, rec) {
      KeyIsField(sel, db, stmts, at);
    }
    hide KeyOf, KeyObj, FieldObj;
    assert l == FieldMap(sels, rec);
  }

  /** Compound selectors with no DISTINCT show the same objects, as many times. */
  lemma CompoundsAgree(q: Query, db: Db, stmts: seq<Statement>, rows: seq<seq<S.Value>>, objs: seq<Obj>,
                       r: Result<EvalResult, EvalError>)
    requires Plain(q, stmts) && Stored(db, stmts)
    requires q.selector.CompoundSelector? && "counter" !in q.selector.sels && !DistinctSelector(q.selector)
    requires Means(q, db, rows) && CompileQueryRowSelector(q).Ok? && ScanAll(CompileQueryRowSelector(q).value, rows, objs)
    requires ObjectsOutcome(q, q.selector.sels, stmts, r)
    ensures Rearranges(objs, CompoundObjs(r.value.objs, stmts))
  {
    var at := Passing(q, stmts);
    var cands := Selected(q, Universe(db, HasIndex(q)));
    var evals := CompoundObjs(r.value.objs, stmts);
    CandidatesAt(q, db, stmts);
    forall k | 0 <= k < |at|
      ensures Scan(CompileQueryRowSelector(q).value, cands[k].row) == Ok(evals[k])
    {
      ScanReadsSelector(q, Entries(db.stmts, db.envs)[at[k]]);
      CompoundObjAgrees(q, db, stmts, at[k]);
    }
    hide Selected, Universe, CompoundObjs, Scan, CompileQueryRowSelector, Passing, Plain, Stored, ObjectOf, RowFor, Entries;
    var perm :| S.Arranged(cands, false, OrderDirs(q.order), perm) && rows == S.Take(S.Shown(cands, perm), None);
    forall i | 0 <= i < |objs| ensures objs[i] == evals[perm[i]] {
      assert rows[i] == cands[perm[i]].row;
    }
    assert |evals| == |at| by { EvalCount(r.value.objs, stmts); }
    assert objs == Pick(evals, perm);
  }

  lemma EvalCount(objs: seq<map<string, Key>>, stmts: seq<Statement>)
    ensures |CompoundObjs(objs, stmts)| == |objs|
  {
  }

  /** The candidates are the rows of the passing statements. */
  lemma CandidatesAt(q: Query, db: Db, stmts: seq<Statement>)
    requires Plain(q, stmts) && Stored(db, stmts)
    ensures var cands := Selected(q, Universe(db, HasIndex(q)));
      && |cands| == |Passing(q, stmts)|
      && (forall i :: 0 <= i < |cands| ==> Passing(q, stmts)[i] < |stmts|)
      && (forall i :: 0 <= i < |cands| ==>
            cands[i].row == RowFor(q.selector, Entries(db.stmts, db.envs)[Passing(q, stmts)[i]]))
  {
    ChosenArePassing(q, db, stmts);
    SelectedAreChosen(q, Universe(db, HasIndex(q)));
  }

  // ---- Aggregates ----

  /** What a COUNT or MIN/MAX ranges over, on both sides. */
  lemma ArgumentsAt(q: Query, db: Db, stmts: seq<Statement>)
    requires Plain(q, stmts) && Stored(db, stmts) && q.selector.FunctionSelector?
    ensures var at := Passing(q, stmts);
      var vals := S.FirstValues(Selected(q, Universe(db, HasIndex(q))));
      && |vals| == |at|
      && (forall i :: 0 <= i < |at| ==> at[i] < |stmts|)
      && (forall i :: 0 <= i < |at| ==> vals[i] == ArgumentValue(q.selector.arg, Entries(db.stmts, db.envs)[at[i]]))
  {
    CandidatesAt(q, db, stmts);
  }

  function ArgumentValue(arg: string, rec: Rec): S.Value {
    if arg in {"*", "body"} then S.Int(1) else FieldValue(arg, rec)
  }

  lemma SameValueSameKey(arg: string, db: Db, stmts: seq<Statement>, i: nat, j: nat)
    requires Stored(db, stmts) && i < |stmts| && j < |stmts|
    requires DistinctName(arg)
    ensures var e := Entries(db.stmts, db.envs);
      ArgumentValue(arg, e[i]) == ArgumentValue(arg, e[j]) <==> KeyOf(arg, i, stmts[i]) == KeyOf(arg, j, stmts[j])
  {
  }

  lemma DifferentKeys(arg: string, db: Db, stmts: seq<Statement>, i: nat, j: nat)
    requires Stored(db, stmts) && i < |stmts| && j < |stmts| && i != j
    requires arg in {"*", "body", "id"}
    ensures KeyOf(arg, i, stmts[i]) != KeyOf(arg, j, stmts[j])
  {
    assert db.stmts[i].id != db.stmts[j].id by {
      if i < j { assert db.stmts[i].id != db.stmts[j].id; } else { assert db.stmts[j].id != db.stmts[i].id; }
    }
  }

  lemma CountReads(n: int)
    ensures Scan(RowInt, [S.Int(n)]) == Ok(IntObj(n))
  {
  }

  /** COUNT of anything but `timestamp` and `counter` is the same number. */
  lemma CountsAgree(q: Query, db: Db, stmts: seq<Statement>, rows: seq<seq<S.Value>>, r: Result<EvalResult, EvalError>)
    requires Plain(q, stmts) && Stored(db, stmts)
    requires q.selector.FunctionSelector? && q.selector.fn == "COUNT" && q.selector.arg !in {"timestamp", "counter"}
    requires Means(q, db, rows)
    requires forall i :: 0 <= i < |Passing(q, stmts)| ==> Passing(q, stmts)[i] < |stmts|
    requires FunctionOutcome("COUNT", FirstDistinct(KeysAt(q.selector.arg, stmts, Passing(q, stmts)), q.limit), r)
    ensures exists n :: rows == [[S.Int(n)]] && r == Ok(Values([Untyped(n)])) && Scan(RowInt, rows[0]) == Ok(IntObj(n))
    ensures CompileQueryRowSelector(q) == Ok(RowInt)
  {
    var arg := q.selector.arg;
    var at := Passing(q, stmts);
    var keys := KeysAt(arg, stmts, at);
    var vals := S.FirstValues(Selected(q, Universe(db, HasIndex(q))));
    UnlimitedKeys(keys);
    PassingIs(q, stmts);
    ArgumentsAt(q, db, stmts);
    assert SimpleName(arg);
    assert CompileQueryRowSelector(q) == Ok(RowInt);
    var n := if DistinctName(arg) then |Elements(vals)| else |vals|;
    assert rows == [[S.Int(n)]];
    CountReads(n);
    hide Scan, CompileQueryRowSelector, Passing, Selected, Universe, KeyOf, FieldValue, ArgumentValue, Plain, Stored, Entries;
    if DistinctName(arg) {
      forall i, j | 0 <= i < j < |at| ensures vals[i] == vals[j] <==> keys[i] == keys[j] {
        SameValueSameKey(arg, db, stmts, at[i], at[j]);
      }
      SameRepeats(vals, keys);
    } else {
      forall i, j | 0 <= i < j < |at| ensures keys[i] != keys[j] {
        DifferentKeys(arg, db, stmts, at[i], at[j]);
      }
      DistinctCount(keys);
    }
  }

  lemma {:induction false} ExtremeOfInts(vals: seq<S.Value>, greatest: bool)
    requires forall i :: 0 <= i < |vals| ==> vals[i].Int?
    ensures vals == [] ==> S.Extreme(vals, greatest) == S.Null
    ensures vals != [] ==> S.Extreme(vals, greatest) in vals && S.Extreme(vals, greatest).Int?
    ensures forall i :: 0 <= i < |vals| ==>
              if greatest then vals[i].i <= S.Extreme(vals, greatest).i else S.Extreme(vals, greatest).i <= vals[i].i
  {
    if vals != [] {
      ExtremeOfInts(vals[1..], greatest);
      forall i | 0 <= i < |vals| ensures vals[i] == vals[0] || (i > 0 && vals[i] == vals[1..][i - 1]) {
      }
    }
  }

  /** MIN and MAX of `timestamp` are the same number, 0 when nothing is selected. */
  lemma ExtremesAgree(q: Query, db: Db, stmts: seq<Statement>, rows: seq<seq<S.Value>>, r: Result<EvalResult, EvalError>)
    requires Plain(q, stmts) && Stored(db, stmts)
    requires q.selector.FunctionSelector? && q.selector.fn in {"MIN", "MAX"} && q.selector.arg == "timestamp"
    requires Means(q, db, rows)
    requires forall i :: 0 <= i < |Passing(q, stmts)| ==> Passing(q, stmts)[i] < |stmts|
    requires FunctionOutcome(q.selector.fn, FirstDistinct(KeysAt("timestamp", stmts, Passing(q, stmts)), q.limit), r)
    ensures |rows| == 1 && r.Ok? && r.value.Values? && |r.value.vals| == 1
    ensures CompileQueryRowSelector(q) == Ok(RowNullInt64)
    ensures Scan(RowNullInt64, rows[0]) == Ok(KeyObj(r.value.vals[0], stmts))
  {
    var keys := KeysAt("timestamp", stmts, Passing(q, stmts));
    var vals := S.FirstValues(Selected(q, Universe(db, HasIndex(q))));
    TimestampsAt(q, db, stmts);
    assert rows == [[S.Extreme(vals, q.selector.fn == "MAX")]];
    hide Passing, Selected, Universe, KeysAt, Plain, Stored, Means, S.Extreme, S.FirstValues, WellFormed, FunctionOutcome;
    ExtremeResult(vals, keys, q.selector.fn, r, stmts);
  }

  lemma {:induction false} ExtremeResult(vals: seq<S.Value>, keys: seq<Key>, fn: string, r: Result<EvalResult, EvalError>, stmts: seq<Statement>)
    requires |vals| == |keys| && fn in {"MIN", "MAX"}
    requires forall i :: 0 <= i < |keys| ==> keys[i].Num? && vals[i] == S.Int(keys[i].i)
    requires FunctionOutcome(fn, FirstDistinct(keys, 0), r)
    ensures r.Ok? && r.value.Values? && |r.value.vals| == 1
    ensures ScanValue(RowNullInt64, S.Extreme(vals, fn == "MAX")) == Ok(KeyObj(r.value.vals[0], stmts))
  {
    UnlimitedKeys(keys);
    hide FirstDistinct, S.Extreme;
    ExtremeOfInts(vals, fn == "MAX");
    if keys == [] {
      assert Elements(keys) == {};
    } else {
      assert keys[0] in Elements(keys);
      ExtremeKey(vals, keys, fn == "MAX", r.value.vals[0]);
    }
  }

  lemma TimestampsAt(q: Query, db: Db, stmts: seq<Statement>)
    requires Plain(q, stmts) && Stored(db, stmts) && q.selector.FunctionSelector? && q.selector.arg == "timestamp"
    requires forall i :: 0 <= i < |Passing(q, stmts)| ==> Passing(q, stmts)[i] < |stmts|
    ensures var keys := KeysAt("timestamp", stmts, Passing(q, stmts));
      var vals := S.FirstValues(Selected(q, Universe(db, HasIndex(q))));
      |vals| == |keys| && forall i :: 0 <= i < |keys| ==> keys[i].Num? && vals[i] == S.Int(keys[i].i)
  {
    ArgumentsAt(q, db, stmts);
    hide Passing, Selected, Universe, Plain, S.FirstValues;
  }

  /** The extreme value of a column is the extreme of the equal set of keys. */
  lemma {:induction false} ExtremeKey(vals: seq<S.Value>, keys: seq<Key>, greatest: bool, k: Key)
    requires |vals| == |keys| > 0
    requires forall i :: 0 <= i < |keys| ==> keys[i].Num? && vals[i] == S.Int(keys[i].i)
    requires k in Elements(keys)
    requires forall x :: x in Elements(keys) ==> if greatest then x.i <= k.i else k.i <= x.i
    ensures k.Num? && S.Extreme(vals, greatest) == S.Int(k.i)
  {
    ExtremeOfInts(vals, greatest);
    var v := S.Extreme(vals, greatest);
    var i :| 0 <= i < |keys| && keys[i] == k;
    var j :| 0 <= j < |vals| && vals[j] == v;
    assert keys[j] in Elements(keys);
  }
}
