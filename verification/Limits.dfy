/** What ORDER BY and LIMIT can keep and what they can cut: which rows some allowed answer
    contains, and which some allowed answer leaves out. */
module Limits {
  import opened Std
  import opened Sql

  // ---- Sort keys are totally ordered ----

  /** Keys of the same columns: texts against texts and numbers against numbers. */
  predicate Uniform(a: seq<Value>, b: seq<Value>) {
    |a| == |b| && forall i :: 0 <= i < |a| ==> (a[i].Int? && b[i].Int?) || (a[i].Text? && b[i].Text?)
  }

  predicate AllUniform(cands: seq<Candidate>) {
    forall i, j :: 0 <= i < |cands| && 0 <= j < |cands| ==> Uniform(cands[i].keys, cands[j].keys)
  }

  lemma {:induction false} TextTotal(a: string, b: string)
    ensures a == b || TextLess(a, b) || TextLess(b, a)
    ensures !(TextLess(a, b) && TextLess(b, a)) && !TextLess(a, a)
  {
    if a != "" && b != "" && a[0] == b[0] {
      TextTotal(a[1..], b[1..]);
      assert a == [a[0]] + a[1..] && b == [b[0]] + b[1..];
    }
    if a != "" { TextSelf(a[1..]); }
  }

  lemma {:induction false} TextSelf(a: string)
    ensures !TextLess(a, a)
  {
    if a != "" { TextSelf(a[1..]); }
  }

  lemma {:induction false} TextTransitive(a: string, b: string, c: string)
    requires TextLess(a, b) && TextLess(b, c)
    ensures TextLess(a, c)
  {
    if a != "" && a[0] == b[0] && b[0] == c[0] { TextTransitive(a[1..], b[1..], c[1..]); }
  }

  lemma {:induction false} KeysTotal(desc: seq<bool>, a: seq<Value>, b: seq<Value>)
    requires Uniform(a, b)
    ensures KeyLeq(desc, a, b) || KeyLeq(desc, b, a)
    decreases |desc|
  {
    if desc != [] && a != [] {
      if a[0].Text? { TextTotal(a[0].s, b[0].s); }
      assert Uniform(a[1..], b[1..]);
      KeysTotal(desc[1..], a[1..], b[1..]);
    }
  }

  lemma {:induction false} KeysTransitive(desc: seq<bool>, a: seq<Value>, b: seq<Value>, c: seq<Value>)
    requires Uniform(a, b) && Uniform(b, c) && KeyLeq(desc, a, b) && KeyLeq(desc, b, c)
    ensures KeyLeq(desc, a, c)
    decreases |desc|
  {
    if desc != [] && a != [] {
      if a[0].Text? && TextLess(a[0].s, b[0].s) && TextLess(b[0].s, c[0].s) { TextTransitive(a[0].s, b[0].s, c[0].s); }
      if a[0].Text? && TextLess(c[0].s, b[0].s) && TextLess(b[0].s, a[0].s) { TextTransitive(c[0].s, b[0].s, a[0].s); }
      if a[0] == b[0] == c[0] && KeyLeq(desc[1..], a[1..], b[1..]) && KeyLeq(desc[1..], b[1..], c[1..]) {
        assert Uniform(a[1..], b[1..]) && Uniform(b[1..], c[1..]);
        KeysTransitive(desc[1..], a[1..], b[1..], c[1..]);
      }
    }
  }

  /** One value strictly before another, in a direction. */
  predicate Strictly(desc: bool, a: Value, b: Value) {
    match (a, b)
    case (Int(x), Int(y)) => if desc then y < x else x < y
    case (Text(x), Text(y)) => if desc then AlphabeticallyBefore(y, x) else AlphabeticallyBefore(x, y)
    case _ => false
  }

  /** `a` is a proper beginning of `b`, or has the smaller character where they first differ. */
  predicate AlphabeticallyBefore(a: string, b: string) {
    a < b || exists i :: 0 <= i < |a| && i < |b| && a[..i] == b[..i] && a[i] < b[i]
  }

  lemma {:induction false} TextIsAlphabetical(a: string, b: string)
    ensures TextLess(a, b) <==> AlphabeticallyBefore(a, b)
  {
    if a != "" && b != "" {
      var x, y := a[1..], b[1..];
      if a[0] == b[0] {
        TextIsAlphabetical(x, y);
        assert a < b <==> x < y;
        if i :| 0 <= i < |x| && i < |y| && x[..i] == y[..i] && x[i] < y[i] {
          assert a[..i + 1] == [a[0]] + x[..i] && b[..i + 1] == [b[0]] + y[..i];
          assert a[i + 1] < b[i + 1];
        }
        if i :| 0 <= i < |a| && i < |b| && a[..i] == b[..i] && a[i] < b[i] {
          assert i > 0;
          assert x[..i - 1] == a[..i][1..] && y[..i - 1] == b[..i][1..];
          assert x[i - 1] < y[i - 1];
        }
      } else {
        assert a[..0] == b[..0];
        forall i | 0 < i < |a| && i < |b| ensures a[..i] != b[..i] { assert a[..i][0] != b[..i][0]; }
      }
    }
  }

  /** ORDER BY compares the first column in which two rows differ, in that column's direction. */
  lemma {:induction false} SortIsLexicographic(desc: seq<bool>, a: seq<Value>, b: seq<Value>)
    requires Uniform(a, b) && |desc| == |a|
    ensures KeyLeq(desc, a, b) <==>
      a == b || exists i :: 0 <= i < |a| && a[..i] == b[..i] && Strictly(desc[i], a[i], b[i])
    decreases |desc|
  {
    if a != [] {
      var ds, x, y := desc[1..], a[1..], b[1..];
      assert Uniform(x, y);
      SortIsLexicographic(ds, x, y);
      if a[0].Text? {
        TextIsAlphabetical(a[0].s, b[0].s);
        TextIsAlphabetical(b[0].s, a[0].s);
      }
      assert a == [a[0]] + x && b == [b[0]] + y;
      hide AlphabeticallyBefore, TextLess, Uniform;
      assert a[..0] == b[..0];
      FirstDifference(desc, a, b);
    }
  }

  lemma {:induction false} FirstDifference(desc: seq<bool>, a: seq<Value>, b: seq<Value>)
    requires |desc| == |a| == |b| && a != []
    ensures (exists i :: 0 <= i < |a| && a[..i] == b[..i] && Strictly(desc[i], a[i], b[i]))
      <==> Strictly(desc[0], a[0], b[0])
           || (a[0] == b[0] && exists i :: 0 <= i < |a[1..]| && a[1..][..i] == b[1..][..i] && Strictly(desc[1..][i], a[1..][i], b[1..][i]))
  {
    hide Strictly;
    if i :| 0 <= i < |a[1..]| && a[1..][..i] == b[1..][..i] && Strictly(desc[1..][i], a[1..][i], b[1..][i]) && a[0] == b[0] {
      assert a[..i + 1] == [a[0]] + a[1..][..i] && b[..i + 1] == [b[0]] + b[1..][..i];
      assert Strictly(desc[i + 1], a[i + 1], b[i + 1]);
    }
    if i :| 0 < i < |a| && a[..i] == b[..i] && Strictly(desc[i], a[i], b[i]) {
      assert a[0] == a[..i][0] == b[..i][0] == b[0];
      assert a[1..][..i - 1] == a[..i][1..] && b[1..][..i - 1] == b[..i][1..];
      assert Strictly(desc[1..][i - 1], a[1..][i - 1], b[1..][i - 1]);
    }
    if Strictly(desc[0], a[0], b[0]) { assert a[..0] == b[..0]; }
  }

  // ---- Any set of candidates can be listed in order ----

  /** Candidate `i` may come before candidate `j`. */
  predicate Before(cands: seq<Candidate>, desc: seq<bool>, i: nat, j: nat) {
    i < |cands| && j < |cands| && KeyLeq(desc, cands[i].keys, cands[j].keys)
  }

  lemma BeforeTotal(cands: seq<Candidate>, desc: seq<bool>, i: nat, j: nat)
    requires AllUniform(cands) && i < |cands| && j < |cands|
    ensures Before(cands, desc, i, j) || Before(cands, desc, j, i)
  {
    KeysTotal(desc, cands[i].keys, cands[j].keys);
  }

  lemma BeforeTransitive(cands: seq<Candidate>, desc: seq<bool>, i: nat, j: nat, k: nat)
    requires AllUniform(cands) && Before(cands, desc, i, j) && Before(cands, desc, j, k)
    ensures Before(cands, desc, i, k)
  {
    KeysTransitive(desc, cands[i].keys, cands[j].keys, cands[k].keys);
  }

  ghost predicate Ordered(cands: seq<Candidate>, desc: seq<bool>, perm: seq<nat>) {
    forall i, j :: 0 <= i < j < |perm| ==> Before(cands, desc, perm[i], perm[j])
  }

  /** A sorted listing with one more put where it belongs. */
  lemma {:induction false} InsertOne(cands: seq<Candidate>, desc: seq<bool>, k: nat, perm: seq<nat>) returns (more: seq<nat>)
    requires AllUniform(cands) && k < |cands| && k !in perm && (forall i :: 0 <= i < |perm| ==> perm[i] < |cands|)
    requires Distinct(perm) && Ordered(cands, desc, perm)
    ensures Distinct(more) && Ordered(cands, desc, more)
    ensures forall x :: x in more <==> x in perm || x == k
  {
    hide AllUniform, Before;
    if perm == [] {
      more := [k];
    } else if Before(cands, desc, k, perm[0]) {
      more := [k] + perm;
      forall j | 0 <= j < |perm| ensures Before(cands, desc, k, perm[j]) {
        if j > 0 { BeforeTransitive(cands, desc, k, perm[0], perm[j]); }
      }
    } else {
      BeforeTotal(cands, desc, k, perm[0]);
      var rest := InsertOne(cands, desc, k, perm[1..]);
      assert perm == [perm[0]] + perm[1..];
      assert perm[0] !in perm[1..];
      more := [perm[0]] + rest;
      forall j | 0 <= j < |rest| ensures Before(cands, desc, perm[0], rest[j]) && rest[j] != perm[0] {
        assert rest[j] in rest;
        if rest[j] != k {
          var m :| 0 <= m < |perm[1..]| && perm[1..][m] == rest[j];
          assert perm[m + 1] == rest[j];
        }
      }
    }
  }

  lemma {:induction false} SortedListing(cands: seq<Candidate>, desc: seq<bool>, from: set<nat>) returns (perm: seq<nat>)
    requires AllUniform(cands) && forall j :: j in from ==> j < |cands|
    ensures Distinct(perm) && Ordered(cands, desc, perm) && |perm| == |from|
    ensures forall j :: j in perm <==> j in from
    decreases |from|
  {
    hide AllUniform, Before;
    if from == {} {
      perm := [];
    } else {
      var k :| k in from;
      var rest := SortedListing(cands, desc, from - {k});
      forall i | 0 <= i < |rest| ensures rest[i] < |cands| { assert rest[i] in rest; }
      perm := InsertOne(cands, desc, k, rest);
      DistinctCount(perm);
      assert Elements(perm) == from;
    }
  }

  /** Two sorted listings around one candidate, the first before it and the second after it. */
  lemma {:induction false} OrderedAround(cands: seq<Candidate>, desc: seq<bool>, first: seq<nat>, k: nat, last: seq<nat>)
    requires AllUniform(cands) && Ordered(cands, desc, first) && Ordered(cands, desc, last)
    requires forall i :: 0 <= i < |first| ==> Before(cands, desc, first[i], k)
    requires forall i :: 0 <= i < |last| ==> Before(cands, desc, k, last[i])
    ensures Ordered(cands, desc, first + [k] + last)
  {
    hide AllUniform, Before;
    var perm := first + [k] + last;
    forall i, j | 0 <= i < j < |perm| ensures Before(cands, desc, perm[i], perm[j]) {
      if i < |first| < j {
        BeforeTransitive(cands, desc, first[i], k, last[j - |first| - 1]);
      }
    }
  }

  // ---- Without DISTINCT ----

  /** The candidates that must come before `k`. */
  ghost function Ahead(cands: seq<Candidate>, desc: seq<bool>, k: nat): set<nat> {
    set j: nat | j < |cands| && !Before(cands, desc, k, j)
  }

  /** What a LIMIT keeps has fewer candidates ahead of it. */
  lemma {:induction false} KeptHasFewAhead(cands: seq<Candidate>, desc: seq<bool>, limit: nat, rows: seq<seq<Value>>, i: nat)
    returns (k: nat)
    requires Delivers(cands, false, desc, Some(limit), rows) && i < |rows|
    ensures k < |cands| && rows[i] == cands[k].row && |Ahead(cands, desc, k)| < limit
  {
    var perm :| Arranged(cands, false, desc, perm) && rows == Take(Shown(cands, perm), Some(limit));
    k := perm[i];
    assert rows[i] == cands[k].row && i < limit;
    AheadComesFirst(cands, desc, perm, i);
  }

  lemma {:induction false} AheadComesFirst(cands: seq<Candidate>, desc: seq<bool>, perm: seq<nat>, i: nat)
    requires Arranged(cands, false, desc, perm) && i < |perm|
    ensures |Ahead(cands, desc, perm[i])| <= i
  {
    var k, front := perm[i], Elements(perm[..i]);
    ElementsCount(perm[..i]);
    KeyReflexive(desc, cands[k].keys);
    hide KeyLeq;
    forall j | j in Ahead(cands, desc, k) ensures j in front {
      Pigeonhole(perm, |cands|, j);
      var p :| 0 <= p < |perm| && perm[p] == j;
      assert p < i;
      assert perm[..i][p] == j;
    }
    SubsetSize(Ahead(cands, desc, k), front);
  }

  lemma {:induction false} KeyReflexive(desc: seq<bool>, a: seq<Value>)
    ensures KeyLeq(desc, a, a)
    decreases |desc|
  {
    if desc != [] && a != [] { KeyReflexive(desc[1..], a[1..]); }
  }

  lemma SubsetSize<T>(a: set<T>, b: set<T>)
    requires a <= b
    ensures |a| <= |b|
  {
    assert b == a + (b - a);
  }

  /** A candidate with fewer than LIMIT ahead of it can be kept. */
  lemma {:induction false} CanBeKept(cands: seq<Candidate>, desc: seq<bool>, k: nat, limit: nat) returns (rows: seq<seq<Value>>)
    requires AllUniform(cands) && k < |cands| && |Ahead(cands, desc, k)| < limit
    ensures Delivers(cands, false, desc, Some(limit), rows) && cands[k].row in rows
  {
    var ahead := Ahead(cands, desc, k);
    var behind := set j: nat | j < |cands| && j != k && Before(cands, desc, k, j);
    KeyReflexive(desc, cands[k].keys);
    assert k !in ahead;
    var first := SortedListing(cands, desc, ahead);
    var last := SortedListing(cands, desc, behind);
    forall i | 0 <= i < |first| ensures Before(cands, desc, first[i], k) {
      assert first[i] in ahead;
      BeforeTotal(cands, desc, k, first[i]);
    }
    forall i | 0 <= i < |last| ensures Before(cands, desc, k, last[i]) { assert last[i] in behind; }
    var perm := first + [k] + last;
    OrderedAround(cands, desc, first, k, last);
    AroundDistinct(first, k, last);
    forall j: nat | j < |cands| ensures j in perm { assert j in first || j == k || j in last; }
    forall i | 0 <= i < |perm| ensures perm[i] < |cands| { assert perm[i] in first || perm[i] == k || perm[i] in last; }
    CountAll(perm, |cands|);
    rows := KeptRows(cands, desc, perm, |first|, limit);
  }

  lemma {:induction false} AroundDistinct(first: seq<nat>, k: nat, last: seq<nat>)
    requires Distinct(first) && Distinct(last) && k !in first && k !in last && forall j :: j in first ==> j !in last
    ensures Distinct(first + [k] + last)
  {
    var perm := first + [k] + last;
    forall i, j | 0 <= i < j < |perm| ensures perm[i] != perm[j] {
      if i < |first| {
        assert perm[i] in first;
        if j > |first| { assert perm[j] in last; }
      } else if i == |first| {
        assert perm[j] in last;
      }
    }
  }

  /** A listing without repeats of all indices below n has n of them. */
  lemma {:induction false} CountAll(perm: seq<nat>, n: nat)
    requires Distinct(perm) && (forall i :: 0 <= i < |perm| ==> perm[i] < n) && forall j: nat :: j < n ==> j in perm
    ensures |perm| == n
  {
    Below(n);
    DistinctCount(perm);
    assert Elements(perm) == UpTo(n);
  }

  lemma {:induction false} KeptRows(cands: seq<Candidate>, desc: seq<bool>, perm: seq<nat>, at: nat, limit: nat) returns (rows: seq<seq<Value>>)
    requires Distinct(perm) && |perm| == |cands| && Ordered(cands, desc, perm) && at < |perm| && at < limit
    requires forall i :: 0 <= i < |perm| ==> perm[i] < |cands|
    ensures Delivers(cands, false, desc, Some(limit), rows) && cands[perm[at]].row in rows
  {
    OrderedKeys(cands, desc, perm);
    hide KeyLeq;
    assert Arranged(cands, false, desc, perm);
    rows := Take(Shown(cands, perm), Some(limit));
    assert rows[at] == cands[perm[at]].row;
  }

  // ---- With DISTINCT ----

  /** The other rows that can come before the row of `k`. */
  ghost function Rivals(cands: seq<Candidate>, desc: seq<bool>, k: nat): set<seq<Value>>
    requires k < |cands|
  {
    set j: nat | j < |cands| && cands[j].row != cands[k].row && Before(cands, desc, j, k) :: cands[j].row
  }

  lemma RivalRow(cands: seq<Candidate>, desc: seq<bool>, k: nat, j: nat)
    requires k < |cands| && j < |cands| && cands[j].row != cands[k].row
    ensures Before(cands, desc, j, k) ==> cands[j].row in Rivals(cands, desc, k)
  {
  }

  /** The candidates whose rows can only come after the row of `k`. */
  ghost function Others(cands: seq<Candidate>, desc: seq<bool>, k: nat): set<nat>
    requires k < |cands|
  {
    set j: nat | j < |cands| && cands[j].row != cands[k].row && cands[j].row !in Rivals(cands, desc, k)
  }

  /** A row that a LIMIT cut has at least that many rivals. */
  lemma {:induction false} CutHasRivals(cands: seq<Candidate>, desc: seq<bool>, limit: nat, rows: seq<seq<Value>>, j: nat)
    returns (k: nat)
    requires Delivers(cands, true, desc, Some(limit), rows) && j < |cands| && cands[j].row !in rows
    ensures k < |cands| && cands[k].row == cands[j].row && |Rivals(cands, desc, k)| >= limit
  {
    var perm :| Arranged(cands, true, desc, perm) && rows == Take(Shown(cands, perm), Some(limit));
    hide KeyLeq, Distinct;
    assert RowShown(cands, perm, cands[j].row);
    var p :| 0 <= p < |perm| && cands[perm[p]].row == cands[j].row;
    k := perm[p];
    assert forall i :: 0 <= i < |rows| ==> rows[i] == cands[perm[i]].row;
    RivalsComeFirst(cands, desc, perm, p, limit);
  }

  lemma {:induction false} RivalsComeFirst(cands: seq<Candidate>, desc: seq<bool>, perm: seq<nat>, p: nat, limit: nat)
    requires Arranged(cands, true, desc, perm) && limit <= p < |perm|
    ensures |Rivals(cands, desc, perm[p])| >= limit
  {
    hide KeyLeq, RowShown, EveryRowShown;
    var front := seq(limit, i requires 0 <= i < limit => cands[perm[i]].row);
    DistinctCount(front);
    forall i | 0 <= i < limit ensures front[i] in Rivals(cands, desc, perm[p]) {
      assert Before(cands, desc, perm[i], perm[p]);
    }
    SubsetSize(Elements(front), Rivals(cands, desc, perm[p]));
  }

  ghost function RowSet(cands: seq<Candidate>, from: set<nat>): set<seq<Value>> {
    set j | j in from && j < |cands| :: cands[j].row
  }

  ghost predicate OneEach(cands: seq<Candidate>, chosen: set<nat>) {
    forall i, j :: i in chosen && j in chosen && i < |cands| && j < |cands| && i != j ==> cands[i].row != cands[j].row
  }

  lemma {:induction false} RowSetMore(cands: seq<Candidate>, from: set<nat>, k: nat)
    requires k < |cands|
    ensures RowSet(cands, from + {k}) == RowSet(cands, from) + {cands[k].row}
  {
    forall row ensures row in RowSet(cands, from + {k}) <==> row in RowSet(cands, from) || row == cands[k].row {
      if row in RowSet(cands, from) {
        var j :| j in from && j < |cands| && cands[j].row == row;
        assert j in from + {k};
      }
      if row == cands[k].row { assert k in from + {k}; }
    }
  }

  lemma OneEachMore(cands: seq<Candidate>, chosen: set<nat>, k: nat)
    requires OneEach(cands, chosen) && k < |cands| && cands[k].row !in RowSet(cands, chosen)
    ensures OneEach(cands, chosen + {k})
  {
    forall j | j in chosen && j < |cands| ensures cands[j].row != cands[k].row {
      assert cands[j].row in RowSet(cands, chosen);
    }
  }

  /** One candidate for each row among some. */
  lemma {:induction false} ChooseEach(cands: seq<Candidate>, from: set<nat>) returns (chosen: set<nat>)
    requires forall j :: j in from ==> j < |cands|
    ensures chosen <= from && OneEach(cands, chosen)
    ensures RowSet(cands, chosen) == RowSet(cands, from) && |chosen| == |RowSet(cands, from)|
    decreases |from|
  {
    if from == {} {
      chosen := {};
    } else {
      hide RowSet, OneEach;
      var k :| k in from;
      var rest := from - {k};
      assert from == rest + {k};
      var some := ChooseEach(cands, rest);
      RowSetMore(cands, rest, k);
      if cands[k].row in RowSet(cands, rest) {
        assert RowSet(cands, from) == RowSet(cands, rest);
        chosen := some;
      } else {
        RowSetMore(cands, some, k);
        OneEachMore(cands, some, k);
        chosen := some + {k};
      }
    }
  }

  /** A row with at least LIMIT rivals can be cut. */
  lemma {:induction false} CanBeCut(cands: seq<Candidate>, desc: seq<bool>, k: nat, limit: nat) returns (rows: seq<seq<Value>>)
    requires AllUniform(cands) && k < |cands| && |Rivals(cands, desc, k)| >= limit
    ensures Delivers(cands, true, desc, Some(limit), rows) && cands[k].row !in rows
  {
    hide AllUniform, Before;
    var rivals := Rivals(cands, desc, k);
    var near := set j: nat | j < |cands| && cands[j].row != cands[k].row && Before(cands, desc, j, k);
    var far := Others(cands, desc, k);
    assert RowSet(cands, near) == rivals;
    var near' := ChooseEach(cands, near);
    var far' := ChooseEach(cands, far);
    var first := SortedListing(cands, desc, near');
    var last := SortedListing(cands, desc, far');
    forall i | 0 <= i < |first| ensures first[i] < |cands| && Before(cands, desc, first[i], k) && cands[first[i]].row in rivals {
      assert first[i] in near';
    }
    forall i | 0 <= i < |last| ensures Before(cands, desc, k, last[i]) {
      assert last[i] in far';
      RivalRow(cands, desc, k, last[i]);
      BeforeTotal(cands, desc, k, last[i]);
    }
    OrderedAround(cands, desc, first, k, last);
    CutArranged(cands, desc, first, k, last, near', far');
    rows := CutRows(cands, desc, first, k, last, limit);
  }

  lemma OrderedKeys(cands: seq<Candidate>, desc: seq<bool>, perm: seq<nat>)
    requires Ordered(cands, desc, perm) && forall i :: 0 <= i < |perm| ==> perm[i] < |cands|
    ensures forall i, j :: 0 <= i < j < |perm| ==> KeyLeq(desc, cands[perm[i]].keys, cands[perm[j]].keys)
  {
    hide KeyLeq;
    forall i, j | 0 <= i < j < |perm| ensures KeyLeq(desc, cands[perm[i]].keys, cands[perm[j]].keys) {
      assert Before(cands, desc, perm[i], perm[j]);
    }
  }

  lemma {:induction false} CutArranged(cands: seq<Candidate>, desc: seq<bool>, first: seq<nat>, k: nat, last: seq<nat>, near: set<nat>, far: set<nat>)
    requires k < |cands| && Ordered(cands, desc, first + [k] + last) && Distinct(first) && Distinct(last)
    requires (forall j :: j in first <==> j in near) && (forall j :: j in last <==> j in far)
    requires (forall j :: j in near ==> j < |cands|) && (forall j :: j in far ==> j < |cands|)
    requires OneEach(cands, near) && OneEach(cands, far)
    requires RowSet(cands, near) == Rivals(cands, desc, k)
    requires RowSet(cands, far) == RowSet(cands, Others(cands, desc, k))
    ensures Arranged(cands, true, desc, first + [k] + last)
  {
    hide KeyLeq;
    var perm := first + [k] + last;
    forall j | j in near ensures cands[j].row in Rivals(cands, desc, k) { assert cands[j].row in RowSet(cands, near); }
    forall j | j in far ensures cands[j].row !in Rivals(cands, desc, k) && cands[j].row != cands[k].row { assert cands[j].row in RowSet(cands, far); }
    assert forall i :: 0 <= i < |perm| ==> perm[i] < |cands| by {
      forall i | 0 <= i < |perm| ensures perm[i] < |cands| { assert perm[i] in first || perm[i] == k || perm[i] in last; }
    }
    hide Rivals, RowShown, RowSet, OneEach, Others, Ordered;
    RowsApart(cands, first, k, last, near, far, Rivals(cands, desc, k));
    OrderedKeys(cands, desc, perm);
    forall j | 0 <= j < |cands| ensures RowShown(cands, perm, cands[j].row) {
      RowThere(cands, desc, first, k, last, near, far, j);
    }
  }

  ghost predicate DifferentRows(cands: seq<Candidate>, perm: seq<nat>) {
    forall i, j :: 0 <= i < j < |perm| ==> perm[i] < |cands| && perm[j] < |cands| && cands[perm[i]].row != cands[perm[j]].row
  }

  lemma {:induction false} RowsApart(cands: seq<Candidate>, first: seq<nat>, k: nat, last: seq<nat>, near: set<nat>, far: set<nat>, rivals: set<seq<Value>>)
    requires k < |cands| && Distinct(first) && Distinct(last)
    requires (forall j :: j in first <==> j in near) && (forall j :: j in last <==> j in far)
    requires OneEach(cands, near) && OneEach(cands, far)
    requires forall j :: j in near ==> j < |cands| && cands[j].row in rivals && cands[j].row != cands[k].row
    requires forall j :: j in far ==> j < |cands| && cands[j].row !in rivals && cands[j].row != cands[k].row
    ensures Distinct(first + [k] + last)
    ensures DifferentRows(cands, first + [k] + last)
  {
    AroundDistinct(first, k, last);
    hide Distinct;
    var perm := first + [k] + last;
    forall i | 0 <= i < |perm| ensures perm[i] < |cands| && (i < |first| ==> perm[i] in near) && (i > |first| ==> perm[i] in far) {
      if i < |first| { assert perm[i] in first; } else if i > |first| { assert perm[i] in last; }
    }
    forall i, j | 0 <= i < j < |perm| ensures cands[perm[i]].row != cands[perm[j]].row {
      if j < |first| || i > |first| { assert perm[i] != perm[j] by { AroundAt(first, k, last, i, j); } }
    }
  }

  lemma AroundAt(first: seq<nat>, k: nat, last: seq<nat>, i: nat, j: nat)
    requires Distinct(first + [k] + last) && i < j < |first| + 1 + |last|
    ensures (first + [k] + last)[i] != (first + [k] + last)[j]
  {
  }

  lemma {:induction false} RowThere(cands: seq<Candidate>, desc: seq<bool>, first: seq<nat>, k: nat, last: seq<nat>, near: set<nat>, far: set<nat>, j: nat)
    requires k < |cands| && j < |cands|
    requires (forall j :: j in first <==> j in near) && (forall j :: j in last <==> j in far)
    requires RowSet(cands, near) == Rivals(cands, desc, k)
    requires RowSet(cands, far) == RowSet(cands, Others(cands, desc, k))
    requires forall i :: 0 <= i < |first + [k] + last| ==> (first + [k] + last)[i] < |cands|
    ensures RowShown(cands, first + [k] + last, cands[j].row)
  {
    hide Rivals;
    var perm, row := first + [k] + last, cands[j].row;
    if row == cands[k].row {
      assert perm[|first|] == k;
    } else if row in Rivals(cands, desc, k) {
      var m :| m in near && m < |cands| && cands[m].row == row;
      var i :| 0 <= i < |first| && first[i] == m;
      assert perm[i] == m;
    } else {
      assert j in Others(cands, desc, k);
      assert row in RowSet(cands, far);
      var m :| m in far && m < |cands| && cands[m].row == row;
      var i :| 0 <= i < |last| && last[i] == m;
      assert perm[|first| + 1 + i] == m;
    }
  }

  lemma {:induction false} CutRows(cands: seq<Candidate>, desc: seq<bool>, first: seq<nat>, k: nat, last: seq<nat>, limit: nat)
    returns (rows: seq<seq<Value>>)
    requires k < |cands| && limit <= |first| && Arranged(cands, true, desc, first + [k] + last)
    requires forall i :: 0 <= i < |first| ==> first[i] < |cands| && cands[first[i]].row != cands[k].row
    ensures Delivers(cands, true, desc, Some(limit), rows) && cands[k].row !in rows
  {
    hide KeyLeq;
    var perm := first + [k] + last;
    rows := Take(Shown(cands, perm), Some(limit));
    forall i | 0 <= i < |rows| ensures rows[i] != cands[k].row {
      assert perm[i] == first[i];
    }
  }
}
