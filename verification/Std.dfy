/** Small datatypes and lemmas used by every other module. */
module Std {

  datatype Option<+T> = None | Some(value: T)

  datatype Result<+T, +E> = Ok(value: T) | Err(error: E)

  /** No two positions hold the same value. */
  ghost predicate Distinct<T>(s: seq<T>) {
    forall i, j :: 0 <= i < j < |s| ==> s[i] != s[j]
  }

  /** The set of values in a sequence. */
  ghost function Elements<T>(s: seq<T>): set<T> {
    set x | x in s
  }

  /** A sequence without repeats has as many positions as values. */
  lemma {:induction false} DistinctCount<T>(s: seq<T>)
    requires Distinct(s)
    ensures |Elements(s)| == |s|
  {
    if s != [] {
      var front := s[..|s| - 1];
      DistinctCount(front);
      assert s == front + [s[|s| - 1]];
      assert Elements(s) == Elements(front) + {s[|s| - 1]};
      assert s[|s| - 1] !in front;
    }
  }

  /** A sequence never has more values than positions; equally many means no repeats. */
  lemma {:induction false} ElementsCount<T>(s: seq<T>)
    ensures |Elements(s)| <= |s|
    ensures |Elements(s)| == |s| ==> Distinct(s)
  {
    if s != [] {
      var last := s[|s| - 1];
      var front := s[..|s| - 1];
      ElementsCount(front);
      assert s == front + [last];
      assert Elements(s) == Elements(front) + {last};
      if last in front {
        assert Elements(s) == Elements(front);
      }
    }
  }

  /** A set included in another of no greater size is that set. */
  lemma SubsetSameSize<T>(a: set<T>, b: set<T>)
    requires a <= b && |b| <= |a|
    ensures a == b
  {
    assert b == a + (b - a);
    assert |b| == |a| + |b - a|;
  }

  /** Removing a key makes a map one smaller. */
  lemma MapWithout<K, V>(m: map<K, V>, k: K)
    requires k in m
    ensures |m - {k}| == |m| - 1 && (m - {k}).Keys == m.Keys - {k}
  {
    assert m.Keys == (m - {k}).Keys + {k};
    assert |m.Keys| == |m| && |(m - {k}).Keys| == |m - {k}|;
  }

  /** Where a stream of n values stops that is cut after so many, if it is. */
  function CutAt(cut: Option<nat>, n: nat): (at: nat)
    ensures at <= n
  {
    if cut.Some? && cut.value < n then cut.value else n
  }

  function Total<T>(xs: seq<T>, f: T -> nat): nat {
    if xs == [] then 0 else f(xs[0]) + Total(xs[1..], f)
  }

  lemma {:induction false} TotalAppend<T>(a: seq<T>, b: seq<T>, f: T -> nat)
    ensures Total(a + b, f) == Total(a, f) + Total(b, f)
  {
    if a == [] {
      assert a + b == b;
    } else {
      TotalAppend(a[1..], b, f);
      assert (a + b)[0] == a[0] && (a + b)[1..] == a[1..] + b;
    }
  }

  lemma {:induction false} TotalSnoc<T>(a: seq<T>, x: T, f: T -> nat)
    ensures Total(a + [x], f) == Total(a, f) + f(x)
  {
    TotalAppend(a, [x], f);
    assert [x][1..] == [];
  }

  lemma {:induction false} TotalUpdate<T>(xs: seq<T>, i: nat, x: T, f: T -> nat)
    requires i < |xs|
    ensures Total(xs[i := x], f) == Total(xs, f) - f(xs[i]) + f(x)
    ensures f(xs[i]) <= Total(xs, f)
  {
    var a, b := xs[..i], xs[i + 1..];
    assert xs == (a + [xs[i]]) + b && xs[i := x] == (a + [x]) + b;
    TotalAppend(a + [xs[i]], b, f);
    TotalAppend(a + [x], b, f);
    TotalSnoc(a, xs[i], f);
    TotalSnoc(a, x, f);
  }

  /** A total of ones and zeros is the length exactly when every term is one. */
  lemma {:induction false} TotalOnes<T>(xs: seq<T>, f: T -> nat)
    requires forall x :: f(x) <= 1
    ensures Total(xs, f) <= |xs|
    ensures Total(xs, f) == |xs| <==> forall i :: 0 <= i < |xs| ==> f(xs[i]) == 1
  {
    if xs != [] {
      TotalOnes(xs[1..], f);
      if forall i :: 0 <= i < |xs| ==> f(xs[i]) == 1 {
        forall i | 0 <= i < |xs[1..]| ensures f(xs[1..][i]) == 1 { assert xs[1..][i] == xs[i + 1]; }
      }
      if Total(xs, f) == |xs| {
        forall i | 0 <= i < |xs| ensures f(xs[i]) == 1 { if i > 0 { assert xs[i] == xs[1..][i - 1]; } }
      }
    }
  }

  lemma {:induction false} TotalZero<T>(xs: seq<T>, f: T -> nat)
    requires forall i :: 0 <= i < |xs| ==> f(xs[i]) == 0
    ensures Total(xs, f) == 0
  {
    if xs != [] {
      forall i | 0 <= i < |xs[1..]| ensures f(xs[1..][i]) == 0 { assert xs[1..][i] == xs[i + 1]; }
      TotalZero(xs[1..], f);
    }
  }

  lemma Assoc<T>(a: seq<T>, b: seq<T>, c: seq<T>)
    ensures a + b + c == a + (b + c)
  {
  }

  lemma Assoc4<T>(a: seq<T>, b: seq<T>, c: seq<T>, d: seq<T>)
    ensures a + b + c + d == a + (b + (c + d))
  {
  }

  lemma Assoc7<T>(a: seq<T>, b: seq<T>, c: seq<T>, d: seq<T>, e: seq<T>, f: seq<T>, g: seq<T>)
    ensures a + b + c + d + e + f + g == a + (b + (c + (d + (e + (f + g)))))
  {
  }

  /** Dropping a known prefix. */
  lemma DropPrefix<T>(a: seq<T>, b: seq<T>)
    ensures (a + b)[|a|..] == b
  {
  }

  /** A sequence without repeats of n indices below n lists every one of them. */
  lemma Pigeonhole(perm: seq<nat>, n: nat, k: nat)
    requires |perm| == n && Distinct(perm) && k < n
    requires forall i :: 0 <= i < |perm| ==> perm[i] < n
    ensures k in perm
  {
    Below(n);
    DistinctCount(perm);
    SubsetSameSize(Elements(perm), UpTo(n));
    assert k in UpTo(n);
  }

  ghost function UpTo(n: nat): set<nat> {
    if n == 0 then {} else UpTo(n - 1) + {n - 1}
  }

  lemma {:induction false} Below(n: nat)
    ensures |UpTo(n)| == n
    ensures forall i: nat :: i in UpTo(n) <==> i < n
  {
    if n > 0 { Below(n - 1); }
  }

  function Pick<T>(vals: seq<T>, perm: seq<nat>): seq<T>
    requires forall i :: 0 <= i < |perm| ==> perm[i] < |vals|
  {
    seq(|perm|, i requires 0 <= i < |perm| => vals[perm[i]])
  }

  /** Listing values by a permutation of their indices keeps the multiset. */
  lemma {:induction false} PermutedMultiset<T>(vals: seq<T>, perm: seq<nat>)
    requires |perm| == |vals| && Distinct(perm)
    requires forall i :: 0 <= i < |perm| ==> perm[i] < |vals|
    ensures multiset(Pick(vals, perm)) == multiset(vals)
    decreases |vals|
  {
    if |vals| > 0 {
      var n := |vals| - 1;
      Pigeonhole(perm, n + 1, n);
      var j :| 0 <= j < |perm| && perm[j] == n;
      var perm' := perm[..j] + perm[j + 1..];
      WithoutLast(perm, n, j);
      hide Distinct, Pick;
      PermutedMultiset(vals[..n], perm');
      PickWithout(vals, perm, j, perm');
      var picked := Pick(vals, perm);
      assert |picked| == |perm| && picked[j] == vals[n] by { PickAt(vals, perm, j); }
      SplitAt(picked, j);
      SplitAt(vals, n);
      assert vals[n + 1..] == [];
    } else {
      assert Pick(vals, perm) == [];
    }
  }

  lemma WithoutLast(perm: seq<nat>, n: nat, j: nat)
    requires j < |perm| && Distinct(perm) && perm[j] == n
    requires forall i :: 0 <= i < |perm| ==> perm[i] <= n
    ensures var perm' := perm[..j] + perm[j + 1..];
      Distinct(perm') && forall i :: 0 <= i < |perm'| ==> perm'[i] < n
  {
    var perm' := perm[..j] + perm[j + 1..];
    forall i | 0 <= i < |perm'| ensures perm'[i] < n {
      var at := if i < j then i else i + 1;
      assert perm'[i] == perm[at] && at != j;
    }
  }

  lemma PickAt<T>(vals: seq<T>, perm: seq<nat>, j: nat)
    requires j < |perm| && forall i :: 0 <= i < |perm| ==> perm[i] < |vals|
    ensures |Pick(vals, perm)| == |perm| && Pick(vals, perm)[j] == vals[perm[j]]
  {
  }

  lemma SplitAt<T>(s: seq<T>, j: nat)
    requires j < |s|
    ensures multiset(s) == multiset(s[..j] + s[j + 1..]) + multiset{s[j]}
    ensures s[j + 1..] == [] ==> s[..j] + s[j + 1..] == s[..j]
  {
    assert s == s[..j] + ([s[j]] + s[j + 1..]);
  }

  lemma PickWithout<T>(vals: seq<T>, perm: seq<nat>, j: nat, perm': seq<nat>)
    requires forall i :: 0 <= i < |perm| ==> perm[i] < |vals|
    requires j < |perm| && perm' == perm[..j] + perm[j + 1..] && |vals| > 0
    requires forall i :: 0 <= i < |perm'| ==> perm'[i] < |vals| - 1
    ensures Pick(vals[..|vals| - 1], perm') == Pick(vals, perm)[..j] + Pick(vals, perm)[j + 1..]
  {
  }

  lemma {:induction false} ElementsSnoc<T>(xs: seq<T>)
    requires xs != []
    ensures var n := |xs| - 1;
      |Elements(xs)| == |Elements(xs[..n])| + if exists i :: 0 <= i < n && xs[i] == xs[n] then 0 else 1
  {
    var n := |xs| - 1;
    assert xs == xs[..n] + [xs[n]];
    assert Elements(xs) == Elements(xs[..n]) + {xs[n]};
    if i :| 0 <= i < n && xs[i] == xs[n] {
      assert xs[..n][i] == xs[n];
      assert Elements(xs) == Elements(xs[..n]);
    } else {
      assert xs[n] !in Elements(xs[..n]);
    }
  }

  /** Two sequences that repeat at the same positions have equally many values. */
  lemma {:induction false} SameRepeats<T, U>(xs: seq<T>, ys: seq<U>)
    requires |xs| == |ys|
    requires forall i, j :: 0 <= i < j < |xs| ==> (xs[i] == xs[j] <==> ys[i] == ys[j])
    ensures |Elements(xs)| == |Elements(ys)|
  {
    hide Elements;
    if xs != [] {
      var n := |xs| - 1;
      SameRepeats(xs[..n], ys[..n]);
      ElementsSnoc(xs);
      ElementsSnoc(ys);
    } else {
      EmptyElements<T>();
      EmptyElements<U>();
    }
  }

  lemma {:induction false} EmptyElements<T>()
    ensures Elements<T>([]) == {}
  {
  }
}
