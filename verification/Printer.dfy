/** Canonical query text, and that parsing it gives the query back. */
module Printer {
  import opened Std
  import opened Grammar
  import opened Peg
  import opened Reference
  import D = Decimal
  import Q = Queries

  // ---- Canonical text ----

  function PrintNames(sels: seq<string>): string
    requires |sels| > 0
  {
    if |sels| == 1 then sels[0] else PrintNames(sels[..|sels| - 1]) + ("," + sels[|sels| - 1])
  }

  function PrintSelector(sel: Q.Selector): string
    requires Q.WellFormedSelector(sel)
  {
    match sel
    case SimpleSelector(w) => w
    case CompoundSelector(ws) => "(" + (PrintNames(ws) + ")")
    case FunctionSelector(f, w) => f + ("(" + (w + ")"))
  }

  function PrintLeaf(name: string, op: string, val: string): string {
    name + (" " + (op + (" " + val)))
  }

  /** A criterion that stands where one atom is expected. */
  function PrintAtom(c: Q.Criteria): string
    decreases c, 1
  {
    match c
    case ValueCriteria(sel, op, val) => PrintLeaf(sel, op, val)
    case RangeCriteria(sel, op, num) => PrintLeaf(sel, op, D.Show(if num < 0 then 0 else num))
    case IndexCriteria(sel, val) => PrintLeaf(sel, "=", val)
    case CompoundCriteria(_, _, _) => "(" + (PrintCriteria(c) + ")")
    case NegatedCriteria(e) => "NOT " + PrintAtom(e)
  }

  /** A chain, without parentheses around what nests to the left. */
  function PrintCriteria(c: Q.Criteria): string
    decreases c, if c.CompoundCriteria? then 0 else 2
  {
    match c
    case CompoundCriteria(op, left, right) => PrintCriteria(left) + PrintNext(op, right)
    case _ => PrintAtom(c)
  }

  function PrintNext(op: string, right: Q.Criteria): string
    decreases right, 2
  {
    " " + (op + (" " + PrintAtom(right)))
  }

  // ---- Numbers of any size ----

  /** Well formed but for the size of its numbers. */
  predicate ShapedCriteria(c: Q.Criteria) {
    match c
    case RangeCriteria(sel, op, num) => num >= 0 && Q.WellFormedCriteria(Q.RangeCriteria(sel, op, 0))
    case CompoundCriteria(op, l, r) => op in {"AND", "OR"} && ShapedCriteria(l) && ShapedCriteria(r)
    case NegatedCriteria(e) => ShapedCriteria(e)
    case _ => Q.WellFormedCriteria(c)
  }

  predicate Shaped(q: Q.Query) {
    q.limit >= 0 && (q.criteria.Some? ==> ShapedCriteria(q.criteria.value)) && Q.WellFormed(q.(criteria := None, limit := 0))
  }

  /** What is kept of a number that is too large. */
  function KeptNum(n: int): int { if n <= D.MAX_INT then n else 0 }

  function KeptCriteria(c: Q.Criteria): Q.Criteria {
    match c
    case RangeCriteria(sel, op, num) => Q.RangeCriteria(sel, op, KeptNum(num))
    case CompoundCriteria(op, l, r) => Q.CompoundCriteria(op, KeptCriteria(l), KeptCriteria(r))
    case NegatedCriteria(e) => Q.NegatedCriteria(KeptCriteria(e))
    case _ => c
  }

  function Kept(q: Q.Query): Q.Query {
    q.(criteria := if q.criteria.Some? then Some(KeptCriteria(q.criteria.value)) else None, limit := KeptNum(q.limit))
  }

  /** The text of a number that no int holds. */
  function TooLarge(n: int): Option<string> { if n <= D.MAX_INT then None else Some(D.Show(n)) }

  /** The last number of the criteria's text that is too large. */
  function CriteriaOverflow(c: Q.Criteria): Option<string> {
    match c
    case RangeCriteria(_, _, num) => TooLarge(num)
    case CompoundCriteria(_, l, r) => if CriteriaOverflow(r).Some? then CriteriaOverflow(r) else CriteriaOverflow(l)
    case NegatedCriteria(e) => CriteriaOverflow(e)
    case _ => None
  }

  function Overflow(q: Q.Query): Option<string> {
    if TooLarge(q.limit).Some? then TooLarge(q.limit)
    else if q.criteria.Some? then CriteriaOverflow(q.criteria.value) else None
  }

  lemma {:induction false} CriteriaInRange(c: Q.Criteria)
    ensures Q.WellFormedCriteria(c) <==> ShapedCriteria(c) && CriteriaOverflow(c) == None
    ensures Q.WellFormedCriteria(c) ==> KeptCriteria(c) == c
  {
    match c {
      case CompoundCriteria(_, l, r) =>
        CriteriaInRange(l);
        CriteriaInRange(r);
      case NegatedCriteria(e) => CriteriaInRange(e);
      case _ =>
    }
  }

  /** The well-formed queries are those whose numbers are all in range. */
  lemma InRange(q: Q.Query)
    ensures Q.WellFormed(q) <==> Shaped(q) && Overflow(q) == None
    ensures Q.WellFormed(q) ==> Kept(q) == q
  {
    if q.criteria.Some? { CriteriaInRange(q.criteria.value); }
  }

  function PrintItem(o: Q.OrderSpec): string {
    if o.dir == "" then o.sel else o.sel + (" " + o.dir)
  }

  function PrintItems(os: seq<Q.OrderSpec>): string
    requires |os| > 0
  {
    if |os| == 1 then PrintItem(os[0]) else PrintItems(os[..|os| - 1]) + ("," + PrintItem(os[|os| - 1]))
  }

  function PrintWhere(c: Option<Q.Criteria>): string {
    match c
    case None => ""
    case Some(c) => " WHERE " + PrintCriteria(c)
  }

  function PrintOrder(o: Option<seq<Q.OrderSpec>>): string
    requires o.Some? ==> |o.value| > 0
  {
    match o
    case None => ""
    case Some(os) => " ORDER BY " + PrintItems(os)
  }

  function PrintLimit(n: int): string {
    if n <= 0 then "" else " LIMIT " + D.Show(n)
  }

  function Print(q: Q.Query): string
    requires Shaped(q)
  {
    var tail := PrintWhere(q.criteria) + (PrintOrder(q.order) + PrintLimit(q.limit));
    if q.op.OpSelect? then "SELECT " + (PrintSelector(q.selector) + (" FROM " + (q.namespace + tail)))
    else "DELETE FROM " + (q.namespace + tail)
  }

  // ---- Words ----

  /** No two words start alike. */
  predicate Heads(ws: WordList) {
    forall i, j :: 0 <= i < j < |ws| ==> ws[i][0] != ws[j][0]
  }

  lemma {:induction false} FirstIs(ws: WordList, i: nat, s: string)
    requires i < |ws| && ws[i] <= s
    requires forall j :: 0 <= j < i ==> !(ws[j] <= s)
    ensures FirstWord(ws, s, 0) == Some(ws[i])
  {
    if i > 0 {
      assert !(ws[0] <= s);
      assert forall j :: 0 <= j < i - 1 ==> ws[1..][j] == ws[j + 1];
      FirstIs(ws[1..], i - 1, s);
    }
  }

  lemma {:induction false} NoneIs(ws: WordList, s: string)
    requires forall j :: 0 <= j < |ws| ==> !(ws[j] <= s)
    ensures FirstWord(ws, s, 0) == None
  {
    if ws != [] {
      assert !(ws[0] <= s);
      NoneIs(ws[1..], s);
    }
  }

  lemma {:induction false} HeadsRead(ws: WordList, w: string, rest: string)
    requires Heads(ws) && w in ws
    ensures FirstWord(ws, w + rest, 0) == Some(w) && (w + rest)[|w|..] == rest
  {
    var i :| 0 <= i < |ws| && ws[i] == w;
    forall j | 0 <= j < i ensures !(ws[j] <= w + rest) {
      assert ws[j][0] != w[0] == (w + rest)[0];
    }
    FirstIs(ws, i, w + rest);
  }

  lemma {:induction false} HeadsMiss(ws: WordList, s: string)
    requires forall j :: 0 <= j < |ws| ==> s == "" || ws[j][0] != s[0]
    ensures FirstWord(ws, s, 0) == None
  {
    forall j | 0 <= j < |ws| ensures !(ws[j] <= s) {
      assert s == "" || ws[j][0] != s[0];
    }
    NoneIs(ws, s);
  }

  lemma SelectorHeads(w: string)
    ensures Heads(SELECTOR_WORDS) && (Q.SimpleName(w) <==> w in SELECTOR_WORDS)
  {
    var ws := SELECTOR_WORDS;
    assert ws[0] == "*" && ws[1] == "body" && ws[2] == "id" && ws[3] == "publisher";
    assert ws[4] == "namespace" && ws[5] == "source" && ws[6] == "timestamp" && ws[7] == "counter";
  }

  lemma OrderHeads(w: string)
    ensures Heads(ORDER_WORDS) && (Q.OrderName(w) <==> w in ORDER_WORDS)
  {
    var ws := ORDER_WORDS;
    assert ws[0] == "id" && ws[1] == "namespace" && ws[2] == "publisher";
    assert ws[3] == "source" && ws[4] == "timestamp" && ws[5] == "counter";
  }

  lemma DirHeads(w: string)
    ensures Heads(DIR_WORDS) && (w != "" ==> (Q.DirName(w) <==> w in DIR_WORDS))
  {
    assert DIR_WORDS[0] == "ASC" && DIR_WORDS[1] == "DESC";
  }

  lemma EqualityHeads(w: string)
    ensures Heads(EQUALITY_WORDS) && (w in EQUALITY_WORDS <==> w in {"=", "!="})
  {
    assert EQUALITY_WORDS[0] == "=" && EQUALITY_WORDS[1] == "!=";
  }

  lemma RangeHeads(w: string)
    ensures Heads(RANGE_WORDS) && (w in RANGE_WORDS <==> w in {"timestamp", "counter"})
  {
    assert RANGE_WORDS[0] == "timestamp" && RANGE_WORDS[1] == "counter";
  }

  lemma BooleanHeads(w: string)
    ensures Heads(BOOLEAN_WORDS) && (w in BOOLEAN_WORDS <==> w in {"AND", "OR"})
  {
    assert BOOLEAN_WORDS[0] == "AND" && BOOLEAN_WORDS[1] == "OR";
  }

  /** No function name is a prefix of another. */
  lemma {:induction false} FunctionReads(w: string, rest: string)
    requires Q.FunctionName(w)
    ensures FirstWord(FUNCTION_WORDS, w + rest, 0) == Some(w) && (w + rest)[|w|..] == rest
  {
    var ws := FUNCTION_WORDS;
    assert ws[0] == "COUNT" && ws[1] == "MIN" && ws[2] == "MAX";
    var i := if w == "COUNT" then 0 else if w == "MIN" then 1 else 2;
    assert (w + rest)[0] == w[0] && (w + rest)[1] == w[1];
    FirstIs(ws, i, w + rest);
  }

  /** "<=" is tried before "<", and a space ends either. */
  lemma {:induction false} ComparisonReads(w: string, rest: string)
    requires Q.RangeOp(w) && rest != "" && rest[0] == ' '
    ensures FirstWord(COMPARISON_WORDS, w + rest, 0) == Some(w) && (w + rest)[|w|..] == rest
  {
    var ws := COMPARISON_WORDS;
    assert ws[0] == "<=" && ws[1] == "<" && ws[2] == "=" && ws[3] == "!=" && ws[4] == ">=" && ws[5] == ">";
    var i := if w == "<=" then 0 else if w == "<" then 1 else if w == "=" then 2
      else if w == "!=" then 3 else if w == ">=" then 4 else 5;
    assert (w + rest)[0] == w[0];
    assert |w| == 1 ==> (w + rest)[1] == ' ';
    FirstIs(ws, i, w + rest);
  }

  // ---- Lexemes and space ----

  /** What may follow a lexeme. */
  predicate Ends(rest: string) { rest == "" || rest[0] == ' ' || rest[0] == ')' }

  predicate Of(k: Class, s: string) { forall i :: 0 <= i < |s| ==> InClass(k, s[i]) }

  lemma TailOf(val: string, rest: string)
    requires val != ""
    ensures (val + rest)[0] == val[0] && (val + rest)[1..] == val[1..] + rest
  {
  }

  lemma {:induction false} SpanRead(k: Class, val: string, rest: string)
    requires Of(k, val) && (rest == "" || !InClass(k, rest[0]))
    ensures Span(k, val + rest) == |val| && (val + rest)[..|val|] == val && (val + rest)[|val|..] == rest
  {
    if val == "" {
      assert val + rest == rest;
    } else {
      hide InClass;
      TailOf(val, rest);
      SpanRead(k, val[1..], rest);
    }
  }

  lemma {:induction false} SkipSpace(t: string)
    requires !Spaced(t)
    ensures Skip(" " + t) == t && Spaced(" " + t)
  {
    assert (" " + t)[1..] == t;
  }

  lemma DropWord(w: string, rest: string)
    ensures (w + rest)[|w|..] == rest && w <= w + rest
  {
  }
}
