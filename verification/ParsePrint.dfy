/** Parsing and printing are inverse on the well-formed queries, and no other query is parsed. */
module ParsePrint {
  import opened Std
  import opened Grammar
  import opened Peg
  import opened ParseState
  import opened Reference
  import opened Printer
  import opened RoundTrip
  import opened ParseQuery
  import D = Decimal
  import Q = Queries

  // ---- Parse undoes print ----

  lemma SelectText(sel: string, ns: string, tail: string)
    ensures var s := "SELECT " + (sel + (" FROM " + (ns + tail)));
      var t := " FROM " + (ns + tail);
      "SELECT" <= s && s[6..] == " " + (sel + t) && t == " " + ("FROM " + (ns + tail))
  {
  }

  lemma DeleteText(ns: string, tail: string)
    ensures var s := "DELETE FROM " + (ns + tail);
      "DELETE" <= s && !("SELECT" <= s) && s[6..] == " " + ("FROM " + (ns + tail))
  {
    var s := "DELETE FROM " + (ns + tail);
    assert s[0] == 'D';
  }

  lemma FromStarts(t: string)
    ensures !Spaced("FROM " + t)
  {
  }

  lemma {:induction false} SelectorStarts(sel: Q.Selector, rest: string)
    requires Q.WellFormedSelector(sel)
    ensures !Spaced(PrintSelector(sel) + rest)
  {
  }

  lemma NoMoreText()
    ensures Skip("") == ""
  {
  }

  lemma {:induction false} SelectReads(q: Q.Query)
    requires Shaped(q) && q.op.OpSelect?
    ensures RefSelect(Print(q)) == Yes(Kept(q), Overflow(q), "")
  {
    hide Spaced, Skip, PrintSelector, PrintWhere, PrintOrder, PrintLimit, RefSelector, RefSource, RefWhere, RefOrder, RefLimit;
    hide Q.WellFormedSelector, Q.WellFormedNamespace, Optional, ShapedCriteria, KeptCriteria, CriteriaOverflow, D.Show;
    OrderTail(q.order, q.limit);
    LimitTail(q.limit);
    var rest := PrintOrder(q.order) + PrintLimit(q.limit);
    hide Q.WellFormedOrder;
    WhereTail(q.criteria, rest);
    var tail := PrintWhere(q.criteria) + rest;
    var sel, t := PrintSelector(q.selector), " FROM " + (q.namespace + tail);
    SelectText(sel, q.namespace, tail);
    SelectorStarts(q.selector, t);
    SelectorReads(q.selector, t);
    SourceReads(q.namespace, tail);
    FromStarts(q.namespace + tail);
    SkipSpace(sel + t);
    SkipSpace("FROM " + (q.namespace + tail));
  }

  lemma {:induction false} DeleteReads(q: Q.Query)
    requires Shaped(q) && q.op.OpDelete?
    ensures RefSelect(Print(q)) == No && RefDelete(Print(q)) == Yes(Kept(q), Overflow(q), "")
  {
    LimitTail(q.limit);
    var rest := PrintLimit(q.limit);
    assert PrintOrder(q.order) + rest == rest;
    WhereTail(q.criteria, rest);
    var tail := PrintWhere(q.criteria) + rest;
    DeleteText(q.namespace, tail);
    SourceReads(q.namespace, tail);
    FromStarts(q.namespace + tail);
    hide Spaced, Skip, PrintWhere, PrintLimit, RefSource, RefWhere, RefLimit;
    hide Q.WellFormedNamespace, Optional;
    hide ShapedCriteria, KeptCriteria, CriteriaOverflow, D.Show;
    SkipSpace("FROM " + (q.namespace + tail));
  }

  /** A query whose numbers may be too large for an int: it comes back from its own text when they
      are not, and otherwise the last one that is too large is the error. */
  lemma {:induction false} ParseReadsPrint(q: Q.Query)
    requires Shaped(q)
    ensures Parsed(Print(q)) == if Overflow(q).Some? then Err(NumberTooLarge(Overflow(q).value)) else Ok(q)
  {
    InRange(q);
    hide RefSelect, RefDelete, Q.WellFormed, Shaped, Kept, Overflow, Print;
    NoMoreText();
    if q.op.OpSelect? { SelectReads(q); } else { DeleteReads(q); }
  }

  /** Every well-formed query comes back from its own text. */
  lemma {:induction false} ParseUndoesPrint(q: Q.Query)
    requires Q.WellFormed(q)
    ensures Shaped(q) && Parsed(Print(q)) == Ok(q)
  {
    InRange(q);
    ParseReadsPrint(q);
  }

  /** A LIMIT that no int holds is an error with its text, whatever comes before it. */
  lemma {:induction false} LimitTooLarge(q: Q.Query, n: int)
    requires Q.WellFormed(q) && q.limit == 0 && n > D.MAX_INT
    ensures Shaped(q) && Parsed(Print(q) + (" LIMIT " + D.Show(n))) == Err(NumberTooLarge(D.Show(n)))
  {
    var q' := q.(limit := n);
    InRange(q);
    assert Shaped(q') && Overflow(q') == Some(D.Show(n));
    LimitAppended(q, n);
    ParseReadsPrint(q');
  }

  lemma LimitAppended(q: Q.Query, n: int)
    requires Shaped(q) && q.limit == 0 && n > 0 && Shaped(q.(limit := n))
    ensures Print(q.(limit := n)) == Print(q) + (" LIMIT " + D.Show(n))
  {
    hide PrintSelector, PrintWhere, PrintOrder, D.Show;
    var w, o, l := PrintWhere(q.criteria), PrintOrder(q.order), " LIMIT " + D.Show(n);
    assert PrintLimit(0) == "" && PrintLimit(n) == l;
    assert w + (o + l) == w + (o + "") + l;
  }

  /** So is a timestamp or counter criterion with such a number. */
  lemma {:induction false} CriterionTooLarge(q: Q.Query, sel: string, op: string, n: int)
    requires Q.WellFormed(q) && q.criteria == None && sel in {"timestamp", "counter"} && Q.RangeOp(op) && n > D.MAX_INT
    ensures var q' := q.(criteria := Some(Q.RangeCriteria(sel, op, n)));
      Shaped(q') && Parsed(Print(q')) == Err(NumberTooLarge(D.Show(n)))
  {
    InRange(q);
    hide Print, Parsed;
    ParseReadsPrint(q.(criteria := Some(Q.RangeCriteria(sel, op, n))));
  }

  // ---- Only well-formed queries are parsed ----

  lemma {:induction false} FirstWordIn(ws: WordList, s: string)
    ensures FirstWord(ws, s, 0).Some? ==> FirstWord(ws, s, 0).value in ws
  {
    if ws != [] { FirstWordIn(ws[1..], s); }
  }

  lemma {:induction false} LeafForm(names: WordList, ops: WordList, k: Class, s: string)
    ensures var o := RefLeaf(names, ops, k, s);
      o.Yes? ==> o.v.name in names && o.v.op in ops && Of(k, o.v.val) && o.v.val != ""
  {
    hide FirstWord, Skip, Span;
    FirstWordIn(names, s);
    var name := FirstWord(names, s, 0);
    if name.Some? {
      FirstWordIn(ops, Skip(s[|name.value|..]));
    }
  }

  lemma ComparisonForm(w: string)
    ensures w in COMPARISON_WORDS ==> Q.RangeOp(w)
  {
    var ws := COMPARISON_WORDS;
    assert ws[0] == "<=" && ws[1] == "<" && ws[2] == "=" && ws[3] == "!=" && ws[4] == ">=" && ws[5] == ">";
  }

  lemma {:induction false} NumberForm(text: string)
    ensures 0 <= NumberOf(text) <= D.MAX_INT
  {
  }

  lemma {:induction false} SimpleForm(s: string)
    ensures RefSimple(s).Yes? ==> Q.WellFormedCriteria(RefSimple(s).v)
  {
    LeafForm(ID_WORD, EQUALITY_WORDS, IdChars, s);
    LeafForm(PUBLISHER_WORD, EQUALITY_WORDS, AlnumChars, s);
    LeafForm(SOURCE_WORD, EQUALITY_WORDS, AlnumChars, s);
    LeafForm(RANGE_WORDS, COMPARISON_WORDS, Digits, s);
    LeafForm(WKI_WORD, EQUALS_WORD, WkiChars, s);
    hide RefLeaf, NumberOf, NumberError, Q.RangeOp;
    match RefSimple(s) {
      case No =>
      case Yes(c, _, _) =>
        match c {
          case ValueCriteria(sel, op, val) => EqualityHeads(op);
          case RangeCriteria(sel, op, num) =>
            RangeHeads(sel);
            ComparisonForm(op);
            NumberForm(RefRange(s).v.val);
          case IndexCriteria(sel, val) =>
        }
    }
  }

  lemma {:induction false} CompoundForm(s: string)
    ensures RefCompound(s).Yes? ==> Q.WellFormedCriteria(RefCompound(s).v)
    decreases |s|, 1
  {
    hide RefSimple, RefMulti, Skip;
    SimpleForm(s);
    if RefSimple(s).No? {
      if "(" <= s {
        MultiForm(s[1..]);
      } else if "NOT" <= s && Spaced(s[3..]) {
        hide RefCompound;
        NotForm(s);
      }
    }
  }

  lemma {:induction false} NotForm(s: string)
    requires RefSimple(s).No? && !("(" <= s) && "NOT" <= s && Spaced(s[3..])
    ensures RefCompound(s).Yes? ==> Q.WellFormedCriteria(RefCompound(s).v)
    decreases |s|, 0
  {
    hide RefSimple, RefMulti;
    CompoundForm(Skip(s[3..]));
  }

  lemma {:induction false} MultiForm(s: string)
    ensures RefMulti(s).Yes? ==> Q.WellFormedCriteria(RefMulti(s).v)
    decreases |s|, 3
  {
    hide RefCompound, RefTail;
    CompoundForm(s);
    var o := RefCompound(s);
    if o.Yes? { TailForm(o.v, o.err, o.rest); }
  }

  lemma {:induction false} TailForm(left: Q.Criteria, err: Option<string>, s: string)
    requires Q.WellFormedCriteria(left)
    ensures Q.WellFormedCriteria(RefTail(left, err, s).v)
    decreases |s|, 2
  {
    hide RefNext;
    NextForm(s);
    match RefNext(s) {
      case No =>
      case Yes((op, right), e, rest) => TailForm(Q.CompoundCriteria(op, left, right), Later(err, e), rest);
    }
  }

  lemma {:induction false} NextForm(s: string)
    ensures RefNext(s).Yes? ==> RefNext(s).v.0 in {"AND", "OR"} && Q.WellFormedCriteria(RefNext(s).v.1)
    decreases |s|, 1
  {
    hide RefCompound, FirstWord, Skip;
    if Spaced(s) {
      FirstWordIn(BOOLEAN_WORDS, Skip(s));
      var w := FirstWord(BOOLEAN_WORDS, Skip(s), 0);
      if w.Some? {
        BooleanHeads(w.value);
        var s2 := Skip(s)[|w.value|..];
        if Spaced(s2) { CompoundForm(Skip(s2)); }
      }
    }
  }

  lemma {:induction false} SelectorsForm(acc: seq<string>, s: string)
    requires |acc| > 0 && forall i :: 0 <= i < |acc| ==> Q.SimpleName(acc[i])
    ensures var r := RefSelectors(acc, s).0; |r| > 0 && forall i :: 0 <= i < |r| ==> Q.SimpleName(r[i])
    decreases |s|
  {
    hide FirstWord, Skip, Q.SimpleName;
    if "," <= s {
      FirstWordIn(SELECTOR_WORDS, Skip(s[1..]));
      var w := FirstWord(SELECTOR_WORDS, Skip(s[1..]), 0);
      if w.Some? {
        SelectorHeads(w.value);
        SelectorsForm(acc + [w.value], Skip(s[1..])[|w.value|..]);
      }
    }
  }

  lemma {:induction false} SelectorForm(s: string)
    ensures RefSelector(s).Yes? ==> Q.WellFormedSelector(RefSelector(s).v)
  {
    hide RefCompoundSelector, RefFunctionSelector, FirstWord, Q.SimpleName;
    FirstWordIn(SELECTOR_WORDS, s);
    var w := FirstWord(SELECTOR_WORDS, s, 0);
    if w.Some? { SelectorHeads(w.value); }
    CompoundSelectorForm(s);
    FunctionSelectorForm(s);
  }

  lemma {:induction false} CompoundSelectorForm(s: string)
    ensures RefCompoundSelector(s).Yes? ==> Q.WellFormedSelector(RefCompoundSelector(s).v)
  {
    hide FirstWord, Q.SimpleName, RefSelectors;
    if "(" <= s {
      FirstWordIn(SELECTOR_WORDS, s[1..]);
      var w := FirstWord(SELECTOR_WORDS, s[1..], 0);
      if w.Some? {
        SelectorHeads(w.value);
        SelectorsForm([w.value], s[1..][|w.value|..]);
      }
    }
  }

  lemma {:induction false} FunctionSelectorForm(s: string)
    ensures RefFunctionSelector(s).Yes? ==> Q.WellFormedSelector(RefFunctionSelector(s).v)
  {
    FunctionIn(s);
    hide FirstWord, Q.SimpleName, Q.FunctionName;
    var f := FirstWord(FUNCTION_WORDS, s, 0);
    if f.Some? {
      var s1 := s[|f.value|..];
      if "(" <= s1 {
        FirstWordIn(SELECTOR_WORDS, s1[1..]);
        var w := FirstWord(SELECTOR_WORDS, s1[1..], 0);
        if w.Some? { SelectorHeads(w.value); }
      }
    }
  }

  lemma FunctionIn(s: string)
    ensures var f := FirstWord(FUNCTION_WORDS, s, 0); f.Some? ==> Q.FunctionName(f.value)
  {
    hide FirstWord;
    FirstWordIn(FUNCTION_WORDS, s);
    var ws := FUNCTION_WORDS;
    assert ws[0] == "COUNT" && ws[1] == "MIN" && ws[2] == "MAX";
  }

  // ---- Namespaces ----

  lemma SplitDots(s: string, n: nat, d: nat)
    requires "." <= s && 1 + n + d <= |s|
    ensures s[..1 + n + d] == "." + s[1..][..n] + s[1..][n..][..d]
  {
  }

  lemma {:induction false} DotsCases(s: string)
    ensures !("." <= s) ==> DotsLength(s) == 0
    ensures "." <= s && Span(NamespaceChars, s[1..]) > 0 ==> var n := Span(NamespaceChars, s[1..]);
      DotsLength(s) == 1 + n + DotsLength(s[1..][n..])
    ensures "." <= s && Span(NamespaceChars, s[1..]) == 0 ==>
      DotsLength(s) == 0 || (DotsLength(s) == 2 && s[..2] == ".*")
  {
    hide Span;
  }

  predicate DottedPattern(t: string) {
    DottedTail(t) || (|t| >= 2 && t[|t| - 2..] == ".*" && DottedTail(t[..|t| - 2]))
  }

  lemma ShortPatterns()
    ensures DottedPattern("") && DottedPattern(".*")
  {
    assert ".*"[..0] == "";
  }

  /** What the dots read: a dotted tail, with or without ".*" at the end. */
  lemma {:induction false} DotsForm(s: string)
    ensures DottedPattern(s[..DotsLength(s)])
    decreases |s|
  {
    hide Span, DotsLength, DottedPattern;
    DotsCases(s);
    ShortPatterns();
    if "." <= s && Span(NamespaceChars, s[1..]) > 0 {
      var n, x := Span(NamespaceChars, s[1..]), s[1..];
      DotsForm(x[n..]);
      SplitDots(s, n, DotsLength(x[n..]));
      DottedJoin(x[..n], x[n..][..DotsLength(x[n..])]);
    } else if DotsLength(s) == 0 {
      assert s[..0] == "";
    }
  }

  lemma {:induction false} DottedJoin(p: string, t: string)
    requires p != "" && Of(NamespaceChars, p) && DottedPattern(t)
    ensures DottedPattern("." + p + t)
  {
    hide DottedTail;
    var u := "." + p + t;
    if DottedTail(t) {
      DottedStep(p, t);
    } else {
      DottedStep(p, t[..|t| - 2]);
      assert u[..|u| - 2] == "." + p + t[..|t| - 2];
      assert u[|u| - 2..] == t[|t| - 2..];
    }
  }

  lemma {:induction false} DottedStep(p: string, t: string)
    requires p != "" && Of(NamespaceChars, p) && DottedTail(t)
    ensures DottedTail("." + p + t)
  {
    var u := "." + p + t;
    forall i | 0 <= i < |u| - 1 ensures !(u[i] == '.' && u[i + 1] == '.') {
      if i <= |p| {
        assert i > 0 ==> u[i] == p[i - 1];
        assert i < |p| ==> u[i + 1] == p[i];
      } else {
        assert u[i] == t[i - 1 - |p|] && u[i + 1] == t[i - |p|];
      }
    }
    forall i | 0 <= i < |u| ensures Q.IsNamespaceChar(u[i]) || u[i] == '.' {
      if 0 < i <= |p| {
        assert u[i] == p[i - 1] && InClass(NamespaceChars, p[i - 1]);
      } else if i > |p| {
        assert u[i] == t[i - 1 - |p|];
      }
    }
    assert u[|u| - 1] == if t == "" then p[|p| - 1] else t[|t| - 1];
    assert InClass(NamespaceChars, p[|p| - 1]);
  }

  lemma {:induction false} PartsForm(p: string, t: string)
    requires p != "" && Of(NamespaceChars, p) && DottedTail(t)
    ensures Q.NamespaceParts(p + t)
  {
    DottedStep(p, t);
    var u := "." + p + t;
    var v := p + t;
    assert u == "." + v;
    forall i | 0 <= i < |v| ensures v[i] == u[i + 1] {}
    assert InClass(NamespaceChars, p[0]) && v[0] == p[0];
    assert v[|v| - 1] == u[|u| - 1];
    forall i | 0 <= i < |v| - 1 ensures !(v[i] == '.' && v[i + 1] == '.') {
      assert v[i] == u[i + 1] && v[i + 1] == u[i + 2];
    }
  }

  lemma {:induction false} NamespaceForm(s: string)
    ensures NamespaceLength(s) > 0 ==> Q.WellFormedNamespace(s[..NamespaceLength(s)])
  {
    hide Span, DotsLength, Q.WellFormedNamespace, DottedPattern;
    var n := Span(NamespaceChars, s);
    if n > 0 {
      DotsForm(s[n..]);
      var d := DotsLength(s[n..]);
      assert s[..n + d] == s[..n] + s[n..][..d];
      PatternForm(s[..n], s[n..][..d]);
    } else if "*" <= s {
      assert s[..1] == "*";
      AnyForm();
    }
  }

  lemma AnyForm()
    ensures Q.WellFormedNamespace("*")
  {
  }

  lemma {:induction false} PatternForm(p: string, t: string)
    requires p != "" && Of(NamespaceChars, p) && DottedPattern(t)
    ensures Q.WellFormedNamespace(p + t)
  {
    hide DottedTail, Q.NamespaceParts, Of;
    if DottedTail(t) {
      PartsForm(p, t);
    } else {
      var d, u := |t|, p + t;
      PartsForm(p, t[..d - 2]);
      assert u[..|u| - 2] == p + t[..d - 2] && u[|u| - 2..] == t[d - 2..];
    }
  }

  // ---- Whole queries ----

  lemma {:induction false} ItemForm(s: string)
    ensures var o := RefItem(s); o.Yes? ==> Q.OrderName(o.v.sel) && Q.DirName(o.v.dir)
  {
    hide FirstWord, Skip, Q.OrderName;
    FirstWordIn(ORDER_WORDS, s);
    var w := FirstWord(ORDER_WORDS, s, 0);
    if w.Some? {
      OrderHeads(w.value);
      var s1 := s[|w.value|..];
      if Spaced(s1) {
        FirstWordIn(DIR_WORDS, Skip(s1));
        var d := FirstWord(DIR_WORDS, Skip(s1), 0);
        if d.Some? { DirHeads(d.value); }
      }
    }
  }

  lemma {:induction false} ItemsForm(acc: seq<Q.OrderSpec>, s: string)
    requires Q.WellFormedOrder(acc)
    ensures Q.WellFormedOrder(RefItems(acc, s).0)
    decreases |s|
  {
    hide RefItem, Skip, Q.OrderName, Q.DirName;
    if "," <= s {
      ItemForm(Skip(s[1..]));
      match RefItem(Skip(s[1..])) {
        case No =>
        case Yes(item, _, rest) => ItemsForm(acc + [item], rest);
      }
    }
  }

  lemma {:induction false} OrderForm(s: string)
    ensures RefOrder(s).Yes? ==> Q.WellFormedOrder(RefOrder(s).v)
  {
    hide RefItem, RefItems, Skip, Q.OrderName, Q.DirName;
    if "ORDER" <= s && Spaced(s[5..]) {
      var s1 := Skip(s[5..]);
      if "BY" <= s1 && Spaced(s1[2..]) {
        ItemForm(Skip(s1[2..]));
        var o := RefItem(Skip(s1[2..]));
        if o.Yes? { ItemsForm([o.v], o.rest); }
      }
    }
  }

  lemma {:induction false} LimitForm(s: string)
    ensures RefLimit(s).Yes? ==> 0 <= RefLimit(s).v <= D.MAX_INT
  {
    hide NumberOf, NumberError, Skip, Span;
    if "LIMIT" <= s && Spaced(s[5..]) {
      var s1 := Skip(s[5..]);
      NumberForm(s1[..Span(Digits, s1)]);
    }
  }

  lemma {:induction false} SourceForm(s: string)
    ensures RefSource(s).Yes? ==> Q.WellFormedNamespace(RefSource(s).v)
  {
    hide NamespaceLength, Skip, Q.WellFormedNamespace;
    if "FROM" <= s && Spaced(s[4..]) { NamespaceForm(Skip(s[4..])); }
  }

  lemma {:induction false} TailClausesForm(s: string)
    ensures RefWhere(s).Yes? ==> Q.WellFormedCriteria(RefWhere(s).v)
    ensures RefOrder(s).Yes? ==> Q.WellFormedOrder(RefOrder(s).v)
    ensures RefLimit(s).Yes? ==> 0 <= RefLimit(s).v <= D.MAX_INT
  {
    hide RefMulti, Skip, RefOrder, RefLimit;
    if "WHERE" <= s && Spaced(s[5..]) { MultiForm(Skip(s[5..])); }
    OrderForm(s);
    LimitForm(s);
  }

  lemma {:induction false} SelectForm(s: string)
    ensures RefSelect(s).Yes? ==> Q.WellFormed(RefSelect(s).v)
  {
    hide Skip, Spaced, RefSelector, RefSource, RefWhere, RefOrder, RefLimit;
    hide Q.WellFormedSelector, Q.WellFormedNamespace, Q.WellFormedCriteria, Q.WellFormedOrder;
    if "SELECT" <= s && Spaced(s[6..]) {
      SelectorForm(Skip(s[6..]));
      match RefSelector(Skip(s[6..])) {
        case No =>
        case Yes(sel, _, s1) =>
          SourceForm(Skip(s1));
          match RefSource(Skip(s1)) {
            case No =>
            case Yes(ns, _, s2) =>
              var (where, e1, s3) := Optional(s2, RefWhere(Skip(s2)));
              var (order, _, s4) := Optional(s3, RefOrder(Skip(s3)));
              TailClausesForm(Skip(s2));
              TailClausesForm(Skip(s3));
              TailClausesForm(Skip(s4));
          }
      }
    }
  }

  lemma {:induction false} DeleteForm(s: string)
    ensures RefDelete(s).Yes? ==> Q.WellFormed(RefDelete(s).v)
  {
    hide Skip, Spaced, RefSource, RefWhere, RefLimit;
    hide Q.WellFormedNamespace, Q.WellFormedCriteria;
    if "DELETE" <= s && Spaced(s[6..]) {
      SourceForm(Skip(s[6..]));
      match RefSource(Skip(s[6..])) {
        case No =>
        case Yes(ns, _, s1) =>
          var (where, e1, s2) := Optional(s1, RefWhere(Skip(s1)));
          TailClausesForm(Skip(s1));
          TailClausesForm(Skip(s2));
      }
    }
  }

  /** The queries the parser returns are exactly the well-formed ones. */
  lemma {:induction false} ParsedExactlyWellFormed(q: Q.Query)
    ensures (exists s :: Parsed(s) == Ok(q)) <==> Q.WellFormed(q)
  {
    hide RefSelect, RefDelete, Q.WellFormed, Print;
    if Q.WellFormed(q) { ParseUndoesPrint(q); }
    if s :| Parsed(s) == Ok(q) {
      SelectForm(s);
      DeleteForm(s);
    }
  }

  /** `SELECT * FROM ns` with or without a criterion. */
  function Asking(ns: string, c: Option<Q.Criteria>): Q.Query {
    Q.Query(Q.OpSelect, ns, Q.SimpleSelector("*"), c, None, 0)
  }

  /** The characters of namespaces, ids, publishers and references: a text asks for one of a single
      character exactly when that is a letter, a digit or one of a few others. */
  lemma {:induction false} OneCharacterNames(c: char)
    ensures var plain := 'a' <= c <= 'z' || 'A' <= c <= 'Z' || '0' <= c <= '9';
      && ((exists s :: Parsed(s) == Ok(Asking([c], None))) <==> plain || c in "-*")
      && ((exists s :: Parsed(s) == Ok(Asking("*", Some(Q.ValueCriteria("id", "=", [c]))))) <==> plain || c == ':')
      && ((exists s :: Parsed(s) == Ok(Asking("*", Some(Q.ValueCriteria("publisher", "=", [c]))))) <==> plain)
      && ((exists s :: Parsed(s) == Ok(Asking("*", Some(Q.ValueCriteria("source", "=", [c]))))) <==> plain)
      && ((exists s :: Parsed(s) == Ok(Asking("*", Some(Q.IndexCriteria("wki", [c]))))) <==> plain || c in "-:_/.")
  {
    var id, publisher, source := Q.ValueCriteria("id", "=", [c]), Q.ValueCriteria("publisher", "=", [c]), Q.ValueCriteria("source", "=", [c]);
    ParsedExactlyWellFormed(Asking([c], None));
    ParsedExactlyWellFormed(Asking("*", Some(id)));
    ParsedExactlyWellFormed(Asking("*", Some(publisher)));
    ParsedExactlyWellFormed(Asking("*", Some(source)));
    ParsedExactlyWellFormed(Asking("*", Some(Q.IndexCriteria("wki", [c]))));
    hide Parsed;
    OneCharacter(c);
  }

  lemma OneCharacter(c: char)
    ensures var plain := 'a' <= c <= 'z' || 'A' <= c <= 'Z' || '0' <= c <= '9';
      && (Q.WellFormedNamespace([c]) <==> plain || c in "-*")
      && (Q.WellFormedCriteria(Q.ValueCriteria("id", "=", [c])) <==> plain || c == ':')
      && (Q.WellFormedCriteria(Q.ValueCriteria("publisher", "=", [c])) <==> plain)
      && (Q.WellFormedCriteria(Q.ValueCriteria("source", "=", [c])) <==> plain)
      && (Q.WellFormedCriteria(Q.IndexCriteria("wki", [c])) <==> plain || c in "-:_/.")
  {
    assert [c][0] == c;
    if Q.NamespaceParts([c]) { assert Q.IsNamespaceChar([c][0]); }
  }
}
