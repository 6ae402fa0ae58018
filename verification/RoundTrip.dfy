/** Parsing undoes printing, for every well-formed query. */
module RoundTrip {
  import opened Std
  import opened Grammar
  import opened Peg
  import opened ParseState
  import opened Reference
  import opened Printer
  import D = Decimal
  import Q = Queries

  // ---- Criteria leaves ----

  lemma {:induction false} LeafReads(names: WordList, ops: WordList, k: Class, name: string, op: string, val: string,
      rest: string)
    requires FirstWord(names, PrintLeaf(name, op, val) + rest, 0) == Some(name)
    requires FirstWord(ops, op + (" " + (val + rest)), 0) == Some(op) && op != "" && !IsSpace(op[0])
    requires Of(k, val) && val != "" && Ends(rest)
    ensures RefLeaf(names, ops, k, PrintLeaf(name, op, val) + rest) == Yes(Leaf(name, op, val), None, rest)
  {
    hide FirstWord, Span, Skip;
    var v := val + rest;
    var o := op + (" " + v);
    assert PrintLeaf(name, op, val) + rest == name + (" " + o);
    DropWord(name, " " + o);
    assert o[0] == op[0] && v[0] == val[0];
    SkipSpace(o);
    DropWord(op, " " + v);
    assert InClass(k, v[0]);
    SkipSpace(v);
    SpanRead(k, val, rest);
  }

  lemma {:induction false} PairReads(ws: WordList, k: Class, name: string, op: string, val: string, rest: string)
    requires ws == [name] && op in {"=", "!="}
    requires Of(k, val) && val != "" && Ends(rest)
    ensures var s := PrintLeaf(name, op, val) + rest;
      RefLeaf(ws, EQUALITY_WORDS, k, s) == Yes(Leaf(name, op, val), None, rest) && s != "" && s[0] == name[0]
  {
    hide FirstWord, RefLeaf, EQUALITY_WORDS;
    assert name == ws[0] && name != "";
    EqualityHeads(op);
    HeadsRead(EQUALITY_WORDS, op, " " + (val + rest));
    var t := (" " + (op + (" " + val))) + rest;
    assert PrintLeaf(name, op, val) + rest == name + t;
    HeadsRead(ws, name, t);
    LeafReads(ws, EQUALITY_WORDS, k, name, op, val, rest);
  }

  lemma {:induction false} ValueReads(c: Q.Criteria, rest: string)
    requires c.ValueCriteria? && Q.WellFormedCriteria(c) && Ends(rest)
    ensures RefSimple(PrintAtom(c) + rest) == Yes(c, None, rest)
  {
    hide FirstWord, RefLeaf, EQUALITY_WORDS, RefRange, RefIndex, PrintLeaf;
    var s := PrintLeaf(c.sel, c.op, c.val) + rest;
    if c.sel == "id" {
      PairReads(ID_WORD, IdChars, "id", c.op, c.val, rest);
    } else if c.sel == "publisher" {
      PairReads(PUBLISHER_WORD, AlnumChars, "publisher", c.op, c.val, rest);
      Misses(ID_WORD, EQUALITY_WORDS, IdChars, s);
    } else {
      PairReads(SOURCE_WORD, AlnumChars, "source", c.op, c.val, rest);
      Misses(ID_WORD, EQUALITY_WORDS, IdChars, s);
      Misses(PUBLISHER_WORD, EQUALITY_WORDS, AlnumChars, s);
    }
  }

  lemma {:induction false} Misses(names: WordList, ops: WordList, k: Class, s: string)
    requires forall j :: 0 <= j < |names| ==> s == "" || names[j][0] != s[0]
    ensures RefLeaf(names, ops, k, s) == No
  {
    HeadsMiss(names, s);
  }

  lemma {:induction false} NoValue(s: string)
    requires s == "" || s[0] !in {'i', 'p', 's'}
    ensures RefValue(s) == No
  {
    Misses(ID_WORD, EQUALITY_WORDS, IdChars, s);
    Misses(PUBLISHER_WORD, EQUALITY_WORDS, AlnumChars, s);
    Misses(SOURCE_WORD, EQUALITY_WORDS, AlnumChars, s);
  }

  lemma {:induction false} NumberReads(n: int)
    requires 0 <= n
    ensures NumberOf(D.Show(n)) == KeptNum(n) && NumberError(D.Show(n), None) == TooLarge(n) && Of(Digits, D.Show(n))
  {
    D.ReadShow(n);
  }

  lemma {:induction false} RangeReads(c: Q.Criteria, rest: string)
    requires c.RangeCriteria? && ShapedCriteria(c) && Ends(rest)
    ensures RefSimple(PrintAtom(c) + rest) == Yes(KeptCriteria(c), CriteriaOverflow(c), rest)
  {
    hide FirstWord, RefLeaf, RefValue, D.Show, NumberOf, NumberError;
    var val := D.Show(c.num);
    var s := PrintAtom(c) + rest;
    assert s == c.sel + ((" " + (c.op + (" " + val))) + rest);
    assert s[0] == c.sel[0];
    NoValue(s);
    NumberReads(c.num);
    RangeHeads(c.sel);
    HeadsRead(RANGE_WORDS, c.sel, (" " + (c.op + (" " + val))) + rest);
    ComparisonReads(c.op, " " + (val + rest));
    LeafReads(RANGE_WORDS, COMPARISON_WORDS, Digits, c.sel, c.op, val, rest);
  }

  lemma {:induction false} IndexReads(c: Q.Criteria, rest: string)
    requires c.IndexCriteria? && Q.WellFormedCriteria(c) && Ends(rest)
    ensures RefSimple(PrintAtom(c) + rest) == Yes(c, None, rest)
  {
    hide FirstWord, RefLeaf, RefValue;
    var s := PrintAtom(c) + rest;
    assert s == "wki" + ((" " + ("=" + (" " + c.val))) + rest);
    assert s[0] == 'w';
    NoValue(s);
    RangeHeads("");
    assert RANGE_WORDS[0] == "timestamp" && RANGE_WORDS[1] == "counter";
    Misses(RANGE_WORDS, COMPARISON_WORDS, Digits, s);
    HeadsRead(WKI_WORD, "wki", (" " + ("=" + (" " + c.val))) + rest);
    HeadsRead(EQUALS_WORD, "=", " " + (c.val + rest));
    LeafReads(WKI_WORD, EQUALS_WORD, WkiChars, "wki", "=", c.val, rest);
  }

  lemma {:induction false} NoSimple(s: string)
    requires s == "" || s[0] in {'(', 'N', 'O', 'L'}
    ensures RefSimple(s) == No
  {
    NoValue(s);
    assert RANGE_WORDS[0] == "timestamp" && RANGE_WORDS[1] == "counter";
    Misses(RANGE_WORDS, COMPARISON_WORDS, Digits, s);
    Misses(WKI_WORD, EQUALS_WORD, WkiChars, s);
  }

  // ---- Criteria ----

  lemma {:induction false} AtomStarts(c: Q.Criteria, rest: string)
    requires ShapedCriteria(c)
    ensures !Spaced(PrintAtom(c) + rest)
  {
  }

  lemma {:induction false} AtomReads(c: Q.Criteria, rest: string)
    requires ShapedCriteria(c) && Ends(rest)
    ensures RefCompound(PrintAtom(c) + rest) == Yes(KeptCriteria(c), CriteriaOverflow(c), rest)
    decreases c, 3
  {
    hide RefSimple, RefMulti, PrintLeaf, Skip;
    var s := PrintAtom(c) + rest;
    match c {
      case ValueCriteria(_, _, _) => ValueReads(c, rest);
      case RangeCriteria(_, _, _) => RangeReads(c, rest);
      case IndexCriteria(_, _) => IndexReads(c, rest);
      case CompoundCriteria(_, _, _) =>
        hide PrintCriteria, RefCompound;
        ParensRead(c, rest);
      case NegatedCriteria(e) =>
        hide RefCompound;
        NotReads(e, rest);
    }
  }

  lemma {:induction false} ParensRead(c: Q.Criteria, rest: string)
    requires ShapedCriteria(c) && c.CompoundCriteria? && Ends(rest)
    ensures RefCompound("(" + (PrintCriteria(c) + ")") + rest) == Yes(KeptCriteria(c), CriteriaOverflow(c), rest)
    decreases c, 2
  {
    hide RefSimple, RefMulti, PrintCriteria;
    var s := "(" + (PrintCriteria(c) + ")") + rest;
    assert s[0] == '(' && s[1..] == PrintCriteria(c) + (")" + rest);
    NoSimple(s);
    NoNextAt(")" + rest);
    CriteriaReads(c, ")" + rest);
    DropWord(")", rest);
  }

  lemma {:induction false} NotReads(e: Q.Criteria, rest: string)
    requires ShapedCriteria(e) && Ends(rest)
    ensures RefCompound("NOT " + PrintAtom(e) + rest) == Yes(Q.NegatedCriteria(KeptCriteria(e)), CriteriaOverflow(e), rest)
    decreases e, 4
  {
    hide RefSimple, RefMulti, PrintAtom, Skip;
    var s := "NOT " + PrintAtom(e) + rest;
    var t := PrintAtom(e) + rest;
    assert s[0] == 'N' && s[3..] == " " + t && "NOT" <= s;
    NoSimple(s);
    AtomStarts(e, rest);
    SkipSpace(t);
    AtomReads(e, rest);
  }

  lemma {:induction false} NoNextAt(rest: string)
    requires rest == "" || rest[0] != ' '
    requires !Spaced(rest)
    ensures RefNext(rest) == No
  {
  }

  /** "AND"/"OR", a space on either side, then one atom. */
  lemma {:induction false} NextReads(op: string, right: Q.Criteria, rest: string)
    requires op in {"AND", "OR"} && ShapedCriteria(right) && Ends(rest)
    ensures RefNext(PrintNext(op, right) + rest) == Yes((op, KeptCriteria(right)), CriteriaOverflow(right), rest)
    ensures Ends(PrintNext(op, right) + rest)
    decreases right, 4
  {
    hide FirstWord, PrintAtom, Skip, RefCompound;
    var t := PrintAtom(right) + rest;
    var u := op + (" " + t);
    assert PrintNext(op, right) + rest == " " + u;
    assert u[0] == op[0];
    SkipSpace(u);
    BooleanHeads(op);
    HeadsRead(BOOLEAN_WORDS, op, " " + t);
    AtomStarts(right, rest);
    SkipSpace(t);
    AtomReads(right, rest);
  }

  /** Reading a printed chain is reading what follows with the chain on the left. */
  lemma {:induction false} ChainReads(c: Q.Criteria, rest: string)
    requires ShapedCriteria(c) && Ends(rest)
    ensures RefMulti(PrintCriteria(c) + rest) == RefTail(KeptCriteria(c), CriteriaOverflow(c), rest)
    decreases c, if c.CompoundCriteria? then 0 else 4
  {
    hide PrintAtom, PrintNext, RefCompound, RefNext;
    if c.CompoundCriteria? {
      var rest' := PrintNext(c.op, c.right) + rest;
      assert PrintCriteria(c) + rest == PrintCriteria(c.left) + rest';
      NextReads(c.op, c.right, rest);
      ChainReads(c.left, rest');
    } else {
      AtomReads(c, rest);
    }
  }

  lemma {:induction false} CriteriaReads(c: Q.Criteria, rest: string)
    requires ShapedCriteria(c) && Ends(rest) && RefNext(rest) == No
    ensures RefMulti(PrintCriteria(c) + rest) == Yes(KeptCriteria(c), CriteriaOverflow(c), rest)
    decreases c, if c.CompoundCriteria? then 1 else 5
  {
    hide PrintCriteria, RefMulti, RefNext;
    ChainReads(c, rest);
  }

  // ---- Selectors ----

  lemma {:induction false} NamesRead(ws: seq<string>, rest: string)
    requires |ws| > 0 && forall i :: 0 <= i < |ws| ==> Q.SimpleName(ws[i])
    ensures var s := PrintNames(ws) + rest;
      && FirstWord(SELECTOR_WORDS, s, 0) == Some(ws[0])
      && RefSelectors([ws[0]], s[|ws[0]|..]) == RefSelectors(ws, rest)
    decreases |ws|
  {
    hide FirstWord, Q.SimpleName, SELECTOR_WORDS, Heads, RefSelectors;
    var n := |ws| - 1;
    var w := ws[n];
    assert Q.SimpleName(w);
    if n == 0 {
      SelectorHeads(w);
      HeadsRead(SELECTOR_WORDS, w, rest);
      assert ws == [w];
    } else {
      var rest' := ("," + w) + rest;
      assert PrintNames(ws) + rest == PrintNames(ws[..n]) + rest';
      NamesRead(ws[..n], rest');
      OneNameMore(ws[..n], w, rest);
      assert ws[..n] + [w] == ws;
    }
  }

  lemma {:induction false} OneNameMore(acc: seq<string>, w: string, rest: string)
    requires Q.SimpleName(w)
    ensures RefSelectors(acc, ("," + w) + rest) == RefSelectors(acc + [w], rest)
  {
    hide FirstWord, Q.SimpleName, SELECTOR_WORDS, Heads;
    var s := ("," + w) + rest;
    SelectorHeads(w);
    assert s[1..] == w + rest && "," <= s;
    HeadsRead(SELECTOR_WORDS, w, rest);
    NameStarts(w, rest);
  }

  lemma NameStarts(w: string, rest: string)
    requires Q.SimpleName(w)
    ensures Skip(w + rest) == w + rest
  {
    assert (w + rest)[0] == w[0];
  }

  lemma {:induction false} SelectorReads(sel: Q.Selector, rest: string)
    requires Q.WellFormedSelector(sel)
    ensures RefSelector(PrintSelector(sel) + rest) == Yes(sel, None, rest)
  {
    hide FirstWord, Q.SimpleName, Q.FunctionName, PrintNames, RefSelectors, SELECTOR_WORDS, FUNCTION_WORDS, Heads;
    var s := PrintSelector(sel) + rest;
    match sel {
      case SimpleSelector(w) =>
        SelectorHeads(w);
        HeadsRead(SELECTOR_WORDS, w, rest);
      case CompoundSelector(ws) => CompoundReads(ws, rest);
      case FunctionSelector(f, w) => FunctionSelectorReads(f, w, rest);
    }
  }

  lemma {:induction false} CompoundReads(ws: seq<string>, rest: string)
    requires Q.WellFormedSelector(Q.CompoundSelector(ws))
    ensures RefSelector(PrintSelector(Q.CompoundSelector(ws)) + rest) == Yes(Q.CompoundSelector(ws), None, rest)
  {
    hide FirstWord, Q.SimpleName, Q.FunctionName, PrintNames, RefSelectors, SELECTOR_WORDS, FUNCTION_WORDS, Heads, RefFunctionSelector;
    var s, t := PrintSelector(Q.CompoundSelector(ws)) + rest, ")" + rest;
    assert s == "(" + (PrintNames(ws) + t) && s[0] == '(' && s[1..] == PrintNames(ws) + t;
    NoSelectorAt(s);
    NamesRead(ws, t);
    assert RefSelectors(ws, t) == (ws, t) by { NoMoreSelectors(ws, t); }
    DropWord(")", rest);
  }

  lemma {:induction false} FunctionSelectorReads(f: string, w: string, rest: string)
    requires Q.FunctionName(f) && Q.SimpleName(w)
    ensures RefSelector(PrintSelector(Q.FunctionSelector(f, w)) + rest) == Yes(Q.FunctionSelector(f, w), None, rest)
  {
    hide FirstWord, Q.SimpleName, Q.FunctionName, RefSelectors, SELECTOR_WORDS, FUNCTION_WORDS, Heads;
    var s, t := PrintSelector(Q.FunctionSelector(f, w)) + rest, w + (")" + rest);
    assert s == f + ("(" + t);
    assert s[0] == f[0] && f[0] in {'C', 'M'} by { FunctionStarts(f, "(" + t); }
    NoSelectorAt(s);
    FunctionReads(f, "(" + t);
    assert ("(" + t)[1..] == t;
    SelectorHeads(w);
    HeadsRead(SELECTOR_WORDS, w, ")" + rest);
    DropWord(")", rest);
  }

  lemma FunctionStarts(f: string, rest: string)
    requires Q.FunctionName(f)
    ensures (f + rest)[0] == f[0] && f[0] in {'C', 'M'}
  {
  }

  lemma NoSelectorAt(s: string)
    requires s != "" && s[0] in {'(', 'C', 'M'}
    ensures FirstWord(SELECTOR_WORDS, s, 0) == None
  {
    var ws := SELECTOR_WORDS;
    assert ws[0] == "*" && ws[1] == "body" && ws[2] == "id" && ws[3] == "publisher";
    assert ws[4] == "namespace" && ws[5] == "source" && ws[6] == "timestamp" && ws[7] == "counter";
    HeadsMiss(ws, s);
  }

  lemma NoMoreSelectors(acc: seq<string>, s: string)
    requires s == "" || s[0] != ','
    ensures RefSelectors(acc, s) == (acc, s)
  {
  }

  // ---- Namespaces ----

  /** A dotted tail: empty, or a dot and a part and so on. */
  predicate DottedTail(t: string) {
    && (t == "" || (t[0] == '.' && t[|t| - 1] != '.'))
    && (forall i :: 0 <= i < |t| ==> Q.IsNamespaceChar(t[i]) || t[i] == '.')
    && (forall i :: 0 <= i < |t| - 1 ==> !(t[i] == '.' && t[i + 1] == '.'))
  }

  lemma {:induction false} DotsStep(x: string)
    ensures var n := Span(NamespaceChars, x);
      DotsLength("." + x) == if n > 0 then 1 + n + DotsLength(x[n..]) else if "*" <= x then 2 else 0
  {
    hide Span;
    var s := "." + x;
    assert s[1..] == x && "." <= s;
  }

  lemma {:induction false} DotsRead(t: string, wild: string, rest: string)
    requires DottedTail(t) && wild in {"", ".*"} && Ends(rest)
    ensures DotsLength(t + wild + rest) == |t| + |wild|
    decreases |t|
  {
    hide Span, DotsLength;
    if t == "" {
      WildDots(wild, rest);
      assert t + wild == wild;
    } else {
      var u := t[1..];
      assert t[0] == '.' && u != "" && u[0] == t[1] && t[|t| - 1] == u[|u| - 1];
      forall i | 0 <= i < |u| - 1 ensures !(u[i] == '.' && u[i + 1] == '.') {
        assert u[i] == t[i + 1];
      }
      PartReads(u, wild, rest);
      var n := Span(NamespaceChars, u);
      assert t + wild + rest == "." + (u + wild + rest);
      DotsStep(u + wild + rest);
      PartStarts(u);
      TailOf(u, n);
      DotsRead(u[n..], wild, rest);
      DropInto(u, wild, rest, n);
    }
  }

  lemma DropInto(u: string, wild: string, rest: string, n: nat)
    requires n <= |u|
    ensures (u + wild + rest)[n..] == u[n..] + wild + rest
  {
  }

  lemma PartStarts(u: string)
    requires u != "" && Q.IsNamespaceChar(u[0])
    ensures Span(NamespaceChars, u) > 0
  {
  }

  lemma {:induction false} WildDots(wild: string, rest: string)
    requires wild in {"", ".*"} && Ends(rest)
    ensures DotsLength(wild + rest) == |wild|
  {
    if wild == ".*" {
      var x := "*" + rest;
      assert wild + rest == "." + x && x[0] == '*';
      SpanRead(NamespaceChars, "", x);
      assert "" + x == x;
      DotsStep(x);
    } else {
      assert wild + rest == rest;
    }
  }

  lemma {:induction false} PartReads(t: string, wild: string, rest: string)
    requires wild in {"", ".*"} && Ends(rest)
    requires forall i :: 0 <= i < |t| ==> Q.IsNamespaceChar(t[i]) || t[i] == '.'
    ensures Span(NamespaceChars, t + wild + rest) == Span(NamespaceChars, t)
  {
    var n := Span(NamespaceChars, t);
    var s := t + wild + rest;
    assert s == t[..n] + s[n..];
    assert s[n..] == "" || !InClass(NamespaceChars, s[n..][0]);
    SpanRead(NamespaceChars, t[..n], s[n..]);
  }

  lemma {:induction false} TailOf(t: string, n: nat)
    requires t != "" && n == Span(NamespaceChars, t) && n <= |t| && t[|t| - 1] != '.'
    requires forall i :: 0 <= i < |t| ==> Q.IsNamespaceChar(t[i]) || t[i] == '.'
    requires forall i :: 0 <= i < |t| - 1 ==> !(t[i] == '.' && t[i + 1] == '.')
    ensures DottedTail(t[n..])
  {
    hide Span;
    var u := t[n..];
    if u != "" {
      assert u[0] == t[n] && u[|u| - 1] == t[|t| - 1];
      forall i | 0 <= i < |u| - 1 ensures !(u[i] == '.' && u[i + 1] == '.') {
        assert u[i] == t[n + i] && u[i + 1] == t[n + i + 1];
      }
    }
  }

  lemma {:induction false} PartsRead(ns: string, wild: string, rest: string)
    requires Q.NamespaceParts(ns) && wild in {"", ".*"} && Ends(rest)
    ensures NamespaceLength(ns + wild + rest) == |ns| + |wild|
  {
    hide Span, DotsLength;
    var n := Span(NamespaceChars, ns);
    assert n > 0;
    PartReads(ns, wild, rest);
    TailOf(ns, n);
    DropInto(ns, wild, rest, n);
    DotsRead(ns[n..], wild, rest);
  }

  lemma {:induction false} NamespaceReads(ns: string, rest: string)
    requires Q.WellFormedNamespace(ns) && Ends(rest)
    ensures NamespaceLength(ns + rest) == |ns| && ns != "" && (ns + rest)[..|ns|] == ns && (ns + rest)[|ns|..] == rest
    ensures !Spaced(ns + rest)
  {
    hide NamespaceLength;
    if ns == "*" {
      WildReads(rest);
    } else if Q.NamespaceParts(ns) {
      assert ns + "" == ns;
      PartsRead(ns, "", rest);
      assert (ns + rest)[0] == ns[0];
    } else {
      var parts := ns[..|ns| - 2];
      assert parts + ".*" == ns;
      PartsRead(parts, ".*", rest);
      assert (ns + rest)[0] == parts[0];
    }
  }

  lemma {:induction false} WildReads(rest: string)
    requires Ends(rest)
    ensures NamespaceLength("*" + rest) == 1
  {
    SpanRead(NamespaceChars, "", "*" + rest);
    assert "" + ("*" + rest) == "*" + rest;
  }

  lemma {:induction false} SourceReads(ns: string, rest: string)
    requires Q.WellFormedNamespace(ns) && Ends(rest)
    ensures RefSource("FROM " + (ns + rest)) == Yes(ns, None, rest)
  {
    hide NamespaceLength, Skip;
    var s := "FROM " + (ns + rest);
    NamespaceReads(ns, rest);
    assert s[4..] == " " + (ns + rest) && "FROM" <= s;
    SkipSpace(ns + rest);
  }

  // ---- Order and limit ----

  lemma {:induction false} ItemReads(o: Q.OrderSpec, rest: string)
    requires Q.OrderName(o.sel) && Q.DirName(o.dir)
    requires Spaced(rest) ==> FirstWord(DIR_WORDS, Skip(rest), 0) == None
    ensures RefItem(PrintItem(o) + rest) == Yes(o, None, rest)
    ensures !Spaced(PrintItem(o) + rest)
  {
    hide FirstWord, Skip;
    OrderHeads(o.sel);
    if o.dir == "" {
      HeadsRead(ORDER_WORDS, o.sel, rest);
    } else {
      assert PrintItem(o) + rest == o.sel + (" " + (o.dir + rest));
      HeadsRead(ORDER_WORDS, o.sel, " " + (o.dir + rest));
      DirHeads(o.dir);
      HeadsRead(DIR_WORDS, o.dir, rest);
      assert (o.dir + rest)[0] == o.dir[0];
      SkipSpace(o.dir + rest);
    }
    assert (PrintItem(o) + rest)[0] == o.sel[0];
  }

  lemma {:induction false} ItemsRead(os: seq<Q.OrderSpec>, rest: string)
    requires Q.WellFormedOrder(os)
    requires Spaced(rest) ==> FirstWord(DIR_WORDS, Skip(rest), 0) == None
    ensures var s := PrintItems(os) + rest;
      && RefItem(s).Yes? && RefItem(s).v == os[0] && !Spaced(s)
      && RefItems([os[0]], RefItem(s).rest) == RefItems(os, rest)
    decreases |os|
  {
    hide FirstWord, Skip, PrintItem, RefItem, Q.OrderName, Q.DirName;
    var n := |os| - 1;
    if n == 0 {
      ItemReads(os[0], rest);
      assert os == [os[0]];
    } else {
      var rest' := ("," + PrintItem(os[n])) + rest;
      assert PrintItems(os) + rest == PrintItems(os[..n]) + rest';
      ItemsRead(os[..n], rest');
      assert rest'[1..] == PrintItem(os[n]) + rest && "," <= rest';
      ItemReads(os[n], rest);
      assert Skip(rest'[1..]) == rest'[1..] by { SkipNothing(rest'[1..]); }
      assert os[..n] + [os[n]] == os;
    }
  }

  lemma SkipNothing(s: string)
    requires !Spaced(s)
    ensures Skip(s) == s
  {
  }

  lemma OrderText(t: string)
    ensures var s := "ORDER BY " + t;
      "ORDER" <= s && s[5..] == " " + ("BY " + t) && "BY" <= "BY " + t && ("BY " + t)[2..] == " " + t
    ensures " ORDER BY " + t == " " + ("ORDER BY " + t)
  {
  }

  lemma {:induction false} OrderReads(os: seq<Q.OrderSpec>, rest: string)
    requires Q.WellFormedOrder(os) && (rest == "" || rest[0] != ',')
    requires Spaced(rest) ==> FirstWord(DIR_WORDS, Skip(rest), 0) == None
    ensures RefOrder("ORDER BY " + (PrintItems(os) + rest)) == Yes(os, None, rest)
  {
    ItemsRead(os, rest);
    hide FirstWord, Skip, PrintItems, RefItem, RefItems, Q.WellFormedOrder;
    var t := PrintItems(os) + rest;
    OrderText(t);
    SkipSpace("BY " + t);
    SkipSpace(t);
    NoMoreItems(os, rest);
  }

  lemma NoMoreItems(acc: seq<Q.OrderSpec>, s: string)
    requires s == "" || s[0] != ','
    ensures RefItems(acc, s) == (acc, s)
  {
  }

  lemma {:induction false} LimitReads(n: int)
    requires 0 <= n
    ensures RefLimit("LIMIT " + D.Show(n)) == Yes(KeptNum(n), TooLarge(n), "")
  {
    hide Skip, Span, NumberOf, NumberError, D.Show;
    var v := D.Show(n);
    var s := "LIMIT " + v;
    assert "LIMIT" <= s && s[5..] == " " + v;
    NumberReads(n);
    assert InClass(Digits, v[0]);
    SkipSpace(v);
    SpanRead(Digits, v, "");
    assert v + "" == v;
  }

  // ---- Whole queries ----

  /** Where nothing, or only " LIMIT ...", follows. */
  lemma {:induction false} LimitTail(n: int)
    requires 0 <= n
    ensures var s := PrintLimit(n);
      && Optional(s, RefLimit(Skip(s))) == (if n == 0 then None else Some(KeptNum(n)), TooLarge(n), "")
      && RefNext(s) == No && Ends(s) && RefWhere(Skip(s)) == No && RefOrder(Skip(s)) == No
      && (Spaced(s) ==> FirstWord(DIR_WORDS, Skip(s), 0) == None)
  {
    hide FirstWord, D.Show, RefLimit;
    var s := PrintLimit(n);
    if n > 0 {
      var t := "LIMIT " + D.Show(n);
      assert s == " " + t && t[0] == 'L';
      SkipSpace(t);
      LimitReads(n);
      assert BOOLEAN_WORDS[0] == "AND" && BOOLEAN_WORDS[1] == "OR";
      assert DIR_WORDS[0] == "ASC" && DIR_WORDS[1] == "DESC";
      HeadsMiss(BOOLEAN_WORDS, t);
      HeadsMiss(DIR_WORDS, t);
    }
  }

  /** " ORDER BY ..." is not an "OR" between criteria: the attempt fails on the missing space. */
  lemma {:induction false} OrderTail(o: Option<seq<Q.OrderSpec>>, n: int)
    requires 0 <= n && (o.Some? ==> Q.WellFormedOrder(o.value))
    ensures var s := PrintOrder(o) + PrintLimit(n);
      && Optional(s, RefOrder(Skip(s))) == (o, None, PrintLimit(n))
      && RefNext(s) == No && Ends(s) && RefWhere(Skip(s)) == No
  {
    var rest := PrintLimit(n);
    LimitTail(n);
    match o {
      case None =>
        assert PrintOrder(o) + rest == rest;
        OptionalNone(rest);
      case Some(os) =>
        assert |os| > 0;
        hide FirstWord, RefOrder, RefLimit, PrintLimit, PrintItems, Q.WellFormedOrder, Optional, RefNext, Skip, RefWhere;
        SomeOrderTail(os, rest);
    }
  }

  lemma {:induction false} SomeOrderTail(os: seq<Q.OrderSpec>, rest: string)
    requires Q.WellFormedOrder(os) && Ends(rest)
    requires Spaced(rest) ==> FirstWord(DIR_WORDS, Skip(rest), 0) == None
    ensures var s := " ORDER BY " + PrintItems(os) + rest;
      && Optional(s, RefOrder(Skip(s))) == (Some(os), None, rest)
      && RefNext(s) == No && Ends(s) && RefWhere(Skip(s)) == No
  {
    OrderReads(os, rest);
    hide FirstWord, RefOrder, PrintItems, Q.WellFormedOrder, Optional, RefNext, Skip, RefMulti, RefWhere;
    var t := PrintItems(os) + rest;
    var u := "ORDER BY " + t;
    OrderText(t);
    assert " ORDER BY " + PrintItems(os) + rest == " " + u;
    OrderChars(t);
    SkipSpace(u);
    OptionalSome(" " + u, os, rest);
    OrderIsNotOr(u);
    OrderIsNotWhere(u);
  }

  lemma OrderIsNotWhere(u: string)
    requires u != "" && u[0] == 'O'
    ensures RefWhere(u) == No
  {
    hide RefMulti, Skip;
    assert "WHERE"[0] == 'W';
  }

  lemma OrderChars(t: string)
    ensures var u := "ORDER BY " + t; |u| > 2 && u[0] == 'O' && u[2] == 'D'
  {
  }

  lemma OptionalNone(s: string)
    requires RefOrder(Skip(s)) == No
    ensures Optional(s, RefOrder(Skip(s))) == (None, None, s)
  {
  }

  lemma OptionalSome(s: string, os: seq<Q.OrderSpec>, rest: string)
    requires Spaced(s) && RefOrder(Skip(s)) == Yes(os, None, rest)
    ensures Optional(s, RefOrder(Skip(s))) == (Some(os), None, rest)
  {
  }

  lemma {:induction false} OrderIsNotOr(t: string)
    requires |t| > 2 && t[0] == 'O' && t[2] == 'D'
    ensures RefNext(" " + t) == No
  {
    hide FirstWord, RefCompound;
    SkipSpace(t);
    assert BOOLEAN_WORDS[0] == "AND" && BOOLEAN_WORDS[1] == "OR";
    if "OR" <= t {
      assert !("AND" <= t);
      FirstIs(BOOLEAN_WORDS, 1, t);
      assert t[2..][0] == 'D';
    } else {
      NoneIs(BOOLEAN_WORDS, t);
    }
  }

  lemma {:induction false} WhereTail(c: Option<Q.Criteria>, rest: string)
    requires c.Some? ==> ShapedCriteria(c.value)
    requires RefNext(rest) == No && Ends(rest) && RefWhere(Skip(rest)) == No
    ensures var s := PrintWhere(c) + rest;
      Optional(s, RefWhere(Skip(s)))
        == (if c.Some? then (Some(KeptCriteria(c.value)), CriteriaOverflow(c.value), rest) else (None, None, rest)) && Ends(s)
  {
    hide RefMulti, RefNext, PrintCriteria, ShapedCriteria, KeptCriteria, CriteriaOverflow, Skip;
    var s := PrintWhere(c) + rest;
    match c {
      case None => assert s == rest;
      case Some(d) =>
        hide Spaced;
        var t := PrintCriteria(d) + rest;
        var u := "WHERE " + t;
        WhereText(t);
        assert s == " " + u;
        SkipSpace(u);
        CriteriaStarts(d, rest);
        SkipSpace(t);
        CriteriaReads(d, rest);
    }
  }

  lemma WhereText(t: string)
    ensures var u := "WHERE " + t; "WHERE" <= u && u[5..] == " " + t && !Spaced(u)
  {
  }

  lemma {:induction false} CriteriaStarts(c: Q.Criteria, rest: string)
    requires ShapedCriteria(c)
    ensures !Spaced(PrintCriteria(c) + rest)
    decreases c
  {
    hide PrintAtom, PrintNext;
    if c.CompoundCriteria? {
      var rest' := PrintNext(c.op, c.right) + rest;
      assert PrintCriteria(c) + rest == PrintCriteria(c.left) + rest';
      CriteriaStarts(c.left, rest');
    } else {
      AtomStarts(c, rest);
    }
  }
}
