/** The SQL text the compiler prints denotes exactly the planned SELECT: lexing and
    parsing it with SQL's precedences gives back `Plan`. */
module CompileText {
  import opened Std
  import opened Queries
  import opened Compile
  import opened Sql
  import Decimal

  // ---- Lexing pieces ----

  /** Cutting text between `a` and `b` splits no token. */
  predicate Cut(a: string, b: string) {
    a == "" || b == "" || b[0] in " (),." || a[|a| - 1] in " (,."
  }

  /** The tokens of `a` followed by those of `b`. */
  function Append(a: Option<seq<Token>>, b: Option<seq<Token>>): Option<seq<Token>> {
    if a.Some? && b.Some? then Some(a.value + b.value) else None
  }

  lemma {:induction false} WordLenGlue(a: string, b: string)
    requires WordLen(a) < |a| || b == "" || !IsWordChar(b[0])
    ensures WordLen(a + b) == WordLen(a)
  {
    if a != "" && IsWordChar(a[0]) {
      WordLenGlue(a[1..], b);
      assert (a + b)[1..] == a[1..] + b;
    } else if a == "" {
      assert a + b == b;
    }
  }

  lemma {:induction false} QuoteLenGlue(a: string, b: string)
    requires QuoteLen(a) < |a|
    ensures QuoteLen(a + b) == QuoteLen(a)
  {
    if a[0] != '\'' {
      QuoteLenGlue(a[1..], b);
      assert (a + b)[1..] == a[1..] + b;
    }
  }

  /** The first token of `a` is the first token of `a + b`. */
  lemma MunchGlue(a: string, b: string)
    requires a != "" && Munch(a).Munched? && Cut(a, b)
    ensures Munch(a + b) == Munch(a)
  {
    var s := a + b;
    if IsWordChar(a[0]) {
      if WordLen(a) == |a| { assert IsWordChar(a[|a| - 1]); }
      WordLenGlue(a, b);
      assert s[..WordLen(a)] == a[..WordLen(a)];
    } else if a[0] == '\'' {
      var n := QuoteLen(a[1..]);
      assert s[1..] == a[1..] + b;
      QuoteLenGlue(a[1..], b);
      assert s[1..n + 1] == a[1..n + 1];
    } else if |a| > 1 {
      assert s[0] == a[0] && s[1] == a[1];
      assert s[..2] == [s[0], s[1]] && a[..2] == [a[0], a[1]];
    }
  }

  lemma {:induction false} LexGlue(a: string, b: string)
    requires Lex(a).Some? && Cut(a, b)
    ensures Lex(a + b) == Append(Lex(a), Lex(b))
    decreases |a|
  {
    hide Munch;
    if a == "" {
      assert a + b == b;
      assert Lex(b).Some? ==> [] + Lex(b).value == Lex(b).value;
    } else {
      MunchGlue(a, b);
      var m := Munch(a);
      var rest := a[m.n..];
      if rest != "" { assert rest[|rest| - 1] == a[|a| - 1]; }
      LexGlue(rest, b);
      assert (a + b)[m.n..] == rest + b;
      if Lex(b).Some? {
        assert m.toks + (Lex(rest).value + Lex(b).value) == (m.toks + Lex(rest).value) + Lex(b).value;
      }
    }
  }

  /** A text that is one token. */
  lemma LexOne(s: string, t: Token)
    requires s != "" && Munch(s) == Munched([t], |s|)
    ensures Lex(s) == Some([t])
  {
    hide Munch;
    assert s[|s|..] == "";
    assert Lex("") == Some([]);
    assert [t] + [] == [t];
  }

  /** A run of word characters is one token. */
  lemma LexWord(w: string)
    requires w != "" && forall i :: 0 <= i < |w| ==> IsWordChar(w[i])
    ensures Lex(w) == Some([WordToken(w)])
  {
    assert w[..|w|] == w;
    LexOne(w, WordToken(w));
  }

  /** A letter-initial word is a `Word` token. */
  lemma LexName(w: string)
    requires w != "" && !Decimal.IsDigit(w[0]) && forall i :: 0 <= i < |w| ==> IsWordChar(w[i])
    ensures Lex(w) == Some([Word(w)])
  {
    LexWord(w);
  }

  lemma LexNumber(n: nat)
    ensures Lex(Decimal.Show(n)) == Some([Num(n)])
  {
    var w := Decimal.Show(n);
    LexWord(w);
    Decimal.ReadShow(n);
  }

  lemma LexQuoted(v: string)
    requires '\'' !in v
    ensures Lex(Quote(v)) == Some([Str(v)])
  {
    var s := "'" + v + "'";
    assert s[0] == '\'' && s[1..] == v + "'";
    QuoteAt(v);
    assert s[1..|v| + 1] == v;
    LexOne(s, Str(v));
  }

  lemma {:induction false} QuoteAt(v: string)
    requires '\'' !in v
    ensures QuoteLen(v + "'") == |v|
  {
    if v != "" {
      QuoteAt(v[1..]);
      assert (v + "'")[1..] == v[1..] + "'";
    }
  }

  lemma LexSymbol(s: string)
    requires CompareOp(s) || s in {"(", ")", ",", "."}
    ensures Lex(s) == Some([Sym(s)])
  {
    if |s| == 2 {
      assert s[..2] == s;
    } else {
      assert [s[0]] == s;
    }
    LexOne(s, Sym(s));
  }

  /** `a`, a space, `b`. */
  lemma LexSpaced(a: string, b: string)
    requires Lex(a).Some?
    ensures Lex(a + " " + b) == Append(Lex(a), Lex(b))
  {
    LexGlue(a, " " + b);
    assert a + (" " + b) == a + " " + b;
    assert (" " + b)[1..] == b;
    assert Munch(" " + b) == Munched([], 1);
    assert Lex(b).Some? ==> [] + Lex(b).value == Lex(b).value;
  }

  /** `a` in parentheses. */
  lemma LexParens(a: string)
    requires Lex(a).Some?
    ensures Lex("(" + a + ")") == Some([Sym("(")] + Lex(a).value + [Sym(")")])
  {
    LexSymbol("(");
    LexSymbol(")");
    LexGlue(a, ")");
    LexGlue("(", a + ")");
    assert "(" + (a + ")") == "(" + a + ")";
    assert [Sym("(")] + (Lex(a).value + [Sym(")")]) == [Sym("(")] + Lex(a).value + [Sym(")")];
  }

  // ---- Columns ----

  function FieldName(f: Field): string {
    match f
    case Id => "id"
    case Data => "data"
    case Counter => "counter"
    case Namespace => "namespace"
    case Publisher => "publisher"
    case Source => "source"
    case Timestamp => "timestamp"
    case Wki => "wki"
  }

  function TableName(t: Table): string {
    match t
    case StatementTable => "Statement"
    case EnvelopeTable => "Envelope"
    case RefsTable => "Refs"
  }

  function ColumnText(c: Column): string {
    if c.table.Some? then TableName(c.table.value) + "." + FieldName(c.field) else FieldName(c.field)
  }

  function ColumnTokens(c: Column): seq<Token> {
    if c.table.Some? then [Word(TableName(c.table.value)), Sym("."), Word(FieldName(c.field))]
    else [Word(FieldName(c.field))]
  }

  lemma LexColumn(c: Column)
    ensures Lex(ColumnText(c)) == Some(ColumnTokens(c))
  {
    hide Munch, Lex;
    LexName(FieldName(c.field));
    if c.table.Some? {
      var t := TableName(c.table.value);
      LexName(t);
      LexSymbol(".");
      LexGlue(".", FieldName(c.field));
      LexGlue(t, "." + FieldName(c.field));
      assert t + ("." + FieldName(c.field)) == ColumnText(c);
      assert [Word(t)] + ([Sym(".")] + [Word(FieldName(c.field))]) == ColumnTokens(c);
    }
  }

  lemma ParseColumnTokens(c: Column, rest: seq<Token>)
    ensures ParseColumn(ColumnTokens(c) + rest) == Some((c, rest))
  {
    var ts := ColumnTokens(c) + rest;
    assert FieldNamed(FieldName(c.field)) == Some(c.field);
    if c.table.Some? {
      assert TableNamed(TableName(c.table.value)) == c.table;
      assert ts[3..] == rest;
    } else {
      assert TableNamed(FieldName(c.field)) == None;
      assert ts[1..] == rest;
    }
  }

  /** The text the compiler prints for a selector's column, DISTINCT aside. */
  lemma DisambigText(sel: string, join: bool)
    requires SimpleName(sel) && sel !in {"*", "body"}
    ensures DisambigSelector(sel, join) == ColumnText(PlanColumn(sel, join))
    ensures sel == FieldName(SelectorField(sel))
  {
  }

  // ---- Criteria ----

  function CriteriaTokens(c: Criteria, join: bool): seq<Token>
    requires WellFormedCriteria(c)
  {
    match c
    case ValueCriteria(sel, op, val) => ColumnTokens(PlanColumn(sel, join)) + [Sym(op), Str(val)]
    case RangeCriteria(sel, op, num) => ColumnTokens(PlanColumn(sel, false)) + [Sym(op), Num(num)]
    case IndexCriteria(_, val) => [Word("wki"), Sym("="), Str(val)]
    case CompoundCriteria(op, l, r) =>
      [Sym("(")] + (CriteriaTokens(l, join) + [Word(op)] + CriteriaTokens(r, join)) + [Sym(")")]
    case NegatedCriteria(e) => [Word("NOT")] + CriteriaTokens(e, join)
  }

  /** column op literal */
  lemma LexComparison(col: string, cs: seq<Token>, op: string, lit: string, t: Token)
    requires Lex(col) == Some(cs) && CompareOp(op) && Lex(lit) == Some([t])
    ensures Lex(col + " " + op + " " + lit) == Some(cs + [Sym(op), t])
  {
    hide Munch, Lex;
    LexSymbol(op);
    LexSpaced(col, op);
    LexSpaced(col + " " + op, lit);
    assert cs + [Sym(op)] + [t] == cs + [Sym(op), t];
  }

  /** left op right */
  lemma LexBinary(lt: string, op: string, rt: string)
    requires Lex(lt).Some? && Lex(rt).Some? && Lex(op) == Some([Word(op)])
    ensures Lex(lt + " " + op + " " + rt) == Some(Lex(lt).value + [Word(op)] + Lex(rt).value)
  {
    hide Munch, Lex;
    LexSpaced(lt, op);
    LexSpaced(lt + " " + op, rt);
  }

  lemma {:induction false} LexCriteria(c: Criteria, join: bool)
    requires WellFormedCriteria(c)
    ensures Lex(CompileSelectorCriteria(c, join)) == Some(CriteriaTokens(c, join))
  {
    hide Munch, Lex;
    match c {
      case ValueCriteria(sel, op, val) =>
        var col := PlanColumn(sel, join);
        DisambigText(sel, join);
        LexColumn(col);
        LexQuoted(val);
        LexComparison(ColumnText(col), ColumnTokens(col), op, Quote(val), Str(val));
      case RangeCriteria(sel, op, num) =>
        var col := PlanColumn(sel, false);
        DisambigText(sel, false);
        LexColumn(col);
        LexNumber(num);
        LexComparison(ColumnText(col), ColumnTokens(col), op, Decimal.Show(num), Num(num));
      case IndexCriteria(sel, val) =>
        LexColumn(Column(None, Wki));
        LexQuoted(val);
        LexComparison("wki", [Word("wki")], "=", Quote(val), Str(val));
        assert [Word("wki")] + [Sym("="), Str(val)] == CriteriaTokens(c, join);
      case CompoundCriteria(op, l, r) =>
        LexCriteria(l, join);
        LexCriteria(r, join);
        LexName(op);
        LexBinary(CompileSelectorCriteria(l, join), op, CompileSelectorCriteria(r, join));
        LexParens(CompileSelectorCriteria(l, join) + " " + op + " " + CompileSelectorCriteria(r, join));
      case NegatedCriteria(e) =>
        LexCriteria(e, join);
        LexName("NOT");
        LexSpaced("NOT", CompileSelectorCriteria(e, join));
    }
  }

  lemma ParseComparison(c: Column, op: string, t: Token, rest: seq<Token>)
    requires CompareOp(op) && (t.Str? || t.Num?)
    ensures ParseNot(ColumnTokens(c) + [Sym(op), t] + rest)
         == Some((Compare(c, op, if t.Str? then LStr(t.s) else LNum(t.n)), rest))
  {
    var ts := ColumnTokens(c) + [Sym(op), t] + rest;
    var tail := [Sym(op), t] + rest;
    assert ts == ColumnTokens(c) + tail;
    ParseColumnTokens(c, tail);
    assert tail[2..] == rest;
    assert ts[0] == ColumnTokens(c)[0];
  }

  /** Inside parentheses: two phrases that read back alone read back around an operator. */
  lemma ParseBinary(op: string, lp: Expr, rp: Expr, left: seq<Token>, right: seq<Token>, after: seq<Token>)
    requires op in {"AND", "OR"} && Starts(after, Sym(")"))
    requires ParseNot(left) == Some((lp, [Word(op)] + right))
    requires ParseNot(right) == Some((rp, after))
    ensures ParseOr(left) == Some((if op == "AND" then And(lp, rp) else Or(lp, rp), after))
  {
    hide ParseNot;
    var mid := [Word(op)] + right;
    assert mid[1..] == right;
    assert AndTail(rp, after) == Some((rp, after));
    if op == "AND" {
      assert AndTail(lp, mid) == AndTail(And(lp, rp), after) == Some((And(lp, rp), after));
      assert ParseAnd(left) == Some((And(lp, rp), after));
      assert OrTail(And(lp, rp), after) == Some((And(lp, rp), after));
    } else {
      assert ParseAnd(left) == AndTail(lp, mid) == Some((lp, mid));
      assert ParseAnd(right) == Some((rp, after));
      assert OrTail(lp, mid) == OrTail(Or(lp, rp), after) == Some((Or(lp, rp), after));
    }
  }

  lemma ParseParenthesised(e: Expr, inner: seq<Token>, rest: seq<Token>)
    requires ParseOr(inner) == Some((e, [Sym(")")] + rest))
    ensures ParseNot([Sym("(")] + inner) == Some((e, rest))
  {
    hide ParseOr;
    assert ([Sym("(")] + inner)[1..] == inner;
    assert ([Sym(")")] + rest)[1..] == rest;
  }

  lemma Regroup<T>(open: seq<T>, l: seq<T>, mid: seq<T>, r: seq<T>, close: seq<T>, rest: seq<T>)
    ensures open + (l + mid + r) + close + rest == open + (l + (mid + (r + (close + rest))))
  {
  }

  lemma ParseNegated(e: Expr, inner: seq<Token>, rest: seq<Token>)
    requires ParseNot(inner) == Some((e, rest))
    ensures ParseNot([Word("NOT")] + inner) == Some((Not(e), rest))
  {
    assert ([Word("NOT")] + inner)[1..] == inner;
  }

  /** Printed criteria read back as the same tree, whatever follows: a compound is
      always in parentheses, so neither NOT nor a neighbouring AND captures part of it. */
  lemma {:induction false} ParseCriteria(c: Criteria, join: bool, rest: seq<Token>)
    requires WellFormedCriteria(c)
    ensures ParseNot(CriteriaTokens(c, join) + rest) == Some((PlanCriteria(c, join), rest))
    decreases c
  {
    hide ParseNot;
    match c {
      case ValueCriteria(sel, op, val) =>
        ParseComparison(PlanColumn(sel, join), op, Str(val), rest);
      case RangeCriteria(sel, op, num) =>
        ParseComparison(PlanColumn(sel, false), op, Num(num), rest);
      case IndexCriteria(sel, val) =>
        ParseComparison(Column(None, Wki), "=", Str(val), rest);
        assert ColumnTokens(Column(None, Wki)) + [Sym("="), Str(val)] == CriteriaTokens(c, join);
      case CompoundCriteria(op, l, r) =>
        var after := [Sym(")")] + rest;
        var right := CriteriaTokens(r, join) + after;
        var left := CriteriaTokens(l, join) + ([Word(op)] + right);
        ParseCriteria(l, join, [Word(op)] + right);
        ParseCriteria(r, join, after);
        ParseBinary(op, PlanCriteria(l, join), PlanCriteria(r, join), left, right, after);
        ParseParenthesised(PlanCriteria(c, join), left, rest);
        Regroup([Sym("(")], CriteriaTokens(l, join), [Word(op)], CriteriaTokens(r, join), [Sym(")")], rest);
      case NegatedCriteria(e) =>
        ParseCriteria(e, join, rest);
        ParseNegated(PlanCriteria(e, join), CriteriaTokens(e, join) + rest, rest);
        assert CriteriaTokens(c, join) + rest == [Word("NOT")] + (CriteriaTokens(e, join) + rest);
    }
  }

  // ---- Select list ----

  /** Token lists separated by commas. */
  function CommaTokens(parts: seq<seq<Token>>): seq<Token> {
    if parts == [] then []
    else if |parts| == 1 then parts[0]
    else parts[0] + [Sym(",")] + CommaTokens(parts[1..])
  }

  lemma {:induction false} LexCommas(texts: seq<string>, toks: seq<seq<Token>>)
    requires |texts| == |toks| > 0
    requires forall i :: 0 <= i < |texts| ==> Lex(texts[i]) == Some(toks[i])
    ensures Lex(Commas(texts)) == Some(CommaTokens(toks))
  {
    hide Munch, Lex;
    if |texts| > 1 {
      LexCommas(texts[1..], toks[1..]);
      LexSymbol(",");
      LexGlue(texts[0], ",");
      LexSpaced(texts[0] + ",", Commas(texts[1..]));
      assert texts[0] + "," + " " == texts[0] + ", ";
    }
  }

  function ColumnsTokens(cols: seq<Column>): seq<Token> {
    CommaTokens(seq(|cols|, i requires 0 <= i < |cols| => ColumnTokens(cols[i])))
  }

  /** What may follow a list: a keyword or nothing. */
  predicate Ends(rest: seq<Token>) {
    rest == [] || rest[0] in {Word("FROM"), Word("WHERE"), Word("ORDER"), Word("LIMIT")}
  }

  lemma {:induction false} ParseColumnsTokens(cols: seq<Column>, rest: seq<Token>)
    requires cols != [] && Ends(rest)
    ensures ParseColumns(ColumnsTokens(cols) + rest) == Some((cols, rest))
    decreases |cols|
  {
    hide ParseColumn;
    if |cols| == 1 {
      ParseColumnTokens(cols[0], rest);
      assert ColumnsTokens(cols) == ColumnTokens(cols[0]);
      assert cols == [cols[0]];
    } else {
      var parts := seq(|cols|, i requires 0 <= i < |cols| => ColumnTokens(cols[i]));
      var tail := ColumnsTokens(cols[1..]) + rest;
      assert parts[1..] == seq(|cols| - 1, i requires 0 <= i < |cols| - 1 => ColumnTokens(cols[1..][i]));
      ParseColumnTokens(cols[0], [Sym(",")] + tail);
      assert ColumnsTokens(cols) + rest == ColumnTokens(cols[0]) + ([Sym(",")] + tail);
      assert ([Sym(",")] + tail)[1..] == tail;
      ParseColumnsTokens(cols[1..], rest);
      assert cols == [cols[0]] + cols[1..];
    }
  }

  function WhatTokens(w: What): seq<Token> {
    match w
    case Columns(dist, cols) => (if dist then [Word("DISTINCT")] else []) + ColumnsTokens(cols)
    case Aggregate(fn, dist, arg) =>
      [Word(fn), Sym("(")]
      + ((if dist then [Word("DISTINCT")] else [])
         + (if arg.Const? then [Num(arg.n)] else ColumnTokens(arg.col)))
      + [Sym(")")]
  }

  lemma ParseWhatTokens(w: What, rest: seq<Token>)
    requires Ends(rest)
    requires w.Columns? ==> w.cols != []
    requires w.Aggregate? ==> FunctionName(w.fn)
    ensures ParseWhat(WhatTokens(w) + rest) == Some((w, rest))
  {
    match w {
      case Columns(dist, cols) =>
        ParseColumnsTokens(cols, rest);
        ColumnsStart(cols, rest);
        ParseColumnList(dist, cols, ColumnsTokens(cols), rest);
      case Aggregate(fn, dist, arg) =>
        ParseAggregate(fn, dist, arg, rest);
    }
  }

  lemma ParseColumnList(dist: bool, cols: seq<Column>, toks: seq<Token>, rest: seq<Token>)
    requires ParseColumns(toks + rest) == Some((cols, rest))
    requires |toks + rest| > 0 && (toks + rest)[0].Word?
    requires !FunctionName((toks + rest)[0].w) && (toks + rest)[0].w != "DISTINCT"
    ensures ParseWhat((if dist then [Word("DISTINCT")] else []) + toks + rest) == Some((Columns(dist, cols), rest))
  {
    hide ParseColumns, ParseColumn;
    var ts := (if dist then [Word("DISTINCT")] else []) + toks + rest;
    if dist {
      assert ts[1..] == toks + rest;
    } else {
      assert ts == toks + rest;
    }
  }

  lemma ParseAggregate(fn: string, dist: bool, arg: Operand, rest: seq<Token>)
    requires FunctionName(fn)
    ensures ParseWhat(WhatTokens(Aggregate(fn, dist, arg)) + rest) == Some((Aggregate(fn, dist, arg), rest))
  {
    hide ParseColumn, ParseColumns;
    var ts := WhatTokens(Aggregate(fn, dist, arg)) + rest;
    var argToks := if arg.Const? then [Num(arg.n)] else ColumnTokens(arg.col);
    var close := [Sym(")")] + rest;
    var body := argToks + close;
    if dist {
      assert ts == [Word(fn), Sym("("), Word("DISTINCT")] + body;
      assert ts[3..] == body;
    } else {
      assert ts == [Word(fn), Sym("(")] + body;
      assert ts[2..] == body;
      assert ts[2] == argToks[0] != Word("DISTINCT");
    }
    assert close[1..] == rest;
    if arg.Const? {
      assert body[2..] == rest;
    } else {
      ParseColumnTokens(arg.col, close);
    }
  }

  /** A column list starts with a field or table name, and no function call. */
  lemma ColumnsStart(cols: seq<Column>, rest: seq<Token>)
    requires cols != []
    ensures var ts := ColumnsTokens(cols) + rest;
      |ts| > 0 && ts[0].Word? && !FunctionName(ts[0].w) && ts[0].w != "DISTINCT"
  {
    assert ColumnTokens(cols[0])[0].Word?;
  }

  /** The compiled select list, and that it parses as planned. */
  lemma LexColumns(q: Query, join: bool)
    requires WellFormed(q) && Compilable(q)
    ensures CompileQueryColumns(q, join).Ok?
    ensures Lex(CompileQueryColumns(q, join).value) == Some(WhatTokens(PlanWhat(q.selector, join)))
  {
    hide Munch, Lex;
    match q.selector {
      case SimpleSelector(sel) =>
        LexSimpleColumn(sel, join);
        assert [PlanColumn(sel, join)] == seq(1, i requires 0 <= i < 1 => PlanColumn(sel, join));
      case CompoundSelector(sels) =>
        if |sels| == 1 {
          LexSimpleColumn(sels[0], join);
        } else {
          LexCompoundColumns(sels, join);
        }
      case FunctionSelector(fn, arg) =>
        LexFunctionColumn(fn, arg, join);
    }
  }

  lemma LexDistinct(col: string)
    requires DistinctName(col)
    ensures Lex("DISTINCT " + col) == Some([Word("DISTINCT"), Word(col)])
  {
    hide Munch, Lex;
    LexName("DISTINCT");
    LexName(col);
    LexSpaced("DISTINCT", col);
    assert "DISTINCT" + " " + col == "DISTINCT " + col;
    assert [Word("DISTINCT")] + [Word(col)] == [Word("DISTINCT"), Word(col)];
  }

  lemma LexSimpleColumn(sel: string, join: bool)
    requires SimpleName(sel)
    ensures Lex(DisambigSelector(SelectorColumn(sel, COLUMNS_SIMPLE), join))
         == Some(WhatTokens(Columns(DistinctName(sel), [PlanColumn(sel, join)])))
  {
    hide Munch, Lex;
    var c := PlanColumn(sel, join);
    var toks := ColumnTokens(c);
    assert ColumnsTokens([c]) == toks;
    LexColumn(c);
    if DistinctName(sel) {
      LexDistinct(sel);
      assert SelectorColumn(sel, COLUMNS_SIMPLE) == "DISTINCT " + sel;
      assert [Word("DISTINCT")] + toks == [Word("DISTINCT"), Word(sel)];
    } else {
      assert [] + toks == toks;
      if sel !in {"*", "body"} { DisambigText(sel, join); }
    }
  }

  lemma LexCompoundColumns(sels: seq<string>, join: bool)
    requires |sels| > 1 && forall i :: 0 <= i < |sels| ==> SimpleName(sels[i])
    ensures Lex(Commas(seq(|sels|, i requires 0 <= i < |sels| =>
              DisambigSelector(SelectorColumn(sels[i], COLUMNS_COMPOUND), join))))
         == Some(WhatTokens(PlanWhat(CompoundSelector(sels), join)))
  {
    hide Munch, Lex;
    var texts := seq(|sels|, i requires 0 <= i < |sels| =>
      DisambigSelector(SelectorColumn(sels[i], COLUMNS_COMPOUND), join));
    var cols := seq(|sels|, i requires 0 <= i < |sels| => PlanColumn(sels[i], join));
    var toks := seq(|sels|, i requires 0 <= i < |sels| => ColumnTokens(cols[i]));
    forall i | 0 <= i < |sels| ensures Lex(texts[i]) == Some(toks[i]) {
      LexColumn(cols[i]);
      if sels[i] !in {"*", "body"} { DisambigText(sels[i], join); }
    }
    LexCommas(texts, toks);
    assert toks == seq(|cols|, i requires 0 <= i < |cols| => ColumnTokens(cols[i]));
    assert [] + ColumnsTokens(cols) == ColumnsTokens(cols);
  }

  function FunctionColumnTokens(arg: string, join: bool): seq<Token>
    requires SimpleName(arg)
  {
    if arg in {"*", "body"} then [Num(1)]
    else (if DistinctName(arg) then [Word("DISTINCT")] else []) + ColumnTokens(PlanColumn(arg, join))
  }

  lemma LexFunctionArgument(fn: string, arg: string, join: bool)
    requires CheckFunctionSelector(fn, arg) && SimpleName(arg)
    ensures Lex(DisambigSelector(SelectorColumn(arg, COLUMNS_FUNCTION), join)) == Some(FunctionColumnTokens(arg, join))
  {
    hide Munch, Lex;
    if arg in {"*", "body"} {
      LexWord("1");
      assert Decimal.Read("1") == 1 by { assert "1"[..0] == ""; }
    } else {
      var c := PlanColumn(arg, join);
      LexColumn(c);
      DisambigText(arg, join);
      if DistinctName(arg) {
        LexDistinct(arg);
        assert SelectorColumn(arg, COLUMNS_FUNCTION) == "DISTINCT " + arg;
        assert [Word("DISTINCT")] + ColumnTokens(c) == [Word("DISTINCT"), Word(arg)];
      } else {
        assert [] + ColumnTokens(c) == ColumnTokens(c);
      }
    }
  }

  lemma FunctionTokens(fn: string, arg: string, join: bool)
    requires CheckFunctionSelector(fn, arg)
    ensures SimpleName(arg) && WellFormedSelector(FunctionSelector(fn, arg))
    ensures WhatTokens(PlanWhat(FunctionSelector(fn, arg), join))
         == [Word(fn), Sym("(")] + FunctionColumnTokens(arg, join) + [Sym(")")]
  {
    hide ColumnTokens, PlanColumn;
    assert [] + [Num(1)] == [Num(1)];
    assert arg in {"*", "body"} ==> !DistinctName(arg);
  }

  lemma LexFunctionName(fn: string)
    requires FunctionName(fn)
    ensures Lex(fn) == Some([Word(fn)])
  {
    hide Lex, Munch;
    LexName(fn);
  }

  lemma LexFunctionColumn(fn: string, arg: string, join: bool)
    requires CheckFunctionSelector(fn, arg)
    ensures Lex(fn + "(" + DisambigSelector(SelectorColumn(arg, COLUMNS_FUNCTION), join) + ")")
         == Some(WhatTokens(PlanWhat(FunctionSelector(fn, arg), join)))
  {
    FunctionTokens(fn, arg, join);
    LexFunctionName(fn);
    hide Munch, Lex, DisambigSelector, SelectorColumn, WhatTokens, PlanWhat, FunctionColumnTokens;
    LexFunctionArgument(fn, arg, join);
    var text := DisambigSelector(SelectorColumn(arg, COLUMNS_FUNCTION), join);
    LexGlueCall(fn, text);
  }

  lemma LexGlueCall(fn: string, text: string)
    requires Lex(fn) == Some([Word(fn)]) && Lex(text).Some?
    ensures Lex(fn + "(" + text + ")") == Some([Word(fn), Sym("(")] + Lex(text).value + [Sym(")")])
  {
    hide Munch, Lex;
    LexSymbol("(");
    LexGlue(fn, "(");
    LexGlue(fn + "(", text);
    LexSymbol(")");
    LexGlue(fn + "(" + text, ")");
    assert [Word(fn)] + [Sym("(")] == [Word(fn), Sym("(")];
  }
}
