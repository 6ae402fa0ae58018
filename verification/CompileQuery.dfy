/** `CompileQuery`: the text it builds step by step is the planned SELECT. */
module CompileQuery {
  import opened Std
  import opened Queries
  import opened Compile
  import opened CompileText
  import opened Sql
  import Decimal

  // ---- Clause texts and their tokens ----

  const ENVELOPE_JOIN := Join(EnvelopeTable, STATEMENT_ID, ENVELOPE_ID)
  const REFS_JOIN := Join(RefsTable, ENVELOPE_ID, REFS_ID)

  function JoinText(j: Join): string {
    "JOIN" + " " + TableName(j.table) + " " + "ON" + " " + ColumnText(j.left) + " " + "=" + " " + ColumnText(j.right)
  }

  function BaseText(b: Base): string {
    if b == Both then "Statement" + " " + JoinText(ENVELOPE_JOIN) else TableName(BaseTable(b))
  }

  function BaseTable(b: Base): Table {
    if b == EnvelopeAlone then EnvelopeTable else StatementTable
  }

  function JoinTokens(js: seq<Join>): seq<Token> {
    if js == [] then [] else OneJoin(js[0]) + JoinTokens(js[1..])
  }

  function OneJoin(j: Join): seq<Token> {
    [Word("JOIN"), Word(TableName(j.table)), Word("ON")] + ColumnTokens(j.left) + [Sym("=")] + ColumnTokens(j.right)
  }

  lemma LexJoin(j: Join)
    ensures Lex(JoinText(j)) == Some(OneJoin(j))
  {
    hide Munch, Lex;
    var t := TableName(j.table);
    LexName("JOIN");
    LexName(t);
    LexName("ON");
    LexSymbol("=");
    LexColumn(j.left);
    LexColumn(j.right);
    hide ColumnText, ColumnTokens;
    LexSpaced("JOIN", t);
    LexSpaced("JOIN" + " " + t, "ON");
    var head := "JOIN" + " " + t + " " + "ON";
    assert [Word("JOIN")] + [Word(t)] + [Word("ON")] == [Word("JOIN"), Word(t), Word("ON")];
    LexSpaced(head, ColumnText(j.left));
    LexSpaced(head + " " + ColumnText(j.left), "=");
    LexSpaced(head + " " + ColumnText(j.left) + " " + "=", ColumnText(j.right));
  }

  /** FROM text: the base, and the index table when a `wki` criterion needs it. */
  function FromText(b: Base, index: bool): string {
    if index then BaseText(b) + " " + JoinText(REFS_JOIN) else BaseText(b)
  }

  function FromTokens(b: Base, index: bool): seq<Token> {
    [Word(TableName(BaseTable(b)))] + JoinTokens(PlanJoins(b, index))
  }

  lemma JoinTokensOne(j: Join)
    ensures JoinTokens([j]) == OneJoin(j)
  {
    hide OneJoin;
    assert [j][1..] == [];
    assert OneJoin(j) + [] == OneJoin(j);
  }

  lemma LexBase(b: Base)
    ensures Lex(BaseText(b)) == Some(FromTokens(b, false))
  {
    hide Munch, Lex, OneJoin, JoinText;
    LexName(TableName(BaseTable(b)));
    var w := [Word(TableName(BaseTable(b)))];
    if b == Both {
      LexJoin(ENVELOPE_JOIN);
      LexSpaced("Statement", JoinText(ENVELOPE_JOIN));
      assert PlanJoins(b, false) == [ENVELOPE_JOIN];
      JoinTokensOne(ENVELOPE_JOIN);
    } else {
      assert PlanJoins(b, false) == [];
      assert w + [] == w;
    }
  }

  lemma {:induction false} JoinTokensSnoc(js: seq<Join>, j: Join)
    ensures JoinTokens(js + [j]) == JoinTokens(js) + JoinTokens([j])
  {
    hide ColumnTokens;
    if js == [] {
      assert js + [j] == [j];
      assert [] + JoinTokens([j]) == JoinTokens([j]);
    } else {
      JoinTokensSnoc(js[1..], j);
      assert (js + [j])[1..] == js[1..] + [j];
      Assoc(OneJoin(js[0]), JoinTokens(js[1..]), JoinTokens([j]));
    }
  }

  lemma LexFrom(b: Base, index: bool)
    ensures Lex(FromText(b, index)) == Some(FromTokens(b, index))
  {
    hide Munch, Lex, OneJoin, JoinText, BaseText;
    LexBase(b);
    if index {
      LexJoin(REFS_JOIN);
      LexSpaced(BaseText(b), JoinText(REFS_JOIN));
      assert PlanJoins(b, true) == PlanJoins(b, false) + [REFS_JOIN];
      JoinTokensSnoc(PlanJoins(b, false), REFS_JOIN);
      JoinTokensOne(REFS_JOIN);
      Assoc([Word(TableName(BaseTable(b)))], JoinTokens(PlanJoins(b, false)), JoinTokens([REFS_JOIN]));
    }
  }

  lemma {:induction false} ParseJoinTokens(js: seq<Join>, rest: seq<Token>)
    requires Ends(rest)
    ensures ParseJoins(JoinTokens(js) + rest) == Some((js, rest))
    decreases |js|
  {
    if js == [] {
      assert JoinTokens(js) + rest == rest;
    } else {
      var after := JoinTokens(js[1..]) + rest;
      ParseJoinTokens(js[1..], rest);
      ParseOneJoin(js[0], js[1..], after, rest);
      Assoc(OneJoin(js[0]), JoinTokens(js[1..]), rest);
      assert js == [js[0]] + js[1..];
    }
  }

  lemma ParseOneJoin(j: Join, js: seq<Join>, after: seq<Token>, rest: seq<Token>)
    requires ParseJoins(after) == Some((js, rest))
    ensures ParseJoins(OneJoin(j) + after) == Some(([j] + js, rest))
  {
    hide ParseColumn;
    var head := [Word("JOIN"), Word(TableName(j.table)), Word("ON")];
    var right := ColumnTokens(j.right) + after;
    var left := ColumnTokens(j.left) + ([Sym("=")] + right);
    ParseColumnTokens(j.left, [Sym("=")] + right);
    ParseColumnTokens(j.right, after);
    hide ColumnTokens;
    var ts := OneJoin(j) + after;
    assert ts == head + left;
    DropPrefix(head, left);
    DropPrefix([Sym("=")], right);
    assert TableNamed(TableName(j.table)) == Some(j.table);
  }

  // ---- WHERE ----

  function NamespaceTokens(ns: string): seq<Token>
    requires |ns| > 0
  {
    if ns == "*" then []
    else if |ns| > 1 && ns[|ns| - 1] == '*' then [Word("namespace"), Word("LIKE"), Str(ns[..|ns| - 2] + "%")]
    else [Word("namespace"), Sym("="), Str(ns)]
  }

  function WhereTokens(q: Query, join: bool): seq<Token>
    requires WellFormed(q)
  {
    var ns := NamespaceTokens(q.namespace);
    if q.criteria == None then ns
    else
      var c := CriteriaTokens(q.criteria.value, join);
      if ns != [] then ns + [Word("AND")] + c else c
  }

  /** A namespace text has no quote, so it cannot end its string literal early. */
  lemma NamespaceChars(ns: string)
    requires WellFormedNamespace(ns)
    ensures forall i :: 0 <= i < |ns| ==> IsNamespaceChar(ns[i]) || ns[i] == '.' || ns[i] == '*'
    ensures |ns| > 1 && ns[|ns| - 1] == '*' ==> |ns| > 2 && NamespaceParts(ns[..|ns| - 2])
  {
    if ns != "*" && !NamespaceParts(ns) {
      var head, last := ns[..|ns| - 2], ns[|ns| - 2..];
      forall i | 0 <= i < |ns| ensures IsNamespaceChar(ns[i]) || ns[i] == '.' || ns[i] == '*' {
        if i < |head| { assert ns[i] == head[i]; } else { assert ns[i] == last[i - |head|]; }
      }
    }
  }

  lemma LexNamespace(ns: string)
    requires WellFormedNamespace(ns)
    ensures Lex(CompileNamespaceCriteria(ns)) == Some(NamespaceTokens(ns))
    ensures CompileNamespaceCriteria(ns) == "" <==> ns == "*"
    ensures NamespaceTokens(ns) == [] <==> ns == "*"
  {
    NamespaceChars(ns);
    if ns == "*" {
      assert Lex("") == Some([]);
    } else if |ns| > 1 && ns[|ns| - 1] == '*' {
      LexLike(ns[..|ns| - 2] + "%");
    } else {
      LexEqual(ns);
    }
  }

  lemma LexLike(pat: string)
    requires '\'' !in pat
    ensures Lex("namespace" + " " + "LIKE" + " " + Quote(pat)) == Some([Word("namespace"), Word("LIKE"), Str(pat)])
  {
    hide Munch, Lex, Quote;
    LexName("namespace");
    LexName("LIKE");
    LexQuoted(pat);
    LexBinary("namespace", "LIKE", Quote(pat));
    assert [Word("namespace")] + [Word("LIKE")] + [Str(pat)] == [Word("namespace"), Word("LIKE"), Str(pat)];
  }

  lemma LexEqual(ns: string)
    requires '\'' !in ns
    ensures Lex("namespace" + " " + "=" + " " + Quote(ns)) == Some([Word("namespace"), Sym("="), Str(ns)])
  {
    hide Munch, Lex, Quote;
    LexName("namespace");
    LexQuoted(ns);
    LexComparison("namespace", [Word("namespace")], "=", Quote(ns), Str(ns));
    assert [Word("namespace")] + [Sym("="), Str(ns)] == [Word("namespace"), Sym("="), Str(ns)];
  }

  lemma LexWhere(q: Query, join: bool)
    requires WellFormed(q)
    ensures Lex(CompileQueryCriteria(q, join)) == Some(WhereTokens(q, join))
    ensures CompileQueryCriteria(q, join) == "" <==> PlanWhere(q, join) == None
    ensures WhereTokens(q, join) == [] <==> PlanWhere(q, join) == None
  {
    LexNamespace(q.namespace);
    hide Munch, Lex;
    if q.criteria.Some? {
      var c := q.criteria.value;
      LexCriteria(c, join);
      CriteriaNotEmpty(c, join);
      if q.namespace != "*" {
        LexName("AND");
        LexBinary(CompileNamespaceCriteria(q.namespace), "AND", CompileSelectorCriteria(c, join));
      }
    }
  }

  lemma CriteriaNotEmpty(c: Criteria, join: bool)
    requires WellFormedCriteria(c)
    ensures CompileSelectorCriteria(c, join) != "" && CriteriaTokens(c, join) != []
  {
  }

  lemma ParseNamespace(ns: string, rest: seq<Token>)
    requires WellFormedNamespace(ns) && ns != "*"
    ensures ParseNot(NamespaceTokens(ns) + rest) == Some((PlanNamespace(ns).value, rest))
  {
    var c := Column(None, Namespace);
    if |ns| > 1 && ns[|ns| - 1] == '*' {
      var lit := Str(ns[..|ns| - 2] + "%");
      var tail := [Word("LIKE"), lit] + rest;
      assert NamespaceTokens(ns) + rest == ColumnTokens(c) + tail;
      ParseColumnTokens(c, tail);
      assert tail[2..] == rest;
    } else {
      ParseComparison(c, "=", Str(ns), rest);
      assert NamespaceTokens(ns) == ColumnTokens(c) + [Sym("="), Str(ns)];
    }
  }

  /** An AND of two phrases, with nothing that could extend it. */
  lemma ParseConjunction(a: Expr, left: seq<Token>, c: Expr, right: seq<Token>, rest: seq<Token>)
    requires Ends(rest)
    requires ParseNot(left) == Some((a, [Word("AND")] + right))
    requires ParseNot(right) == Some((c, rest))
    ensures ParseOr(left) == Some((And(a, c), rest))
  {
    hide ParseNot;
    var mid := [Word("AND")] + right;
    assert mid[1..] == right;
    assert AndTail(And(a, c), rest) == Some((And(a, c), rest));
    assert ParseAnd(left) == AndTail(a, mid) == Some((And(a, c), rest));
    assert OrTail(And(a, c), rest) == Some((And(a, c), rest));
  }

  lemma ParseSingle(e: Expr, ts: seq<Token>, rest: seq<Token>)
    requires Ends(rest)
    requires ParseNot(ts) == Some((e, rest))
    ensures ParseOr(ts) == Some((e, rest))
  {
    hide ParseNot;
    assert AndTail(e, rest) == Some((e, rest));
    assert ParseAnd(ts) == Some((e, rest));
    assert OrTail(e, rest) == Some((e, rest));
  }

  /** The WHERE clause reads back as (namespace test AND criteria). */
  lemma ParseWhereTokens(q: Query, join: bool, rest: seq<Token>)
    requires WellFormed(q) && Ends(rest) && PlanWhere(q, join).Some?
    ensures ParseOr(WhereTokens(q, join) + rest) == Some((PlanWhere(q, join).value, rest))
  {
    LexNamespace(q.namespace);
    hide ParseNot, ParseOr, Lex, CriteriaTokens, NamespaceTokens;
    if q.criteria == None {
      ParseNamespace(q.namespace, rest);
      ParseSingle(PlanNamespace(q.namespace).value, NamespaceTokens(q.namespace) + rest, rest);
    } else {
      var c := q.criteria.value;
      ParseCriteria(c, join, rest);
      var right := CriteriaTokens(c, join) + rest;
      if q.namespace != "*" {
        var ns := NamespaceTokens(q.namespace);
        ParseNamespace(q.namespace, [Word("AND")] + right);
        ParseConjunction(PlanNamespace(q.namespace).value, ns + ([Word("AND")] + right),
          PlanCriteria(c, join), right, rest);
        Assoc4(ns, [Word("AND")], CriteriaTokens(c, join), rest);
      } else {
        ParseSingle(PlanCriteria(c, join), right, rest);
      }
    }
  }

  // ---- ORDER BY ----

  function OrderSpecTokens(spec: OrderSpec, join: bool): seq<Token>
    requires OrderName(spec.sel)
  {
    ColumnTokens(PlanColumn(spec.sel, join)) + (if spec.dir != "" then [Word(spec.dir)] else [])
  }

  function OrderTokens(o: seq<OrderSpec>, join: bool): seq<Token>
    requires forall i :: 0 <= i < |o| ==> OrderName(o[i].sel)
  {
    CommaTokens(seq(|o|, i requires 0 <= i < |o| => OrderSpecTokens(o[i], join)))
  }

  lemma LexOrder(o: seq<OrderSpec>, join: bool)
    requires WellFormedOrder(o)
    ensures Lex(Commas(seq(|o|, i requires 0 <= i < |o| => OrderText(o[i], join)))) == Some(OrderTokens(o, join))
  {
    hide Munch, Lex;
    var texts := seq(|o|, i requires 0 <= i < |o| => OrderText(o[i], join));
    var toks := seq(|o|, i requires 0 <= i < |o| => OrderSpecTokens(o[i], join));
    forall i | 0 <= i < |o| ensures Lex(texts[i]) == Some(toks[i]) {
      var c := PlanColumn(o[i].sel, join);
      DisambigText(o[i].sel, join);
      LexColumn(c);
      if o[i].dir != "" {
        LexName(o[i].dir);
        LexSpaced(ColumnText(c), o[i].dir);
      } else {
        assert ColumnTokens(c) + [] == ColumnTokens(c);
      }
    }
    LexCommas(texts, toks);
  }

  function PlanOrders(o: seq<OrderSpec>, join: bool): seq<Order>
    requires WellFormedOrder(o)
  {
    seq(|o|, i requires 0 <= i < |o| => Order(PlanColumn(o[i].sel, join), o[i].dir == "DESC"))
  }

  lemma {:induction false} ParseOrderTokens(o: seq<OrderSpec>, join: bool, rest: seq<Token>)
    requires WellFormedOrder(o) && Ends(rest)
    ensures ParseOrders(OrderTokens(o, join) + rest) == Some((PlanOrders(o, join), rest))
    decreases |o|
  {
    hide ParseColumn, ParseOrders, ColumnTokens, PlanColumn;
    var c := PlanColumn(o[0].sel, join);
    var dir := if o[0].dir != "" then [Word(o[0].dir)] else [];
    var first := Order(c, o[0].dir == "DESC");
    if |o| == 1 {
      assert OrderTokens(o, join) == ColumnTokens(c) + dir;
      Assoc(ColumnTokens(c), dir, rest);
      ParseColumnTokens(c, dir + rest);
      OrderStep(OrderTokens(o, join) + rest, c, o[0].dir, rest);
      assert PlanOrders(o, join) == [first];
    } else {
      var o' := o[1..];
      var tail := OrderTokens(o', join) + rest;
      var after := [Sym(",")] + tail;
      OrderTokensCons(o, join);
      Assoc4(ColumnTokens(c) + dir, [Sym(",")], OrderTokens(o', join), rest);
      Assoc(ColumnTokens(c), dir, after);
      ParseColumnTokens(c, dir + after);
      OrderStep(OrderTokens(o, join) + rest, c, o[0].dir, after);
      DropPrefix([Sym(",")], tail);
      ParseOrderTokens(o', join, rest);
      assert PlanOrders(o, join) == [first] + PlanOrders(o', join);
    }
  }

  lemma OrderTokensCons(o: seq<OrderSpec>, join: bool)
    requires WellFormedOrder(o) && |o| > 1
    ensures OrderTokens(o, join) == OrderSpecTokens(o[0], join) + [Sym(",")] + OrderTokens(o[1..], join)
  {
    var o' := o[1..];
    var parts := seq(|o|, i requires 0 <= i < |o| => OrderSpecTokens(o[i], join));
    assert parts[1..] == seq(|o'|, i requires 0 <= i < |o'| => OrderSpecTokens(o'[i], join));
  }

  /** Reading one ORDER BY column and its direction. */
  lemma OrderStep(ts: seq<Token>, c: Column, dir: string, after: seq<Token>)
    requires DirName(dir) && !Starts(after, Word("ASC")) && !Starts(after, Word("DESC"))
    requires ParseColumn(ts) == Some((c, (if dir != "" then [Word(dir)] else []) + after))
    ensures ParseOrders(ts) ==
              if Starts(after, Sym(",")) then
                (match ParseOrders(after[1..])
                 case None => None
                 case Some((os, rest)) => Some(([Order(c, dir == "DESC")] + os, rest)))
              else Some(([Order(c, dir == "DESC")], after))
  {
    hide ParseColumn;
    if dir != "" {
      assert ([Word(dir)] + after)[1..] == after;
    } else {
      assert [] + after == after;
    }
  }

  // ---- The whole statement ----

  function LimitTokens(limit: int): seq<Token> {
    if limit > 0 then [Word("LIMIT"), Num(limit)] else []
  }

  function OrderClause(q: Query, join: bool): seq<Token>
    requires WellFormed(q)
  {
    if q.order == None then [] else [Word("ORDER"), Word("BY")] + OrderTokens(q.order.value, join)
  }

  function WhereClause(q: Query, join: bool): seq<Token>
    requires WellFormed(q)
  {
    if PlanWhere(q, join) == None then [] else [Word("WHERE")] + WhereTokens(q, join)
  }

  function SelectTokens(q: Query, b: Base): seq<Token>
    requires WellFormed(q)
  {
    var join := PlanJoins(b, HasIndex(q)) != [];
    [Word("SELECT")] + WhatTokens(PlanWhat(q.selector, join)) + [Word("FROM")] + FromTokens(b, HasIndex(q))
    + WhereClause(q, join) + OrderClause(q, join) + LimitTokens(q.limit)
  }

  lemma ParseTailPieces(what: What, table: Table, jt: seq<Token>, w: seq<Token>, o: seq<Token>, l: seq<Token>,
                        joins: seq<Join>, where: Option<Expr>, order: seq<Order>, limit: Option<nat>)
    requires ParseJoins(jt + (w + (o + l))) == Some((joins, w + (o + l)))
    requires ParseWhere(w + (o + l)) == Some((where, o + l))
    requires ParseOrder(o + l) == Some((order, l))
    requires ParseLimit(l) == Some((limit, []))
    ensures ParseTail(what, [Word(TableName(table))] + (jt + (w + (o + l))))
         == Some(Select(what, table, joins, where, order, limit))
  {
    hide ParseJoins, ParseWhere, ParseOrder, ParseLimit;
    DropPrefix([Word(TableName(table))], jt + (w + (o + l)));
    assert TableNamed(TableName(table)) == Some(table);
  }

  lemma ParseWhereClause(q: Query, join: bool, rest: seq<Token>)
    requires WellFormed(q) && Ends(rest) && !Starts(rest, Word("WHERE"))
    ensures ParseWhere(WhereClause(q, join) + rest) == Some((PlanWhere(q, join), rest))
  {
    hide ParseOr, WhereTokens, PlanWhere;
    if PlanWhere(q, join) == None {
      assert [] + rest == rest;
    } else {
      ParseWhereTokens(q, join, rest);
      Assoc([Word("WHERE")], WhereTokens(q, join), rest);
      DropPrefix([Word("WHERE")], WhereTokens(q, join) + rest);
    }
  }

  lemma ParseOrderClause(q: Query, join: bool, rest: seq<Token>)
    requires WellFormed(q) && Ends(rest) && !Starts(rest, Word("ORDER"))
    ensures ParseOrder(OrderClause(q, join) + rest) == Some((PlanOrder(q, join), rest))
  {
    hide ParseOrders, OrderTokens;
    if q.order == None {
      assert [] + rest == rest;
    } else {
      ParseOrderTokens(q.order.value, join, rest);
      Assoc([Word("ORDER"), Word("BY")], OrderTokens(q.order.value, join), rest);
      DropPrefix([Word("ORDER"), Word("BY")], OrderTokens(q.order.value, join) + rest);
      assert PlanOrders(q.order.value, join) == PlanOrder(q, join);
    }
  }

  lemma ParseTailTokens(q: Query, b: Base, what: What)
    requires WellFormed(q)
    ensures var join := PlanJoins(b, HasIndex(q)) != [];
      ParseTail(what, FromTokens(b, HasIndex(q)) + (WhereClause(q, join) + (OrderClause(q, join) + LimitTokens(q.limit))))
      == Some(Select(what, BaseTable(b), PlanJoins(b, HasIndex(q)), PlanWhere(q, join), PlanOrder(q, join),
                if q.limit > 0 then Some(q.limit) else None))
  {
    hide ParseJoins, ParseWhere, ParseOrder, PlanWhere, PlanOrder, OrderTokens, WhereTokens, JoinTokens;
    var joins := PlanJoins(b, HasIndex(q));
    var join := joins != [];
    var l := LimitTokens(q.limit);
    var o := OrderClause(q, join);
    var w := WhereClause(q, join);
    assert Ends(o + l) && Ends(w + (o + l));
    ParseJoinTokens(joins, w + (o + l));
    ParseWhereClause(q, join, o + l);
    ParseOrderClause(q, join, l);
    assert q.limit > 0 ==> l[2..] == [];
    var limit := if q.limit > 0 then Some(q.limit) else None;
    ParseTailPieces(what, BaseTable(b), JoinTokens(joins), w, o, l, joins, PlanWhere(q, join), PlanOrder(q, join), limit);
    Assoc([Word(TableName(BaseTable(b)))], JoinTokens(joins), w + (o + l));
  }

  lemma ParseSelectTokens(q: Query, b: Base)
    requires WellFormed(q)
    ensures ParseTokens(SelectTokens(q, b)) == Some(PlanOver(q, b))
  {
    hide ParseTail, ParseWhat, PlanWhere, PlanOrder, PlanWhat, WhatTokens, FromTokens, WhereClause, OrderClause, LimitTokens;
    var join := PlanJoins(b, HasIndex(q)) != [];
    var what := PlanWhat(q.selector, join);
    var f := FromTokens(b, HasIndex(q)) + (WhereClause(q, join) + (OrderClause(q, join) + LimitTokens(q.limit)));
    Assoc7([Word("SELECT")], WhatTokens(what), [Word("FROM")], FromTokens(b, HasIndex(q)), WhereClause(q, join),
      OrderClause(q, join), LimitTokens(q.limit));
    DropPrefix([Word("SELECT")], WhatTokens(what) + ([Word("FROM")] + f));
    PlanWhatShape(q, join);
    ParseWhatTokens(what, [Word("FROM")] + f);
    DropPrefix([Word("FROM")], f);
    ParseTailTokens(q, b, what);
  }

  lemma PlanWhatShape(q: Query, join: bool)
    requires WellFormed(q)
    ensures var w := PlanWhat(q.selector, join);
      (w.Columns? ==> w.cols != []) && (w.Aggregate? ==> FunctionName(w.fn))
  {
  }

  /** Adding a keyword clause to the text adds its tokens. */
  lemma LexClause(text: string, toks: seq<Token>, kw: string, kwToks: seq<Token>, body: string, bodyToks: seq<Token>)
    requires Lex(text) == Some(toks) && Lex(kw) == Some(kwToks) && Lex(body) == Some(bodyToks)
    ensures Lex(text + " " + kw + " " + body) == Some(toks + (kwToks + bodyToks))
  {
    hide Munch, Lex;
    LexSpaced(text, kw);
    LexSpaced(text + " " + kw, body);
    assert toks + kwToks + bodyToks == toks + (kwToks + bodyToks);
  }

  lemma LexOrderBy()
    ensures Lex("ORDER BY") == Some([Word("ORDER"), Word("BY")])
  {
    hide Munch, Lex;
    LexName("ORDER");
    LexName("BY");
    LexSpaced("ORDER", "BY");
    assert "ORDER" + " " + "BY" == "ORDER BY";
    assert [Word("ORDER")] + [Word("BY")] == [Word("ORDER"), Word("BY")];
  }

  /** SELECT columns FROM tables */
  lemma LexHead(q: Query, b: Base, cols: string)
    requires WellFormed(q)
    requires var join := PlanJoins(b, HasIndex(q)) != [];
      Lex(cols) == Some(WhatTokens(PlanWhat(q.selector, join)))
    ensures var join := PlanJoins(b, HasIndex(q)) != [];
      Lex("SELECT" + " " + cols + " " + "FROM" + " " + FromText(b, HasIndex(q)))
      == Some([Word("SELECT")] + WhatTokens(PlanWhat(q.selector, join)) + [Word("FROM")] + FromTokens(b, HasIndex(q)))
  {
    hide Munch, Lex;
    LexName("SELECT");
    LexName("FROM");
    LexFrom(b, HasIndex(q));
    LexSpaced("SELECT", cols);
    LexSpaced("SELECT" + " " + cols, "FROM");
    LexSpaced("SELECT" + " " + cols + " " + "FROM", FromText(b, HasIndex(q)));
  }

  // ---- The text, clause by clause ----

  function WithClause(text: string, kw: string, body: string): string {
    if body == "" then text else text + " " + kw + " " + body
  }

  function HeadText(q: Query, cols: string): string {
    "SELECT" + " " + cols + " " + "FROM" + " " + FromText(BaseOf(q), HasIndex(q))
  }

  function LimitText(limit: int): string { if limit > 0 then Decimal.Show(limit) else "" }

  function FullText(q: Query, cols: string, join: bool): string
    requires |q.namespace| > 0
  {
    WithClause(
      WithClause(WithClause(HeadText(q, cols), "WHERE", CompileQueryCriteria(q, join)),
        "ORDER BY", CompileQueryOrder(q, join)),
      "LIMIT", LimitText(q.limit))
  }

  /** An optional clause adds its tokens, or nothing. */
  lemma LexWithClause(text: string, toks: seq<Token>, kw: string, kwToks: seq<Token>, body: string, clause: seq<Token>)
    requires Lex(text) == Some(toks) && Lex(kw) == Some(kwToks)
    requires body == "" ==> clause == []
    requires body != "" ==> Lex(body).Some? && clause == kwToks + Lex(body).value
    ensures Lex(WithClause(text, kw, body)) == Some(toks + clause)
  {
    hide Munch, Lex;
    if body == "" {
      assert toks + [] == toks;
    } else {
      LexClause(text, toks, kw, kwToks, body, Lex(body).value);
    }
  }

  lemma LexWhereClause(q: Query, join: bool, text: string, toks: seq<Token>)
    requires WellFormed(q) && Lex(text) == Some(toks)
    ensures Lex(WithClause(text, "WHERE", CompileQueryCriteria(q, join))) == Some(toks + WhereClause(q, join))
  {
    hide Munch, Lex, CompileQueryCriteria, WhereTokens, PlanWhere, WithClause;
    LexName("WHERE");
    LexWhere(q, join);
    LexWithClause(text, toks, "WHERE", [Word("WHERE")], CompileQueryCriteria(q, join), WhereClause(q, join));
  }

  lemma LexOrderClause(q: Query, join: bool, text: string, toks: seq<Token>)
    requires WellFormed(q) && Lex(text) == Some(toks)
    ensures Lex(WithClause(text, "ORDER BY", CompileQueryOrder(q, join))) == Some(toks + OrderClause(q, join))
  {
    hide Munch, Lex, OrderTokens, WithClause;
    LexOrderBy();
    if q.order.Some? {
      LexOrder(q.order.value, join);
      OrderNotEmpty(q, join);
    }
    LexWithClause(text, toks, "ORDER BY", [Word("ORDER"), Word("BY")], CompileQueryOrder(q, join), OrderClause(q, join));
  }

  lemma LexLimitClause(limit: int, text: string, toks: seq<Token>)
    requires Lex(text) == Some(toks)
    ensures Lex(WithClause(text, "LIMIT", LimitText(limit))) == Some(toks + LimitTokens(limit))
  {
    hide Munch, Lex, WithClause;
    LexName("LIMIT");
    if limit > 0 {
      LexNumber(limit);
      assert [Word("LIMIT")] + [Num(limit)] == LimitTokens(limit);
    }
    LexWithClause(text, toks, "LIMIT", [Word("LIMIT")], LimitText(limit), LimitTokens(limit));
  }

  /** The full text denotes the planned SELECT. */
  lemma ParseFullText(q: Query, join: bool)
    requires WellFormed(q) && Compilable(q)
    requires join == (PlanJoins(BaseOf(q), HasIndex(q)) != [])
    ensures CompileQueryColumns(q, join).Ok?
    ensures Parse(FullText(q, CompileQueryColumns(q, join).value, join)) == Some(Plan(q))
  {
    assert |q.namespace| > 0;
    hide Munch, Lex, WithClause, CompileQueryColumns, CompileQueryCriteria, CompileQueryOrder, LimitText, HasIndex,
      WhatTokens, WhereClause, OrderClause, LimitTokens, FromTokens, ParseTokens, PlanWhat, WellFormed, FromText, BaseOf;
    LexColumns(q, join);
    var cols := CompileQueryColumns(q, join).value;
    var text := HeadText(q, cols);
    LexHead(q, BaseOf(q), cols);
    var toks := Lex(text).value;
    LexWhereClause(q, join, text, toks);
    var text1 := WithClause(text, "WHERE", CompileQueryCriteria(q, join));
    LexOrderClause(q, join, text1, toks + WhereClause(q, join));
    var text2 := WithClause(text1, "ORDER BY", CompileQueryOrder(q, join));
    LexLimitClause(q.limit, text2, toks + WhereClause(q, join) + OrderClause(q, join));
    assert Lex(FullText(q, cols, join)) == Some(SelectTokens(q, BaseOf(q)));
    ParseSelectTokens(q, BaseOf(q));
  }

  /** The format `CompileQuery` starts from, with a hole for the columns. */
  function Format(from: string): string { "SELECT " + "%s" + (" FROM " + from) }

  function JoinClause(tab: string): string {
    "JOIN" + " " + tab + " " + "ON" + " " + ("Envelope" + "." + "id") + " " + "=" + " " + (tab + "." + "id")
  }

  lemma FormatJoined(from: string, tab: string)
    ensures Format(from) + " " + JoinClause(tab) == Format(from + " " + JoinClause(tab))
  {
    hide JoinClause;
    var j := JoinClause(tab);
    Assoc(from, " ", j);
    Assoc(" FROM ", from, " " + j);
    Assoc("SELECT " + "%s", " FROM " + from, " " + j);
    Assoc("SELECT " + "%s" + (" FROM " + from), " ", j);
  }

  lemma FilledHead(q: Query, cols: string)
    ensures Fill(Format(FromText(BaseOf(q), HasIndex(q))), cols) == HeadText(q, cols)
  {
    hide FromText, HasIndex, BaseOf;
    var from := FromText(BaseOf(q), HasIndex(q));
    FillAt("SELECT ", " FROM " + from, cols);
    assert "SELECT " + cols + (" FROM " + from) == "SELECT" + " " + cols + " " + "FROM" + " " + from;
  }

  /** The join clauses of these selectors' tables, in this order. */
  function JoinClauses(tabs: map<string, string>, order: seq<string>): string
    requires forall sel :: sel in order ==> sel in tabs
  {
    if order == [] then ""
    else
      var n := |order| - 1;
      assert forall sel :: sel in order[..n] ==> sel in order;
      JoinClauses(tabs, order[..n]) + (" " + JoinClause(tabs[order[n]]))
  }

  lemma OneMoreJoin(tabs: map<string, string>, order: seq<string>, sel: string)
    requires (forall s :: s in order ==> s in tabs) && sel in tabs && sel !in order && Distinct(order)
    ensures Distinct(order + [sel]) && Elements(order + [sel]) == Elements(order) + {sel}
    ensures forall s :: s in order + [sel] ==> s in tabs
    ensures JoinClauses(tabs, order + [sel]) == JoinClauses(tabs, order) + (" " + JoinClause(tabs[sel]))
  {
    assert (order + [sel])[..|order|] == order;
    hide JoinClause;
  }

  /** The selectors of the map, each once. */
  ghost predicate Lists(tabs: map<string, string>, order: seq<string>) {
    Distinct(order) && Elements(order) == tabs.Keys && forall sel :: sel in order ==> sel in tabs
  }

  /** `r` is `sqlq` with one join for each table of the map, in some order. */
  ghost predicate JoinsEach(sqlq: string, tabs: map<string, string>, r: string) {
    exists order :: Lists(tabs, order) && r == sqlq + JoinClauses(tabs, order)
  }

  /** Joins every index table once, in whatever order the map yields them. */
  method JoinTables(sqlq: string, tabs: map<string, string>) returns (r: string)
    ensures JoinsEach(sqlq, tabs, r)
  {
    hide JoinClause, JoinClauses;
    r := sqlq;
    ghost var order: seq<string> := [];
    assert sqlq + JoinClauses(tabs, []) == sqlq by { NoJoins(sqlq, tabs); }
    var rest := tabs.Keys;
    while rest != {}
      invariant rest <= tabs.Keys && Distinct(order) && Elements(order) == tabs.Keys - rest
      invariant (forall sel :: sel in order ==> sel in tabs) && r == sqlq + JoinClauses(tabs, order)
      decreases |rest|
    {
      var sel :| sel in rest;
      assert sel !in Elements(order);
      OneMoreJoin(tabs, order, sel);
      Assoc(sqlq, JoinClauses(tabs, order), " " + JoinClause(tabs[sel]));
      r := r + (" " + JoinClause(tabs[sel]));
      order := order + [sel];
      rest := rest - {sel};
    }
    assert Lists(tabs, order);
  }

  lemma NoJoins(sqlq: string, tabs: map<string, string>)
    ensures sqlq + JoinClauses(tabs, []) == sqlq
  {
  }

  lemma LoneJoin(tabs: map<string, string>, sel: string)
    requires sel in tabs
    ensures JoinClauses(tabs, [sel]) == " " + JoinClause(tabs[sel])
  {
    hide JoinClause;
    assert [sel][..0] == [];
    assert "" + (" " + JoinClause(tabs[sel])) == " " + JoinClause(tabs[sel]);
  }

  /** A map with one table leaves no choice of order. */
  lemma OneTableJoined(sqlq: string, tabs: map<string, string>, r: string, sel: string, tab: string)
    requires tabs == map[sel := tab] && JoinsEach(sqlq, tabs, r)
    ensures r == sqlq + " " + JoinClause(tab)
  {
    hide JoinClause;
    var order :| Lists(tabs, order) && r == sqlq + JoinClauses(tabs, order);
    DistinctCount(order);
    assert order[0] in Elements(order);
    assert order == [sel];
    LoneJoin(tabs, sel);
    Assoc(sqlq, " ", JoinClause(tab));
  }

  /** The format after the FROM clause is chosen. */
  method CompileFrom(q: Query) returns (r: Result<(string, bool), CompileError>)
    ensures WellFormed(q) ==> r.Ok?
    ensures r.Err? ==> r.error == UnexpectedIndexSelector
    ensures WellFormed(q) ==> r.value.0 == Format(FromText(BaseOf(q), HasIndex(q)))
    ensures WellFormed(q) ==> r.value.1 == (PlanJoins(BaseOf(q), HasIndex(q)) != [])
  {
    hide Format, BaseText, JoinClause;
    var sqlq: string;
    var join := false;
    if IsStatementQuery(q) {
      sqlq := Format(BaseText(StatementAlone));
    } else if IsEnvelopeQuery(q) {
      sqlq := Format(BaseText(EnvelopeAlone));
    } else {
      sqlq := Format(BaseText(Both));
      join := true;
    }
    if HasIndex(q) {
      var tabs := CollectIndexCriteriaTables(map[], q.criteria.value);
      if tabs.Err? {
        return Err(tabs.error);
      }
      assert WellFormed(q) ==> tabs.value == map["wki" := "Refs"];
      var joined := JoinTables(sqlq, tabs.value);
      if WellFormed(q) { OneTableJoined(sqlq, tabs.value, joined, "wki", "Refs"); }
      sqlq := joined;
      FormatJoined(BaseText(BaseOf(q)), "Refs");
      assert JoinClause("Refs") == JoinText(REFS_JOIN) by { RefsClause(); }
      join := true;
    }
    r := Ok((sqlq, join));
  }

  lemma RefsClause()
    ensures JoinClause("Refs") == JoinText(REFS_JOIN)
  {
  }

  /** `CompileQuery`: picks the FROM clause, joins index tables, then appends the
      clauses. The text denotes exactly the planned SELECT, and the compiler fails
      exactly on a function applied to a column it does not allow. */
  method CompileQuery(q: Query) returns (r: Result<(string, RowSelector), CompileError>)
    requires |q.namespace| > 0
    ensures WellFormed(q) ==> (r.Ok? <==> Compilable(q))
    ensures WellFormed(q) && r.Err? ==> r.error == IllegalSelector
    ensures WellFormed(q) && r.Ok? ==> Parse(r.value.0) == Some(Plan(q))
    ensures WellFormed(q) && r.Ok? ==> CompileQueryRowSelector(q) == Ok(r.value.1)
  {
    ColumnsCompile(q);
    hide Munch, Lex, Format, FromText, BaseOf, HasIndex, Fill, Parse, Plan, PlanJoins, WellFormed, CompileQueryColumns,
      CompileQueryCriteria, CompileQueryOrder, CompileQueryRowSelector, Compilable;
    var from := CompileFrom(q);
    if from.Err? {
      return Err(from.error);
    }
    var (sqlq, join) := from.value;

    var cols := CompileQueryColumns(q, join);
    if cols.Err? {
      return Err(cols.error);
    }
    FilledHead(q, cols.value);
    sqlq := Fill(sqlq, cols.value);

    var crit := CompileQueryCriteria(q, join);
    if crit != "" {
      sqlq := sqlq + " " + "WHERE" + " " + crit;
    }

    var order := CompileQueryOrder(q, join);
    if order != "" {
      sqlq := sqlq + " " + "ORDER BY" + " " + order;
    }

    if q.limit > 0 {
      sqlq := sqlq + " " + "LIMIT" + " " + Decimal.Show(q.limit);
    }
    if WellFormed(q) && Compilable(q) {
      assert LimitText(q.limit) != "" <==> q.limit > 0;
      assert sqlq == FullText(q, cols.value, join);
      ParseFullText(q, join);
    }

    var rsel := CompileQueryRowSelector(q);
    if rsel.Err? {
      return Err(rsel.error);
    }
    return Ok((sqlq, rsel.value));
  }

  /** Which selectors have columns and row selectors. */
  lemma ColumnsCompile(q: Query)
    ensures WellFormed(q) ==> forall join :: CompileQueryColumns(q, join).Ok? <==> Compilable(q)
    ensures WellFormed(q) ==> forall join :: CompileQueryColumns(q, join).Err? ==>
              CompileQueryColumns(q, join).error == IllegalSelector
    ensures WellFormed(q) ==> CompileQueryRowSelector(q).Ok?
  {
  }

  lemma OrderNotEmpty(q: Query, join: bool)
    requires WellFormed(q) && q.order.Some?
    ensures CompileQueryOrder(q, join) != ""
  {
    var o := q.order.value;
    var texts := seq(|o|, i requires 0 <= i < |o| => OrderText(o[i], join));
    assert |OrderText(o[0], join)| > 0;
    assert Commas(texts) != "";
  }
}
