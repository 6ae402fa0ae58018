/** Sources, orders, limits and whole queries: the parser reads every text as the reference does. */
module QueryAgrees {
  import opened Std
  import opened Grammar
  import opened Peg
  import opened ParseState
  import opened Interpret
  import opened Reference
  import opened ParserAgrees
  import opened RulesAgree
  import opened CriteriaAgree
  import opened ClausesAgree
  import Q = Queries

  // ---- Namespaces ----

  lemma {:induction false} RunPart(s: string, m: Machine)
    ensures Run(PartExpr(), s, m) ==
      if Span(NamespaceChars, s) == 0 then Fail else Go(s[Span(NamespaceChars, s)..], m)
  {
    hide Plus, Span, Run;
    RunPlus(NamespaceChars, s, m);
    RunProduction(NamespacePart, Plus(Char(NamespaceChars)), s, m);
  }

  lemma {:induction false} RunDotPart(s: string, m: Machine)
    ensures Run(Then(Word("."), PartExpr()), s, m) ==
      if "." <= s && Span(NamespaceChars, s[1..]) > 0 then Go(s[1..][Span(NamespaceChars, s[1..])..], m) else Fail
  {
    hide Span, Run, PartExpr, Word, Then;
    RunThen(Word("."), PartExpr(), s, m);
    RunWord(".", s, m);
    if "." <= s { RunPart(s[1..], m); }
  }

  lemma {:induction false} RunDotStar(s: string, m: Machine)
    ensures Run(Then(Word("."), WildcardExpr()), s, m) ==
      if "." <= s && "*" <= s[1..] then Go(s[1..][1..], m) else Fail
  {
    hide Run, Word, Then, Production;
    RunThen(Word("."), WildcardExpr(), s, m);
    RunWord(".", s, m);
    if "." <= s {
      RunProduction(Wildcard, Word("*"), s[1..], m);
      RunWord("*", s[1..], m);
    }
  }

  lemma {:induction false} RunDots(s: string, m: Machine)
    ensures Bind(Run(Many(Then(Word("."), PartExpr())), s, m), Maybe(Then(Word("."), WildcardExpr())))
      == Go(s[DotsLength(s)..], m)
    decreases |s|
  {
    hide Span, Run, PartExpr, WildcardExpr, Word, Then, Maybe, Many;
    var dot, star := Then(Word("."), PartExpr()), Then(Word("."), WildcardExpr());
    RunMany(dot, s, m);
    RunDotPart(s, m);
    if "." <= s && Span(NamespaceChars, s[1..]) > 0 {
      var n := Span(NamespaceChars, s[1..]);
      RunDots(s[1..][n..], m);
      assert s[1..][n..][DotsLength(s[1..][n..])..] == s[DotsLength(s)..];
    } else {
      RunMaybe(star, s, m);
      RunDotStar(s, m);
      if "." <= s && "*" <= s[1..] { assert s[1..][1..] == s[2..]; }
    }
  }

  lemma {:induction false} RunNamespace(s: string, m: Machine)
    ensures var n := NamespaceLength(s);
      Run(NamespaceExpr(), s, m) == if n == 0 then Fail else Go(s[n..], m.(text := s[..n]))
  {
    hide Span, DotsLength, Run, PartExpr, Word, Then, Then3, Maybe, Many, Production, Or, Text, Bind;
    var dots, star := Many(Then(Word("."), PartExpr())), Maybe(Then(Word("."), WildcardExpr()));
    var dotted := Then3(PartExpr(), dots, star);
    RunProduction(Namespace, Or(Text(dotted), Text(WildcardExpr())), s, m);
    RunOr(Text(dotted), Text(WildcardExpr()), s, m);
    RunText(dotted, s, m);
    RunText(WildcardExpr(), s, m);
    RunProduction(Wildcard, Word("*"), s, m);
    RunWord("*", s, m);
    RunThen3(PartExpr(), dots, star, s, m);
    RunPart(s, m);
    var n := Span(NamespaceChars, s);
    if n == 0 {
      BindFail(dots);
      BindFail(star);
    } else {
      RunDots(s[n..], m);
      Begins(dots, s[n..], m);
      assert s[n..][DotsLength(s[n..])..] == s[NamespaceLength(s)..];
    }
  }

  lemma {:induction false} ThenNamespace(o: Outcome, s: string, q: Q.Query, err: Option<string>)
    requires Leaves(o, s, Built(q, err))
    ensures var n := NamespaceLength(s);
      var o' := Bind(Bind(o, NamespaceExpr()), Do(SetNamespace));
      if n == 0 then o' == Fail else Leaves(o', s[n..], Built(q.(namespace := s[..n]), err))
  {
    hide NamespaceExpr, Run, NamespaceLength;
    RunNamespace(o.rest, o.m);
    var o1 := Bind(o, NamespaceExpr());
    if o1.Go? { RunDo(SetNamespace, o1.rest, o1.m); }
  }

  lemma {:induction false} SourceAgrees(o: Outcome, s: string, q: Q.Query, err: Option<string>)
    requires Leaves(o, s, Built(q, err))
    ensures match RefSource(s)
      case No => Bind(o, SourceExpr()) == Fail
      case Yes(ns, _, rest) => Leaves(Bind(o, SourceExpr()), rest, Built(q.(namespace := ns), err))
  {
    hide Finite, Start, Consumes, Safe, Solid, Run, Bind, Leaves, Then4, Word, Ws, Production, Do, Built, NamespaceExpr;
    hide Spaced, Skip, NamespaceLength;
    var from, act, ns := Word("FROM"), Do(SetNamespace), NamespaceExpr();
    BindProduction(o, Source, Then4(from, Ws(), ns, act));
    BindThen4(o, from, Ws(), ns, act);
    var m := Built(q, err);
    ThenWord(o, s, m, "FROM");
    if "FROM" <= s {
      var o1 := Bind(o, from);
      ThenWs(o1, s[4..], m);
      if Spaced(s[4..]) {
        ThenNamespace(Bind(o1, Ws()), Skip(s[4..]), q, err);
      } else {
        BindFail(ns); BindFail(act);
      }
    } else {
      BindFail(Ws()); BindFail(ns); BindFail(act);
    }
  }

  // ---- Criteria and limit ----

  lemma {:induction false} WhereAgrees(o: Outcome, s: string, q: Q.Query, err: Option<string>)
    requires Leaves(o, s, Built(q, err))
    ensures match RefWhere(s)
      case No => Bind(o, CriteriaExpr()) == Fail
      case Yes(c, e, rest) =>
        Leaves(Bind(o, CriteriaExpr()), rest, Built(q.(criteria := Some(c)), Later(err, e)))
  {
    hide Finite, Start, Consumes, Safe, Solid, Run, Bind, Leaves, After, Call, Word, Ws, Production, Do, Built, Step;
    hide Spaced, Skip, RefMulti, Gains, Later;
    var where, act := Word("WHERE"), Do(SetCriteria);
    var multi := Call(MultiCriteria, act);
    BindProduction(o, Criteria, After(where, After(Ws(), multi)));
    BindAfter(o, where, After(Ws(), multi));
    var o1 := Bind(o, where);
    BindAfter(o1, Ws(), multi);
    var o2 := Bind(o1, Ws());
    BindCall(o2, MultiCriteria, act);
    var m := Built(q, err);
    ThenWord(o, s, m, "WHERE");
    if "WHERE" <= s {
      ThenWs(o1, s[5..], m);
      if Spaced(s[5..]) {
        var s2 := Skip(s[5..]);
        ThenMulti(o2, s2, m);
        match RefMulti(s2) {
          case No => BindFail(act);
          case Yes(c, e, rest) =>
            ThenDo(Bind(o2, Ref(MultiCriteria)), rest, Gains(m, Crit(c), e), SetCriteria);
            StepWhere(q, err, c, e);
        }
      } else {
        BindFail(Ref(MultiCriteria)); BindFail(act);
      }
    } else {
      BindFail(Ws()); BindFail(Ref(MultiCriteria)); BindFail(act);
    }
  }

  lemma {:induction false} ThenLimit(o: Outcome, s: string, q: Q.Query, err: Option<string>)
    requires Leaves(o, s, Built(q, err))
    ensures var n := Span(Digits, s);
      var o' := Bind(Bind(o, Lexeme(UInt, Digits)), Do(SetLimit));
      if n == 0 then o' == Fail
      else Leaves(o', s[n..], Built(q.(limit := NumberOf(s[..n])), Later(err, NumberError(s[..n], None))))
  {
    hide Lexeme, Run, Span;
    RunLexeme(UInt, Digits, o.rest, o.m);
    var o1 := Bind(o, Lexeme(UInt, Digits));
    if o1.Go? { RunDo(SetLimit, o1.rest, o1.m); }
  }

  lemma {:induction false} LimitAgrees(o: Outcome, s: string, q: Q.Query, err: Option<string>)
    requires Leaves(o, s, Built(q, err))
    ensures match RefLimit(s)
      case No => Bind(o, LimitExpr()) == Fail
      case Yes(n, e, rest) => Leaves(Bind(o, LimitExpr()), rest, Built(q.(limit := n), Later(err, e)))
  {
    hide Finite, Start, Consumes, Safe, Solid, Run, Bind, Leaves, Then4, Word, Ws, Production, Do, Built, Lexeme, Later;
    hide Spaced, Skip, Span, NumberOf, NumberError;
    var word, act, num := Word("LIMIT"), Do(SetLimit), Lexeme(UInt, Digits);
    BindProduction(o, Limit, Then4(word, Ws(), num, act));
    BindThen4(o, word, Ws(), num, act);
    var m := Built(q, err);
    ThenWord(o, s, m, "LIMIT");
    if "LIMIT" <= s {
      var o1 := Bind(o, word);
      ThenWs(o1, s[5..], m);
      if Spaced(s[5..]) {
        ThenLimit(Bind(o1, Ws()), Skip(s[5..]), q, err);
      } else {
        BindFail(num); BindFail(act);
      }
    } else {
      BindFail(Ws()); BindFail(num); BindFail(act);
    }
  }

  // ---- Order ----

  lemma {:induction false} DirAgrees(o: Outcome, s: string, m: Machine, w: string)
    requires !m.stuck && Leaves(o, s, Pushes(m, Spec(Q.OrderSpec(w, ""))))
    ensures var dir := if Spaced(s) then FirstWord(DIR_WORDS, Skip(s), 0) else None;
      match dir
      case None => Bind(o, Maybe(DirExpr())) == o
      case Some(d) => Leaves(Bind(o, Maybe(DirExpr())), Skip(s)[|d|..], Pushes(m, Spec(Q.OrderSpec(w, d))))
  {
    hide Finite, Start, Consumes, Safe, Solid, Run, Bind, Leaves, Then3, Ws, Do, Maybe, Pushes, Step, Keyword;
    hide Spaced, Skip, FirstWord, ReadsWord;
    var word, act := Keyword(OrderDir, OrderDirOp, DIR_WORDS), Do(SetOrderDir);
    var m1 := Pushes(m, Spec(Q.OrderSpec(w, "")));
    LeavesIsGo(o, s, m1);
    BindMaybe(o, DirExpr());
    BindThen3(o, Ws(), word, act);
    ThenWs(o, s, m1);
    if Spaced(s) {
      var o1 := Bind(o, Ws());
      KeywordReads(OrderDir, OrderDirOp, DIR_WORDS);
      ThenReads(o1, Skip(s), m1, word, DIR_WORDS);
      match FirstWord(DIR_WORDS, Skip(s), 0) {
        case None => BindFail(act);
        case Some(d) =>
          ThenDo(Bind(o1, word), Skip(s)[|d|..], Pushes(m1, Str(d)), SetOrderDir);
          StepItem(m, w, d);
          LeavesIsGo(Bind(o, DirExpr()), Skip(s)[|d|..], Pushes(m, Spec(Q.OrderSpec(w, d))));
      }
    } else {
      BindFail(word); BindFail(act);
    }
  }

  lemma {:induction false} ItemAgrees(o: Outcome, s: string, m: Machine)
    requires !m.stuck && Leaves(o, s, m)
    ensures match RefItem(s)
      case No => Bind(o, OrderItemExpr()) == Fail
      case Yes(item, _, rest) => Leaves(Bind(o, OrderItemExpr()), rest, Pushes(m, Spec(item)))
  {
    hide Finite, Start, Consumes, Safe, Solid, Run, Bind, Leaves, Then3, Do, Maybe, Pushes, Step, Keyword, Production;
    hide Spaced, Skip, FirstWord, ReadsWord, DirExpr;
    var word, act := Keyword(OrderSelector, OrderSelectorOp, ORDER_WORDS), Do(AddOrderSelector);
    BindProduction(o, OrderSelectorSpec, Then3(word, act, Maybe(DirExpr())));
    BindThen3(o, word, act, Maybe(DirExpr()));
    KeywordReads(OrderSelector, OrderSelectorOp, ORDER_WORDS);
    ThenReads(o, s, m, word, ORDER_WORDS);
    match FirstWord(ORDER_WORDS, s, 0) {
      case None => BindFail(act); BindFail(Maybe(DirExpr()));
      case Some(w) =>
        var o1, s1 := Bind(o, word), s[|w|..];
        ThenDo(o1, s1, Pushes(m, Str(w)), AddOrderSelector);
        StepItem(m, w, "");
        DirAgrees(Bind(o1, act), s1, m, w);
    }
  }

  lemma {:induction false} ItemsAgree(o: Outcome, s: string, q: Q.Query, err: Option<string>, acc: seq<Q.OrderSpec>)
    requires Leaves(o, s, Holding(q, err, SpecItems(acc)))
    ensures var r := RefItems(acc, s);
      Leaves(Bind(o, Many(More(OrderItemExpr()))), r.1, Holding(q, err, SpecItems(r.0)))
    decreases |s|
  {
    hide Finite, Start, Consumes, Safe, Solid, Run, Bind, Leaves, Holding, SpecItems, Then3, Many, Pushes, Word, Wsx;
    hide Skip, RefItem, OrderItemExpr;
    var m := Holding(q, err, SpecItems(acc));
    var item, more := OrderItemExpr(), More(OrderItemExpr());
    BindMany(o, more);
    BindThen3(o, Word(","), Wsx(), item);
    ThenWord(o, s, m, ",");
    LeavesIsGo(o, s, m);
    if "," <= s {
      var o1 := Bind(o, Word(","));
      ThenWsx(o1, s[1..], m);
      var o2, s2 := Bind(o1, Wsx()), Skip(s[1..]);
      ItemAgrees(o2, s2, m);
      match RefItem(s2) {
        case No =>
        case Yes(x, _, rest) =>
          PushesSpec(q, err, acc, x);
          LeavesIsGo(Bind(o2, item), rest, Pushes(m, Spec(x)));
          ItemsAgree(Bind(o2, item), rest, q, err, acc + [x]);
      }
    } else {
      BindFail(Wsx()); BindFail(item);
    }
  }

  lemma {:induction false} OrderListAgrees(o: Outcome, s: string, q: Q.Query, err: Option<string>)
    requires Leaves(o, s, Built(q, err))
    ensures match RefItem(s)
      case No => Bind(Bind(o, OrderListExpr()), Do(SetOrder)) == Fail
      case Yes(item, _, rest) =>
        var r := RefItems([item], rest);
        Leaves(Bind(Bind(o, OrderListExpr()), Do(SetOrder)), r.1, Built(q.(order := Some(r.0)), err))
  {
    hide Finite, Start, Consumes, Safe, Solid, Run, Bind, Leaves, Holding, SpecItems, Then, Many, Pushes, Do, Production;
    hide RefItem, RefItems, OrderItemExpr, Step, Built, More;
    var item, act, more := OrderItemExpr(), Do(SetOrder), Many(More(OrderItemExpr()));
    BindProduction(o, OrderSpec, Then(item, more));
    BindThen(o, item, more);
    var m := Built(q, err);
    ItemAgrees(o, s, m);
    match RefItem(s) {
      case No => BindFail(more); BindFail(act);
      case Yes(x, _, rest) =>
        BuiltHolds(q, err);
        PushesSpec(q, err, [], x);
        assert [] + [x] == [x];
        ItemsAgree(Bind(o, item), rest, q, err, [x]);
        var r := RefItems([x], rest);
        ThenDo(Bind(Bind(o, item), more), r.1, Holding(q, err, SpecItems(r.0)), SetOrder);
        StepOrder(q, err, r.0);
    }
  }

  lemma {:induction false} OrderAgrees(o: Outcome, s: string, q: Q.Query, err: Option<string>)
    requires Leaves(o, s, Built(q, err))
    ensures match RefOrder(s)
      case No => Bind(o, OrderExpr()) == Fail
      case Yes(items, _, rest) => Leaves(Bind(o, OrderExpr()), rest, Built(q.(order := Some(items)), err))
  {
    hide Finite, Start, Consumes, Safe, Solid, Run, Bind, Leaves, Then, Then5, Do, Production, Word, Ws, Built;
    hide RefItem, RefItems, OrderListExpr, Spaced, Skip;
    var order, byWord, list, act := Word("ORDER"), Word("BY"), OrderListExpr(), Do(SetOrder);
    BindProduction(o, Order, Then(order, Then5(Ws(), byWord, Ws(), list, act)));
    BindThen(o, order, Then5(Ws(), byWord, Ws(), list, act));
    var o1 := Bind(o, order);
    BindThen5(o1, Ws(), byWord, Ws(), list, act);
    var o2 := Bind(o1, Ws());
    var o3 := Bind(o2, byWord);
    var m := Built(q, err);
    ThenWord(o, s, m, "ORDER");
    if !("ORDER" <= s) {
      BindFail(Ws()); BindFail(byWord); BindFail(list); BindFail(act);
    } else {
      ThenWs(o1, s[5..], m);
      if !Spaced(s[5..]) {
        BindFail(byWord); BindFail(Ws()); BindFail(list); BindFail(act);
      } else {
        var s1 := Skip(s[5..]);
        ThenWord(o2, s1, m, "BY");
        if !("BY" <= s1) {
          BindFail(Ws()); BindFail(list); BindFail(act);
        } else {
          ThenWs(o3, s1[2..], m);
          if !Spaced(s1[2..]) {
            BindFail(list); BindFail(act);
          } else {
            OrderListAgrees(Bind(o3, Ws()), Skip(s1[2..]), q, err);
          }
        }
      }
    }
  }

  // ---- Optional clauses ----

  lemma {:induction false} ThenClause(o: Outcome, s: string, m: Machine, a: Expr)
    requires Leaves(o, s, m) && Solid(a)
    ensures !Spaced(s) ==> Bind(o, Clause(a)) == o
    ensures Spaced(s) ==> Leaves(Bind(o, Ws()), Skip(s), m)
    ensures Spaced(s) ==> var o' := Bind(Bind(o, Ws()), a);
      Bind(o, Clause(a)) == if o'.Go? then o' else o
  {
    hide Finite, Start, Consumes, Safe, Solid, Run, Bind, Leaves, Then, Ws, Maybe, Spaced, Skip;
    BindMaybe(o, Then(Ws(), a));
    BindThen(o, Ws(), a);
    ThenWs(o, s, m);
    LeavesIsGo(o, s, m);
    if !Spaced(s) { BindFail(a); }
  }

  lemma {:induction false} OptionalWhere(o: Outcome, s: string, q: Q.Query, err: Option<string>)
    requires Leaves(o, s, Built(q, err)) && q.criteria == None
    ensures var (where, e, rest) := Optional(s, RefWhere(Skip(s)));
      Leaves(Bind(o, Clause(CriteriaExpr())), rest, Built(q.(criteria := where), Later(err, e)))
  {
    hide Finite, Start, Consumes, Safe, Solid, Run, Bind, Leaves, Ws, Clause, Spaced, Skip, CriteriaExpr, Built, RefWhere;
    ThenClause(o, s, Built(q, err), CriteriaExpr());
    if Spaced(s) {
      WhereAgrees(Bind(o, Ws()), Skip(s), q, err);
      var r := RefWhere(Skip(s));
      if r.Yes? {
        LeavesIsGo(Bind(Bind(o, Ws()), CriteriaExpr()), r.rest, Built(q.(criteria := Some(r.v)), Later(err, r.err)));
      }
    }
  }

  lemma {:induction false} OptionalOrder(o: Outcome, s: string, q: Q.Query, err: Option<string>)
    requires Leaves(o, s, Built(q, err)) && q.order == None
    ensures var (order, _, rest) := Optional(s, RefOrder(Skip(s)));
      Leaves(Bind(o, Clause(OrderExpr())), rest, Built(q.(order := order), err))
  {
    hide Finite, Start, Consumes, Safe, Solid, Run, Bind, Leaves, Ws, Clause, Spaced, Skip, OrderExpr, Built, RefOrder;
    ThenClause(o, s, Built(q, err), OrderExpr());
    if Spaced(s) {
      OrderAgrees(Bind(o, Ws()), Skip(s), q, err);
      var r := RefOrder(Skip(s));
      if r.Yes? {
        LeavesIsGo(Bind(Bind(o, Ws()), OrderExpr()), r.rest, Built(q.(order := Some(r.v)), err));
      }
    }
  }

  lemma {:induction false} OptionalLimit(o: Outcome, s: string, q: Q.Query, err: Option<string>)
    requires Leaves(o, s, Built(q, err)) && q.limit == 0
    ensures var (limit, e, rest) := Optional(s, RefLimit(Skip(s)));
      Leaves(Bind(o, Clause(LimitExpr())), rest, Built(q.(limit := OrZero(limit)), Later(err, e)))
  {
    hide Finite, Start, Consumes, Safe, Solid, Run, Bind, Leaves, Ws, Clause, Spaced, Skip, LimitExpr, Built, RefLimit;
    ThenClause(o, s, Built(q, err), LimitExpr());
    if Spaced(s) {
      LimitAgrees(Bind(o, Ws()), Skip(s), q, err);
      var r := RefLimit(Skip(s));
      if r.Yes? {
        LeavesIsGo(Bind(Bind(o, Ws()), LimitExpr()), r.rest, Built(q.(limit := r.v), Later(err, r.err)));
      }
    }
  }

  // ---- Whole queries ----

  lemma {:induction false} SelectAgrees(s: string)
    ensures match RefSelect(s)
      case No => Bind(Go(s, START), SelectExpr()) == Fail
      case Yes(q, e, rest) => Leaves(Bind(Go(s, START), SelectExpr()), rest, Built(q, e))
  {
    hide Finite, Start, Consumes, Safe, Solid, Run, Bind, Leaves, Then, Then3, Then5, Word, Ws, Production, Clause, Spaced, Skip;
    hide SelectorExpr, SourceExpr, CriteriaExpr, OrderExpr, LimitExpr, RefSelector, RefSource, RefWhere, RefOrder, RefLimit;
    hide Later, Optional, OrZero, Built;
    var o, m, word := Go(s, START), Built(EMPTY_QUERY, None), Word("SELECT");
    var where, order, limit := Clause(CriteriaExpr()), Clause(OrderExpr()), Clause(LimitExpr());
    var clauses := Then3(where, order, limit);
    BindProduction(o, Select, Then(word, Then5(Ws(), SelectorExpr(), Ws(), SourceExpr(), clauses)));
    BindThen(o, word, Then5(Ws(), SelectorExpr(), Ws(), SourceExpr(), clauses));
    var o1 := Bind(o, word);
    BindThen5(o1, Ws(), SelectorExpr(), Ws(), SourceExpr(), clauses);
    var o2 := Bind(o1, Ws());
    var o3 := Bind(o2, SelectorExpr());
    var o4 := Bind(o3, Ws());
    var o5 := Bind(o4, SourceExpr());
    BindThen3(o5, where, order, limit);
    BuiltStart(s);
    ThenWord(o, s, m, "SELECT");
    if !("SELECT" <= s) {
      BindFail(Ws()); BindFail(SelectorExpr()); BindFail(SourceExpr()); BindFail(clauses);
    } else {
      ThenWs(o1, s[6..], m);
      if !Spaced(s[6..]) {
        BindFail(SelectorExpr()); BindFail(Ws()); BindFail(SourceExpr()); BindFail(clauses);
      } else {
        SelectorAgrees(o2, Skip(s[6..]), EMPTY_QUERY, None);
        match RefSelector(Skip(s[6..])) {
          case No => BindFail(Ws()); BindFail(SourceExpr()); BindFail(clauses);
          case Yes(sel, _, s1) =>
            var q1 := EMPTY_QUERY.(selector := sel);
            ThenWs(o3, s1, Built(q1, None));
            if !Spaced(s1) {
              BindFail(SourceExpr()); BindFail(clauses);
            } else {
              SourceAgrees(o4, Skip(s1), q1, None);
              match RefSource(Skip(s1)) {
                case No => BindFail(clauses);
                case Yes(ns, _, s2) => OptionalClauses(o5, s2, q1.(namespace := ns));
              }
            }
        }
      }
    }
  }

  lemma BuiltStart(s: string)
    ensures Leaves(Go(s, START), s, Built(EMPTY_QUERY, None))
  {
    hide Body;
  }

  lemma {:induction false} OptionalClauses(o: Outcome, s2: string, q: Q.Query)
    requires Leaves(o, s2, Built(q, None)) && q.criteria == None && q.order == None && q.limit == 0
    ensures var (where, e1, s3) := Optional(s2, RefWhere(Skip(s2)));
      var (order, _, s4) := Optional(s3, RefOrder(Skip(s3)));
      var (limit, e2, s5) := Optional(s4, RefLimit(Skip(s4)));
      Leaves(Bind(Bind(Bind(o, Clause(CriteriaExpr())), Clause(OrderExpr())), Clause(LimitExpr())), s5,
        Built(q.(criteria := where, order := order, limit := OrZero(limit)), Later(e1, e2)))
  {
    hide Finite, Start, Consumes, Safe, Solid, Run, Bind, Leaves, Clause, Skip, Optional, OrZero, Built;
    hide CriteriaExpr, OrderExpr, LimitExpr, RefWhere, RefOrder, RefLimit;
    var (where, e1, s3) := Optional(s2, RefWhere(Skip(s2)));
    OptionalWhere(o, s2, q, None);
    var o3 := Bind(o, Clause(CriteriaExpr()));
    assert Later(None, e1) == e1;
    var q3 := q.(criteria := where);
    OptionalOrder(o3, s3, q3, e1);
    var (order, _, s4) := Optional(s3, RefOrder(Skip(s3)));
    OptionalLimit(Bind(o3, Clause(OrderExpr())), s4, q3.(order := order), e1);
  }

  lemma {:induction false} DeleteAgrees(s: string)
    ensures match RefDelete(s)
      case No => Bind(Go(s, START), DeleteExpr()) == Fail
      case Yes(q, e, rest) =>
        Leaves(Bind(Go(s, START), DeleteExpr()), rest, Built(q.(op := Q.OpSelect, selector := Q.NoSelector), e))
  {
    hide Finite, Start, Consumes, Safe, Solid, Run, Bind, Leaves, Then5, Word, Ws, Production, Clause, Spaced, Skip;
    hide SourceExpr, CriteriaExpr, LimitExpr, RefSource, RefWhere, RefLimit, Optional, OrZero, Built;
    var o, m, word := Go(s, START), Built(EMPTY_QUERY, None), Word("DELETE");
    var where, limit := Clause(CriteriaExpr()), Clause(LimitExpr());
    BindProduction(o, Delete, Then5(word, Ws(), SourceExpr(), where, limit));
    BindThen5(o, word, Ws(), SourceExpr(), where, limit);
    var o1 := Bind(o, word);
    BuiltStart(s);
    ThenWord(o, s, m, "DELETE");
    if !("DELETE" <= s) {
      BindFail(Ws()); BindFail(SourceExpr()); BindFail(where); BindFail(limit);
    } else {
      ThenWs(o1, s[6..], m);
      if !Spaced(s[6..]) {
        BindFail(SourceExpr()); BindFail(where); BindFail(limit);
      } else {
        var o2 := Bind(o1, Ws());
        SourceAgrees(o2, Skip(s[6..]), EMPTY_QUERY, None);
        match RefSource(Skip(s[6..])) {
          case No => BindFail(where); BindFail(limit);
          case Yes(ns, _, s1) =>
            var q1, o3 := EMPTY_QUERY.(namespace := ns), Bind(o2, SourceExpr());
            OptionalWhere(o3, s1, q1, None);
            var (c, e1, s2) := Optional(s1, RefWhere(Skip(s1)));
            assert Later(None, e1) == e1;
            OptionalLimit(Bind(o3, where), s2, q1.(criteria := c), e1);
        }
      }
    }
  }

  lemma {:induction false} WholeAgrees(o: Outcome, a: Expr, act: Action, rest: string, m: Machine)
    requires Solid(a) && act in {SetSelectOp, SetDeleteOp}
    ensures Bind(o, a).Fail? ==> Bind(o, Whole(a, act)).Fail?
    ensures Leaves(Bind(o, a), rest, m) ==>
      if Skip(rest) == "" then Leaves(Bind(o, Whole(a, act)), "", Step(act, m)) else Bind(o, Whole(a, act)).Fail?
  {
    hide Finite, Start, Consumes, Safe, Solid, Run, Bind, Leaves, Then4, Do, Wsx, Eof, Step, Skip;
    BindThen4(o, a, Wsx(), Eof(), Do(act));
    var o1 := Bind(o, a);
    if o1.Fail? {
      BindFail(Wsx()); BindFail(Eof()); BindFail(Do(act));
      if Leaves(o1, rest, m) { LeavesIsGo(o1, rest, m); }
    } else if Leaves(o1, rest, m) {
      ThenWsx(o1, rest, m);
      var o2 := Bind(o1, Wsx());
      ThenEof(o2, Skip(rest), m);
      if Skip(rest) == "" {
        ThenDo(Bind(o2, Eof()), "", m, act);
      } else {
        BindFail(Do(act));
      }
    }
  }

  lemma {:induction false} ThenEof(o: Outcome, rest: string, m: Machine)
    requires Leaves(o, rest, m)
    ensures if rest == "" then Leaves(Bind(o, Eof()), "", m) else Bind(o, Eof()) == Fail
  {
    hide Body;
    RunProduction(EOF, End, o.rest, o.m);
  }

  /** Every text is accepted by the grammar exactly when the reference reads it; the actions then
      never miss on the stack, leave it empty, and have built the reference's query. */
  lemma {:induction false} GrammarAgrees(s: string)
    ensures match RefQuery(s)
      case None => Run(GrammarExpr(), s, START) == Fail
      case Some((q, e)) => Leaves(Run(GrammarExpr(), s, START), "", Built(q, e))
  {
    hide Finite, Start, Consumes, Safe, Solid, Run, Bind, Leaves, Production, Or, Whole, SelectExpr, DeleteExpr, Skip, RefSelect, RefDelete;
    var o := Go(s, START);
    var select, delete := Whole(SelectExpr(), SetSelectOp), Whole(DeleteExpr(), SetDeleteOp);
    Begins(GrammarExpr(), s, START);
    BindProduction(o, Rule.Grammar, Or(select, delete));
    BindOr(o, select, delete);
    SelectAgrees(s);
    DeleteAgrees(s);
    OneKeyword(s);
    match RefSelect(s) {
      case Yes(q, e, rest) =>
        WholeAgrees(o, SelectExpr(), SetSelectOp, rest, Built(q, e));
        WholeAgrees(o, DeleteExpr(), SetDeleteOp, rest, Built(q, e));
        assert q.op == Q.OpSelect by { SelectIsSelect(s); }
        if Skip(rest) == "" { LeavesIsGo(Bind(o, select), "", Built(q, e)); }
      case No =>
        WholeAgrees(o, SelectExpr(), SetSelectOp, s, START);
        match RefDelete(s) {
          case Yes(q, e, rest) =>
            DeleteIsDelete(s);
            WholeAgrees(o, DeleteExpr(), SetDeleteOp, rest, Built(q.(op := Q.OpSelect, selector := Q.NoSelector), e));
          case No => WholeAgrees(o, DeleteExpr(), SetDeleteOp, s, START);
        }
    }
  }

  lemma OneKeyword(s: string)
    ensures RefSelect(s).Yes? ==> RefDelete(s).No?
  {
    assert "SELECT" <= s ==> s[0] == 'S';
    assert "DELETE" <= s ==> s[0] == 'D';
  }

  lemma SelectIsSelect(s: string)
    requires RefSelect(s).Yes?
    ensures RefSelect(s).v.op == Q.OpSelect
  {
  }

  lemma DeleteIsDelete(s: string)
    requires RefDelete(s).Yes?
    ensures RefDelete(s).v.op == Q.OpDelete && RefDelete(s).v.selector == Q.SimpleSelector("id")
  {
  }
}
