/** The clauses of a query. Each starts and ends with an empty stack, so the two actions that
    take the whole stack find only their own items. */
module ClausesAgree {
  import opened Std
  import opened Grammar
  import opened Peg
  import opened ParseState
  import opened Interpret
  import opened Reference
  import opened ParserAgrees
  import opened RulesAgree
  import Q = Queries

  /** The machine between clauses. */
  function Built(q: Q.Query, err: Option<string>): (m: Machine)
    ensures m.stack == [] && !m.stuck
  {
    Machine(q, [], err, "", false)
  }

  // ---- Words on the empty stack ----

  function StrItems(ws: seq<string>): (items: seq<Item>)
    ensures |items| == |ws| && forall i :: 0 <= i < |ws| ==> items[i] == Str(ws[i])
  {
    seq(|ws|, i requires 0 <= i < |ws| => Str(ws[i]))
  }

  function SpecItems(os: seq<Q.OrderSpec>): (items: seq<Item>)
    ensures |items| == |os| && forall i :: 0 <= i < |os| ==> items[i] == Spec(os[i])
  {
    seq(|os|, i requires 0 <= i < |os| => Spec(os[i]))
  }

  function Holding(q: Q.Query, err: Option<string>, items: seq<Item>): (m: Machine)
    ensures !m.stuck
  {
    Machine(q, items, err, "", false)
  }

  lemma PushesStr(q: Q.Query, err: Option<string>, ws: seq<string>, w: string)
    ensures Pushes(Holding(q, err, StrItems(ws)), Str(w)) == Holding(q, err, StrItems(ws + [w]))
  {
    assert StrItems(ws) + [Str(w)] == StrItems(ws + [w]);
  }

  lemma PushesSpec(q: Q.Query, err: Option<string>, os: seq<Q.OrderSpec>, o: Q.OrderSpec)
    ensures Pushes(Holding(q, err, SpecItems(os)), Spec(o)) == Holding(q, err, SpecItems(os + [o]))
  {
    assert SpecItems(os) + [Spec(o)] == SpecItems(os + [o]);
  }

  lemma BuiltHolds(q: Q.Query, err: Option<string>)
    ensures Built(q, err) == Holding(q, err, StrItems([])) == Holding(q, err, SpecItems([]))
  {
    assert StrItems([]) == [] && SpecItems([]) == [];
  }

  lemma StepSelectors(q: Q.Query, err: Option<string>, ws: seq<string>)
    ensures Step(SetCompoundSelector, Holding(q, err, StrItems(ws)))
      == Built(q.(selector := Q.CompoundSelector(ws)), err)
  {
    assert Strings(StrItems(ws)) == ws;
  }

  lemma StepOrder(q: Q.Query, err: Option<string>, os: seq<Q.OrderSpec>)
    ensures Step(SetOrder, Holding(q, err, SpecItems(os))) == Built(q.(order := Some(os)), err)
  {
    assert Specs(SpecItems(os)) == os;
  }

  lemma StepSelector(q: Q.Query, err: Option<string>, w: string)
    ensures Step(SetSimpleSelector, Pushes(Built(q, err), Str(w))) == Built(q.(selector := Q.SimpleSelector(w)), err)
  {
    assert [Str(w)][..0] == [];
  }

  lemma StepFunction(q: Q.Query, err: Option<string>, f: string, w: string)
    ensures Step(SetFunctionSelector, Pushes(Pushes(Built(q, err), Str(f)), Str(w)))
      == Built(q.(selector := Q.FunctionSelector(f, w)), err)
  {
    var m := Pushes(Pushes(Built(q, err), Str(f)), Str(w));
    assert m.stack == [Str(f), Str(w)];
    assert m.stack[..|m.stack| - 2] == [];
  }

  lemma StepWhere(q: Q.Query, err: Option<string>, c: Q.Criteria, e: Option<string>)
    ensures Step(SetCriteria, Gains(Built(q, err), Crit(c), e)) == Built(q.(criteria := Some(c)), Later(err, e))
  {
    assert [Crit(c)][..0] == [];
  }

  lemma StepItem(m: Machine, w: string, d: string)
    requires !m.stuck
    ensures Step(AddOrderSelector, Pushes(m, Str(w))) == Pushes(m, Spec(Q.OrderSpec(w, "")))
    ensures Step(SetOrderDir, Pushes(Pushes(m, Spec(Q.OrderSpec(w, ""))), Str(d))) == Pushes(m, Spec(Q.OrderSpec(w, d)))
  {
    var m1 := Pushes(m, Str(w));
    assert Top(m1, 0) == Str(w) && m1.stack[..|m1.stack| - 1] == m.stack;
    var m2 := Pushes(Pushes(m, Spec(Q.OrderSpec(w, ""))), Str(d));
    assert Top(m2, 0) == Str(d) && Top(m2, 1) == Spec(Q.OrderSpec(w, "")) && m2.stack[..|m2.stack| - 2] == m.stack;
  }

  // ---- More steps ----

  lemma BindProduction(o: Outcome, r: Rule, a: Expr)
    requires Safe(a)
    ensures Bind(o, Production(r, a)) == Bind(o, a)
  {
    hide Finite, Start, Consumes, Safe, Solid, Run, Production;
    if o.Go? { RunProduction(r, a, o.rest, o.m); }
  }

  lemma BindThen3(o: Outcome, a: Expr, b: Expr, c: Expr)
    requires Safe(a) && Safe(b) && Safe(c)
    ensures Bind(o, Then3(a, b, c)) == Bind(Bind(Bind(o, a), b), c)
  {
    hide Finite, Start, Consumes, Safe, Solid, Run, Then, Bind;
    BindThen(o, a, Then(b, c));
    BindThen(Bind(o, a), b, c);
  }

  lemma BindThen4(o: Outcome, a: Expr, b: Expr, c: Expr, d: Expr)
    requires Safe(a) && Safe(b) && Safe(c) && Safe(d)
    ensures Bind(o, Then4(a, b, c, d)) == Bind(Bind(Bind(Bind(o, a), b), c), d)
  {
    hide Finite, Start, Consumes, Safe, Solid, Run, Then, Then3, Bind;
    BindThen(o, a, Then3(b, c, d));
    BindThen3(Bind(o, a), b, c, d);
  }

  lemma BindThen5(o: Outcome, a: Expr, b: Expr, c: Expr, d: Expr, e: Expr)
    requires Safe(a) && Safe(b) && Safe(c) && Safe(d) && Safe(e)
    ensures Bind(o, Then5(a, b, c, d, e)) == Bind(Bind(Bind(Bind(Bind(o, a), b), c), d), e)
  {
    hide Finite, Start, Consumes, Safe, Solid, Run, Then, Then4, Bind;
    BindThen(o, a, Then4(b, c, d, e));
    BindThen4(Bind(o, a), b, c, d, e);
  }

  lemma BindMaybe(o: Outcome, a: Expr)
    requires Safe(a)
    ensures Bind(o, Maybe(a)) == if o.Go? && Bind(o, a).Fail? then o else Bind(o, a)
  {
    hide Finite, Start, Consumes, Safe, Solid, Run, Maybe;
    if o.Go? { RunMaybe(a, o.rest, o.m); }
  }

  lemma BindOr(o: Outcome, a: Expr, b: Expr)
    requires Safe(a) && Safe(b)
    ensures Bind(o, Or(a, b)) == if Bind(o, a).Go? then Bind(o, a) else Bind(o, b)
  {
    hide Finite, Start, Consumes, Safe, Solid, Run, Or;
    if o.Go? { RunOr(a, b, o.rest, o.m); }
  }

  lemma BindMany(o: Outcome, a: Expr)
    requires Solid(a)
    ensures Bind(o, Many(a)) == if o.Go? && Bind(o, a).Fail? then o else Bind(Bind(o, a), Many(a))
  {
    hide Finite, Start, Consumes, Safe, Solid, Run, Many;
    if o.Go? { RunMany(a, o.rest, o.m); }
  }

  lemma LeavesIsGo(o: Outcome, rest: string, m: Machine)
    requires Leaves(o, rest, m)
    ensures o.Go?
  {
    hide Body;
  }

  // ---- Selectors ----

  lemma {:induction false} SelectorsAgree(o: Outcome, s: string, q: Q.Query, err: Option<string>, acc: seq<string>)
    requires Leaves(o, s, Holding(q, err, StrItems(acc)))
    ensures var r := RefSelectors(acc, s);
      Leaves(Bind(o, Many(More(SelectorWord()))), r.1, Holding(q, err, StrItems(r.0)))
    decreases |s|
  {
    hide Finite, Start, Consumes, Safe, Solid, Run, Bind, Leaves, Holding, StrItems, Then3, Many, Pushes, Word, Wsx;
    hide Skip, FirstWord, ReadsWord, Keyword;
    var m := Holding(q, err, StrItems(acc));
    var word, more := SelectorWord(), More(SelectorWord());
    BindMany(o, more);
    BindThen3(o, Word(","), Wsx(), word);
    ThenWord(o, s, m, ",");
    LeavesIsGo(o, s, m);
    if "," <= s {
      var o1 := Bind(o, Word(","));
      ThenWsx(o1, s[1..], m);
      var o2, s2 := Bind(o1, Wsx()), Skip(s[1..]);
      KeywordReads(SimpleSelector, SimpleSelectorOp, SELECTOR_WORDS);
      ThenReads(o2, s2, m, word, SELECTOR_WORDS);
      match FirstWord(SELECTOR_WORDS, s2, 0) {
        case None =>
        case Some(w) =>
          PushesStr(q, err, acc, w);
          LeavesIsGo(Bind(o2, word), s2[|w|..], Pushes(m, Str(w)));
          SelectorsAgree(Bind(o2, word), s2[|w|..], q, err, acc + [w]);
      }
    } else {
      BindFail(Wsx()); BindFail(word);
    }
  }

  ghost predicate SetsSelector(o: Outcome, r: Out<Q.Selector>, q: Q.Query, err: Option<string>) {
    match r
    case No => o == Fail
    case Yes(sel, _, rest) => Leaves(o, rest, Built(q.(selector := sel), err))
  }

  lemma {:induction false} CompoundSelectorAgrees(o: Outcome, s: string, q: Q.Query, err: Option<string>)
    requires Leaves(o, s, Built(q, err))
    ensures SetsSelector(Bind(o, Then(CompoundSelectorExpr(), Do(SetCompoundSelector))), RefCompoundSelector(s), q, err)
  {
    hide Finite, Start, Consumes, Safe, Solid, Run, Bind, Leaves, Holding, StrItems, Then, Then4, Many, Pushes, Word, More;
    hide FirstWord, ReadsWord, Keyword, RefSelectors, Production, Do, Step, Built;
    var word, act := SelectorWord(), Do(SetCompoundSelector);
    var list := Then4(Word("("), word, Many(More(word)), Word(")"));
    BindThen(o, CompoundSelectorExpr(), act);
    BindProduction(o, CompoundSelector, list);
    BindThen4(o, Word("("), word, Many(More(word)), Word(")"));
    var m := Built(q, err);
    ThenWord(o, s, m, "(");
    if "(" <= s {
      var o1, s1 := Bind(o, Word("(")), s[1..];
      KeywordReads(SimpleSelector, SimpleSelectorOp, SELECTOR_WORDS);
      ThenReads(o1, s1, m, word, SELECTOR_WORDS);
      match FirstWord(SELECTOR_WORDS, s1, 0) {
        case None => BindFail(Many(More(word))); BindFail(Word(")")); BindFail(act);
        case Some(w) =>
          BuiltHolds(q, err);
          PushesStr(q, err, [], w);
          assert [] + [w] == [w];
          var o2, s2 := Bind(o1, word), s1[|w|..];
          SelectorsAgree(o2, s2, q, err, [w]);
          var (sels, rest) := RefSelectors([w], s2);
          var o3 := Bind(o2, Many(More(word)));
          ThenWord(o3, rest, Holding(q, err, StrItems(sels)), ")");
          if ")" <= rest {
            ThenDo(Bind(o3, Word(")")), rest[1..], Holding(q, err, StrItems(sels)), SetCompoundSelector);
            StepSelectors(q, err, sels);
          } else {
            BindFail(act);
          }
      }
    } else {
      BindFail(word); BindFail(Many(More(word))); BindFail(Word(")")); BindFail(act);
    }
  }

  lemma {:induction false} FunctionSelectorAgrees(o: Outcome, s: string, q: Q.Query, err: Option<string>)
    requires Leaves(o, s, Built(q, err))
    ensures SetsSelector(Bind(o, Then(FunctionSelectorExpr(), Do(SetFunctionSelector))), RefFunctionSelector(s), q, err)
  {
    hide Finite, Start, Consumes, Safe, Solid, Run, Bind, Leaves, Then, Then4, Pushes, Word;
    hide FirstWord, ReadsWord, Keyword, Production, Do, Step, Built;
    var word, act, fn := SelectorWord(), Do(SetFunctionSelector), Keyword(Function, FunctionOp, FUNCTION_WORDS);
    BindThen(o, FunctionSelectorExpr(), act);
    BindProduction(o, FunctionSelector, Then4(fn, Word("("), word, Word(")")));
    BindThen4(o, fn, Word("("), word, Word(")"));
    var m := Built(q, err);
    KeywordReads(SimpleSelector, SimpleSelectorOp, SELECTOR_WORDS);
    KeywordReads(Function, FunctionOp, FUNCTION_WORDS);
    ThenReads(o, s, m, fn, FUNCTION_WORDS);
    match FirstWord(FUNCTION_WORDS, s, 0) {
      case None => BindFail(Word("(")); BindFail(word); BindFail(Word(")")); BindFail(act);
      case Some(f) =>
        var o1, s1, m1 := Bind(o, fn), s[|f|..], Pushes(m, Str(f));
        ThenWord(o1, s1, m1, "(");
        if "(" <= s1 {
          var o2, s2 := Bind(o1, Word("(")), s1[1..];
          ThenReads(o2, s2, m1, word, SELECTOR_WORDS);
          match FirstWord(SELECTOR_WORDS, s2, 0) {
            case None => BindFail(Word(")")); BindFail(act);
            case Some(w) =>
              var o3, s3, m3 := Bind(o2, word), s2[|w|..], Pushes(m1, Str(w));
              ThenWord(o3, s3, m3, ")");
              if ")" <= s3 {
                ThenDo(Bind(o3, Word(")")), s3[1..], m3, SetFunctionSelector);
                StepFunction(q, err, f, w);
              } else {
                BindFail(act);
              }
          }
        } else {
          BindFail(word); BindFail(Word(")")); BindFail(act);
        }
    }
  }

  lemma {:induction false} SelectorAgrees(o: Outcome, s: string, q: Q.Query, err: Option<string>)
    requires Leaves(o, s, Built(q, err))
    ensures SetsSelector(Bind(o, SelectorExpr()), RefSelector(s), q, err)
  {
    hide Finite, Start, Consumes, Safe, Solid, Run, Bind, Leaves, Then, Or, Pushes, Built, CompoundSelectorExpr, Do, Step;
    hide FirstWord, ReadsWord, Keyword, Production, FunctionSelectorExpr, RefCompoundSelector, RefFunctionSelector;
    var word := SelectorWord();
    var simple := Then(word, Do(SetSimpleSelector));
    var compound := Then(CompoundSelectorExpr(), Do(SetCompoundSelector));
    var fn := Then(FunctionSelectorExpr(), Do(SetFunctionSelector));
    BindProduction(o, Selector, Or(simple, Or(compound, fn)));
    BindOr(o, simple, Or(compound, fn));
    BindOr(o, compound, fn);
    BindThen(o, word, Do(SetSimpleSelector));
    CompoundSelectorAgrees(o, s, q, err);
    FunctionSelectorAgrees(o, s, q, err);
    KeywordReads(SimpleSelector, SimpleSelectorOp, SELECTOR_WORDS);
    ThenReads(o, s, Built(q, err), word, SELECTOR_WORDS);
    match FirstWord(SELECTOR_WORDS, s, 0) {
      case None =>
        BindFail(Do(SetSimpleSelector));
        var r := RefCompoundSelector(s);
        if r.Yes? { LeavesIsGo(Bind(o, compound), r.rest, Built(q.(selector := r.v), err)); }
      case Some(w) =>
        ThenDo(Bind(o, word), s[|w|..], Pushes(Built(q, err), Str(w)), SetSimpleSelector);
        StepSelector(q, err, w);
        LeavesIsGo(Bind(o, simple), s[|w|..], Built(q.(selector := Q.SimpleSelector(w)), err));
    }
  }
}
