/** The recursive rules: nesting, negation and the left-nested AND/OR chains. */
module CriteriaAgree {
  import opened Std
  import opened Grammar
  import opened Peg
  import opened ParseState
  import opened Interpret
  import opened Reference
  import opened ParserAgrees
  import opened RulesAgree
  import Q = Queries

  lemma {:induction false} RunAfter(a: Expr, b: Expr, s: string, m: Machine)
    requires Solid(a) && Finite(b)
    ensures Run(After(a, b), s, m) == Bind(Run(a, s, m), b)
  {
    hide Body;
  }

  lemma {:induction false} BindAfter(o: Outcome, a: Expr, b: Expr)
    requires Solid(a) && Finite(b)
    ensures Bind(o, After(a, b)) == Bind(Bind(o, a), b)
  {
    hide Finite, Start, Consumes, Safe, Solid, Run, After;
    if o.Go? { RunAfter(a, b, o.rest, o.m); }
  }

  lemma {:induction false} BindCall(o: Outcome, r: Rule, rest: Expr)
    requires r in {CompoundCriteria, MultiCriteria} && Safe(rest)
    ensures Bind(o, Call(r, rest)) == Bind(Bind(o, Ref(r)), rest)
  {
    hide Body;
  }

  lemma {:induction false} RunRef(r: Rule, s: string, m: Machine)
    requires r in {CompoundCriteria, MultiCriteria}
    ensures Run(Ref(r), s, m) == Run(Body(r), s, m)
  {
    hide Body;
  }

  // ---- The actions of the recursive rules ----

  lemma {:induction false} StepNegated(m: Machine, c: Q.Criteria, err: Option<string>)
    requires !m.stuck
    ensures Step(AddNegatedCriteria, Gains(m, Crit(c), err)) == Gains(m, Crit(Q.NegatedCriteria(c)), err)
  {
    var m' := Gains(m, Crit(c), err);
    assert Top(m', 0) == Crit(c) && m'.stack[..|m'.stack| - 1] == m.stack;
  }

  lemma {:induction false} StepCompound(m: Machine, left: Q.Criteria, e: Option<string>, op: string,
      right: Q.Criteria, e': Option<string>)
    requires !m.stuck
    ensures Step(AddCompoundCriteria, Gains(Pushes(Gains(m, Crit(left), e), Str(op)), Crit(right), e'))
      == Gains(m, Crit(Q.CompoundCriteria(op, left, right)), Later(e, e'))
  {
    var m' := Gains(Pushes(Gains(m, Crit(left), e), Str(op)), Crit(right), e');
    assert m'.stack == m.stack + [Crit(left), Str(op), Crit(right)];
    assert Top(m', 0) == Crit(right) && Top(m', 1) == Str(op) && Top(m', 2) == Crit(left);
    assert m'.stack[..|m'.stack| - 3] == m.stack;
  }

  // ---- One step more ----

  lemma ThenCompound(o: Outcome, rest: string, m: Machine)
    requires Leaves(o, rest, m) && !m.stuck
    ensures match RefCompound(rest)
      case No => Bind(o, Ref(CompoundCriteria)) == Fail
      case Yes(c, e, rest') => Leaves(Bind(o, Ref(CompoundCriteria)), rest', Gains(m, Crit(c), e))
    decreases |rest|, 2
  {
    hide Run, RefCompound;
    CompoundAgrees(rest, o.m);
  }

  lemma ThenMulti(o: Outcome, rest: string, m: Machine)
    requires Leaves(o, rest, m) && !m.stuck
    ensures match RefMulti(rest)
      case No => Bind(o, Ref(MultiCriteria)) == Fail
      case Yes(c, e, rest') => Leaves(Bind(o, Ref(MultiCriteria)), rest', Gains(m, Crit(c), e))
    decreases |rest|, 5
  {
    hide Run, RefMulti;
    MultiAgrees(rest, o.m);
  }

  lemma {:induction false} ParensAgrees(s: string, m: Machine)
    requires !m.stuck
    ensures ReadsCriteria(Run(ParensExpr(), s, m),
      if "(" <= s && RefMulti(s[1..]).Yes? && ")" <= RefMulti(s[1..]).rest
      then RefMulti(s[1..]).(rest := RefMulti(s[1..]).rest[1..]) else No, m)
    decreases |s|, 0
  {
    hide Finite, Start, Consumes, Safe, Solid, Run, Bind, Leaves, Gains, RefMulti, Word, After, Call;
    var o0 := Go(s, m);
    var closing, opening := Word(")"), Word("(");
    RunAfter(opening, Call(MultiCriteria, closing), s, m);
    Begins(opening, s, m);
    BindCall(Bind(o0, opening), MultiCriteria, closing);
    ThenWord(o0, s, m, "(");
    if "(" <= s {
      var o1, s1 := Bind(o0, opening), s[1..];
      ThenMulti(o1, s1, m);
      match RefMulti(s1) {
        case No => BindFail(closing);
        case Yes(c, e, rest) => ThenWord(Bind(o1, Ref(MultiCriteria)), rest, Gains(m, Crit(c), e), ")");
      }
    } else {
      BindFail(Ref(MultiCriteria)); BindFail(closing);
    }
  }

  lemma {:induction false} NegatedAgrees(s: string, m: Machine)
    requires !m.stuck
    ensures ReadsCriteria(Run(NegatedExpr(), s, m),
      if "NOT" <= s && Spaced(s[3..]) && RefCompound(Skip(s[3..])).Yes?
      then RefCompound(Skip(s[3..])).(v := Q.NegatedCriteria(RefCompound(Skip(s[3..])).v)) else No, m)
    decreases |s|, 0
  {
    hide Finite, Start, Consumes, Safe, Solid, Run, Bind, Leaves, Gains, RefCompound, Word, After, Call, Ws, Do, Step;
    hide Spaced, Skip;
    var o0 := Go(s, m);
    var word, act := Word("NOT"), Do(AddNegatedCriteria);
    RunAfter(word, After(Ws(), Call(CompoundCriteria, act)), s, m);
    Begins(word, s, m);
    var o1 := Bind(o0, word);
    BindAfter(o1, Ws(), Call(CompoundCriteria, act));
    BindCall(Bind(o1, Ws()), CompoundCriteria, act);
    ThenWord(o0, s, m, "NOT");
    if "NOT" <= s {
      ThenWs(o1, s[3..], m);
      if Spaced(s[3..]) {
        var o2, s2 := Bind(o1, Ws()), Skip(s[3..]);
        ThenCompound(o2, s2, m);
        match RefCompound(s2) {
          case No => BindFail(act);
          case Yes(c, e, rest) =>
            ThenDo(Bind(o2, Ref(CompoundCriteria)), rest, Gains(m, Crit(c), e), AddNegatedCriteria);
            StepNegated(m, c, e);
        }
      } else {
        BindFail(Ref(CompoundCriteria)); BindFail(act);
      }
    } else {
      BindFail(Ws()); BindFail(Ref(CompoundCriteria)); BindFail(act);
    }
  }

  lemma {:induction false} CompoundAgrees(s: string, m: Machine)
    requires !m.stuck
    ensures ReadsCriteria(Run(Ref(CompoundCriteria), s, m), RefCompound(s), m)
    decreases |s|, 1
  {
    hide Finite, Start, Consumes, Safe, Solid, Run, Leaves, Gains, RefMulti, Skip, Spaced, RefSimple, Or;
    hide SimpleCriteriaExpr, ParensExpr, NegatedExpr;
    RunRef(CompoundCriteria, s, m);
    RunOr(SimpleCriteriaExpr(), Or(ParensExpr(), NegatedExpr()), s, m);
    RunOr(ParensExpr(), NegatedExpr(), s, m);
    SimpleAgrees(s, m);
    ParensAgrees(s, m);
    NegatedAgrees(s, m);
    OutcomeGo(Run(SimpleCriteriaExpr(), s, m), RefSimple(s), m);
    assert "(" <= s ==> s[0] == '(' && !("NOT" <= s);
    if "(" <= s && RefMulti(s[1..]).Yes? && ")" <= RefMulti(s[1..]).rest {
      var r := RefMulti(s[1..]);
      OutcomeGo(Run(ParensExpr(), s, m), r.(rest := r.rest[1..]), m);
    }
  }

  lemma OutcomeGo(o: Outcome, r: Out<Q.Criteria>, m: Machine)
    requires ReadsCriteria(o, r, m)
    ensures o.Go? <==> r.Yes?
  {
  }

  lemma {:induction false} MultiAgrees(s: string, m: Machine)
    requires !m.stuck
    ensures ReadsCriteria(Run(Ref(MultiCriteria), s, m), RefMulti(s), m)
    decreases |s|, 4
  {
    hide Finite, Start, Consumes, Safe, Solid, Run, Bind, Leaves, Gains, RefCompound, RefTail, NextExpr, Many;
    RunRef(MultiCriteria, s, m);
    var o0, next := Go(s, m), Many(NextExpr());
    RunMultiBody(s, m);
    Begins(Ref(CompoundCriteria), s, m);
    ThenCompound(o0, s, m);
    match RefCompound(s) {
      case No => BindFail(next);
      case Yes(c, e, rest) => TailAgrees(Bind(o0, Ref(CompoundCriteria)), rest, m, c, e);
    }
  }

  lemma RunMultiBody(s: string, m: Machine)
    ensures Run(MultiBody(), s, m) == Bind(Run(Ref(CompoundCriteria), s, m), Many(NextExpr()))
  {
    hide NextExpr, Many, Body;
    assert Finite(MultiBody());
  }

  lemma {:induction false} TailAgrees(o: Outcome, s: string, m: Machine, c: Q.Criteria, e: Option<string>)
    requires !m.stuck && Leaves(o, s, Gains(m, Crit(c), e))
    ensures var r := RefTail(c, e, s);
      Leaves(Bind(o, Many(NextExpr())), r.rest, Gains(m, Crit(r.v), r.err))
    decreases |s|, 3
  {
    hide Finite, Start, Consumes, Safe, Solid, Run, Gains, RefNext, NextExpr, Many;
    RunMany(NextExpr(), s, o.m);
    NextAgrees(o, s, m, c, e);
    match RefNext(s) {
      case No =>
      case Yes((op, right), e', rest) =>
        TailAgrees(Bind(o, NextExpr()), rest, m, Q.CompoundCriteria(op, c, right), Later(e, e'));
    }
  }

  lemma {:induction false} NextAgrees(o: Outcome, s: string, m: Machine, c: Q.Criteria, e: Option<string>)
    requires !m.stuck && Leaves(o, s, Gains(m, Crit(c), e))
    ensures match RefNext(s)
      case No => Bind(o, NextExpr()) == Fail
      case Yes((op, right), e', rest) =>
        Leaves(Bind(o, NextExpr()), rest, Gains(m, Crit(Q.CompoundCriteria(op, c, right)), Later(e, e')))
    decreases |s|, 2
  {
    hide Finite, Start, Consumes, Safe, Solid, Run, Bind, Leaves, Gains, Pushes, RefCompound, Later, Step;
    hide After, Call, Ws, Do, Keyword, Spaced, Skip, FirstWord, ReadsWord;
    var m0 := Gains(m, Crit(c), e);
    var act, word := Do(AddCompoundCriteria), Keyword(Boolean, BooleanOp, BOOLEAN_WORDS);
    var right := Call(CompoundCriteria, act);
    BindAfter(o, Ws(), After(word, After(Ws(), right)));
    var o1 := Bind(o, Ws());
    BindAfter(o1, word, After(Ws(), right));
    var o2 := Bind(o1, word);
    BindAfter(o2, Ws(), right);
    var o3 := Bind(o2, Ws());
    BindCall(o3, CompoundCriteria, act);
    KeywordReads(Boolean, BooleanOp, BOOLEAN_WORDS);
    ThenWs(o, s, m0);
    if !Spaced(s) {
      BindFail(word); BindFail(Ws()); BindFail(Ref(CompoundCriteria)); BindFail(act);
    } else {
      ThenReads(o1, Skip(s), m0, word, BOOLEAN_WORDS);
      match FirstWord(BOOLEAN_WORDS, Skip(s), 0) {
        case None => BindFail(Ws()); BindFail(Ref(CompoundCriteria)); BindFail(act);
        case Some(op) =>
          var s2, m2 := Skip(s)[|op|..], Pushes(m0, Str(op));
          ThenWs(o2, s2, m2);
          if !Spaced(s2) {
            BindFail(Ref(CompoundCriteria)); BindFail(act);
          } else {
            ThenCompound(o3, Skip(s2), m2);
            match RefCompound(Skip(s2)) {
              case No => BindFail(act);
              case Yes(d, e', rest) =>
                ThenDo(Bind(o3, Ref(CompoundCriteria)), rest, Gains(m2, Crit(d), e'), AddCompoundCriteria);
                StepCompound(m, c, e, op, d, e');
            }
          }
      }
    }
  }
}
