/** Rule by rule: the grammar run with its actions returns the value of the reference reader,
    on the stack or in the query, and fails where it fails. */
module RulesAgree {
  import opened Std
  import opened Grammar
  import opened Peg
  import opened ParseState
  import opened Interpret
  import opened Reference
  import opened ParserAgrees
  import Q = Queries

  // ---- Criteria leaves ----

  /** `e` reads one of the words and pushes it. */
  ghost predicate ReadsWord(e: Expr, ws: WordList, s: string, m: Machine) {
    match FirstWord(ws, s, 0)
    case None => Run(e, s, m) == Fail
    case Some(w) => Leaves(Run(e, s, m), s[|w|..], Pushes(m, Str(w)))
  }

  lemma {:induction false} KeywordReads(r: Rule, op: Rule, ws: WordList)
    ensures forall s: string, m: Machine :: !m.stuck ==> ReadsWord(Keyword(r, op, ws), ws, s, m)
  {
    hide Run, Finite, Start, Consumes, Leaves, Pushes, FirstWord;
    forall s: string, m: Machine | !m.stuck ensures ReadsWord(Keyword(r, op, ws), ws, s, m) {
      RunKeyword(r, op, ws, s, m);
    }
  }

  lemma {:induction false} FirstOfOne(w: string, ws: WordList, s: string)
    requires ws == [w]
    ensures FirstWord(ws, s, 0) == if w <= s then Some(w) else None
  {
    assert ws[1..] == [];
  }

  lemma {:induction false} WordReads(w: string, ws: WordList)
    requires ws == [w] && w != ""
    ensures forall s: string, m: Machine :: !m.stuck ==> ReadsWord(Pushed(Word(w)), ws, s, m)
  {
    forall s: string, m: Machine | !m.stuck ensures ReadsWord(Pushed(Word(w)), ws, s, m) {
      FirstOfOne(w, ws, s);
      RunWord(w, s, m);
      hide Run, Finite, Start, Consumes, Leaves, Pushes, FirstWord;
      RunPushed(Word(w), s, m);
      if w <= s { assert s[..|s| - |s[|w|..]|] == w; }
    }
  }

  lemma {:induction false} RunThen6(a: Expr, b: Expr, c: Expr, d: Expr, e: Expr, f: Expr, s: string, m: Machine)
    requires Safe(a) && Safe(b) && Safe(c) && Safe(d) && Safe(e) && Safe(f)
    ensures Run(Then(a, Then5(b, c, d, e, f)), s, m)
      == Bind(Bind(Bind(Bind(Bind(Run(a, s, m), b), c), d), e), f)
  {
    hide Finite, Start, Consumes, Safe, Solid, Run, Then, Bind;
    var o := Run(a, s, m);
    RunThen(a, Then5(b, c, d, e, f), s, m);
    BindThen(o, b, Then4(c, d, e, f));
    BindThen(Bind(o, b), c, Then3(d, e, f));
    BindThen(Bind(Bind(o, b), c), d, Then(e, f));
    BindThen(Bind(Bind(Bind(o, b), c), d), e, f);
  }

  lemma {:induction false} LeafSteps(r: Rule, name: Expr, compare: Expr, vr: Rule, k: Class, s: string, m: Machine)
    requires Solid(name) && Solid(compare)
    ensures Run(LeafExpr(r, name, compare, Lexeme(vr, k)), s, m) == LeafSequence(name, compare, vr, k, s, m)
  {
    hide Body;
    hide Finite, Start, Consumes, Safe, Solid, Then, Then5, Bind, Lexeme;
    RunThen6(name, Wsx(), compare, Wsx(), Lexeme(vr, k), Do(Push), s, m);
  }

  function LeafSequence(name: Expr, compare: Expr, vr: Rule, k: Class, s: string, m: Machine): Outcome {
    Bind(Bind(Bind(Bind(Bind(Run(name, s, m), Wsx()), compare), Wsx()), Lexeme(vr, k)), Do(Push))
  }

  // ---- One more step ----

  lemma BindFail(b: Expr)
    ensures Bind(Fail, b) == Fail
  {
    hide Body;
  }

  lemma ThenWsx(o: Outcome, rest: string, m: Machine)
    requires Leaves(o, rest, m)
    ensures Leaves(Bind(o, Wsx()), Skip(rest), m)
  {
    hide Wsx, Run, Skip;
    RunWsx(o.rest, o.m);
  }

  lemma ThenWs(o: Outcome, rest: string, m: Machine)
    requires Leaves(o, rest, m)
    ensures if Spaced(rest) then Leaves(Bind(o, Ws()), Skip(rest), m) else Bind(o, Ws()) == Fail
  {
    hide Ws, Run, Skip, Spaced;
    RunWs(o.rest, o.m);
  }

  lemma ThenWord(o: Outcome, rest: string, m: Machine, w: string)
    requires Leaves(o, rest, m) && w != ""
    ensures if w <= rest then Leaves(Bind(o, Word(w)), rest[|w|..], m) else Bind(o, Word(w)) == Fail
  {
    hide Word, Run;
    RunWord(w, o.rest, o.m);
  }

  lemma ThenReads(o: Outcome, rest: string, m: Machine, e: Expr, ws: WordList)
    requires Leaves(o, rest, m) && !m.stuck
    requires forall s: string, m: Machine :: !m.stuck ==> ReadsWord(e, ws, s, m)
    ensures match FirstWord(ws, rest, 0)
      case None => Bind(o, e) == Fail
      case Some(w) => Leaves(Bind(o, e), rest[|w|..], Pushes(m, Str(w)))
  {
    hide Finite, FirstWord, Run;
    assert ReadsWord(e, ws, o.rest, o.m);
  }

  lemma ThenPushesLexeme(o: Outcome, rest: string, m: Machine, r: Rule, k: Class)
    requires Leaves(o, rest, m) && !m.stuck
    ensures var n := Span(k, rest);
      var o' := Bind(Bind(o, Lexeme(r, k)), Do(Push));
      if n == 0 then o' == Fail else Leaves(o', rest[n..], Pushes(m, Str(rest[..n])))
  {
    hide Lexeme, Run, Span;
    RunLexeme(r, k, o.rest, o.m);
    var o1 := Bind(o, Lexeme(r, k));
    if o1.Go? { RunDo(Push, o1.rest, o1.m); }
  }

  lemma ThenDo(o: Outcome, rest: string, m: Machine, act: Action)
    requires Leaves(o, rest, m) && !act.Push? && !act.SetNamespace? && !act.SetLimit?
    ensures Leaves(Bind(o, Do(act)), rest, Step(act, m))
  {
    hide Run;
    RunDo(act, o.rest, o.m);
  }

  lemma Begins(e: Expr, s: string, m: Machine)
    ensures Leaves(Go(s, m), s, m) && Bind(Go(s, m), e) == Run(e, s, m)
  {
    hide Body;
  }

  lemma {:induction false} ValueLeafAgrees(r: Rule, name: Expr, names: WordList, compare: Expr, ops: WordList,
      vr: Rule, k: Class, s: string, m: Machine)
    requires Solid(name) && Solid(compare) && !m.stuck
    requires forall s: string, m: Machine :: !m.stuck ==> ReadsWord(name, names, s, m)
    requires forall s: string, m: Machine :: !m.stuck ==> ReadsWord(compare, ops, s, m)
    ensures var o := Run(LeafExpr(r, name, compare, Lexeme(vr, k)), s, m);
      match RefLeaf(names, ops, k, s)
      case No => o == Fail
      case Yes(l, _, rest) => Leaves(o, rest, Pushes(Pushes(Pushes(m, Str(l.name)), Str(l.op)), Str(l.val)))
  {
    hide Finite, Start, Consumes, Safe, Solid, LeafExpr, Lexeme, Wsx, Run, Skip, Span, FirstWord, Step, Do, Bind, Leaves;
    hide ReadsWord, Pushes;
    LeafSteps(r, name, compare, vr, k, s, m);
    var o0 := Go(s, m);
    Begins(name, s, m);
    ThenReads(o0, s, m, name, names);
    match FirstWord(names, s, 0) {
      case None => BindFail(Wsx()); BindFail(compare); BindFail(Lexeme(vr, k)); BindFail(Do(Push));
      case Some(w) =>
        var s1, m1 := s[|w|..], Pushes(m, Str(w));
        var o1 := Bind(o0, name);
        ThenWsx(o1, s1, m1);
        var o2 := Bind(o1, Wsx());
        ThenReads(o2, Skip(s1), m1, compare, ops);
        match FirstWord(ops, Skip(s1), 0) {
          case None => BindFail(Wsx()); BindFail(Lexeme(vr, k)); BindFail(Do(Push));
          case Some(w') =>
            var s2, m2 := Skip(s1)[|w'|..], Pushes(m1, Str(w'));
            var o3 := Bind(o2, compare);
            ThenWsx(o3, s2, m2);
            ThenPushesLexeme(Bind(o3, Wsx()), Skip(s2), m2, vr, k);
        }
    }
  }

  lemma {:induction false} IndexLeafAgrees(s: string, m: Machine)
    requires !m.stuck
    ensures ReadsIndex(Run(IndexExpr(), s, m), RefIndex(s), m)
  {
    hide Finite, Start, Consumes, Safe, Solid, Production, LeafExpr, Lexeme, Wsx, Run, Skip, Span, FirstWord, Step, Do, Bind;
    hide Leaves, ReadsWord, Pushes, Word, Pushed;
    var name, compare := Pushed(Word("wki")), Word("=");
    RunProduction(IndexCriteria, LeafExpr(WKICriteria, name, compare, Lexeme(WKI, WkiChars)), s, m);
    LeafSteps(WKICriteria, name, compare, WKI, WkiChars, s, m);
    WordReads("wki", WKI_WORD);
    Begins(name, s, m);
    ThenReads(Go(s, m), s, m, name, WKI_WORD);
    match FirstWord(WKI_WORD, s, 0) {
      case None => BindFail(Wsx()); BindFail(compare); BindFail(Lexeme(WKI, WkiChars)); BindFail(Do(Push));
      case Some(w) =>
        var s1, m1 := s[|w|..], Pushes(m, Str(w));
        var o1 := Bind(Go(s, m), name);
        ThenWsx(o1, s1, m1);
        var o2 := Bind(o1, Wsx());
        ThenWord(o2, Skip(s1), m1, "=");
        FirstOfOne("=", EQUALS_WORD, Skip(s1));
        if "=" <= Skip(s1) {
          var s2, o3 := Skip(s1)[1..], Bind(o2, compare);
          ThenWsx(o3, s2, m1);
          ThenPushesLexeme(Bind(o3, Wsx()), Skip(s2), m1, WKI, WkiChars);
        } else {
          BindFail(Wsx()); BindFail(Lexeme(WKI, WkiChars)); BindFail(Do(Push));
        }
    }
  }

  ghost predicate ReadsIndex(o: Outcome, r: Out<Leaf>, m: Machine) {
    match r
    case No => o == Fail
    case Yes(l, _, rest) => Leaves(o, rest, Pushes(Pushes(m, Str(l.name)), Str(l.val)))
  }

  ghost predicate ReadsLeaf(o: Outcome, r: Out<Leaf>, m: Machine) {
    match r
    case No => o == Fail
    case Yes(l, _, rest) => Leaves(o, rest, Pushes(Pushes(Pushes(m, Str(l.name)), Str(l.op)), Str(l.val)))
  }

  lemma {:induction false} PairLeafAgrees(r: Rule, w: string, ws: WordList, vr: Rule, k: Class, s: string, m: Machine)
    requires w != "" && ws == [w] && !m.stuck
    ensures ReadsLeaf(Run(LeafExpr(r, Pushed(Word(w)), EqualityExpr(), Lexeme(vr, k)), s, m),
      RefLeaf(ws, EQUALITY_WORDS, k, s), m)
  {
    hide Finite, Start, Consumes, Safe, Solid, LeafExpr, Lexeme, Run, RefLeaf, Pushes, Leaves, Pushed, Word, Keyword;
    WordReads(w, ws);
    KeywordReads(ValueCompare, ValueCompareOp, EQUALITY_WORDS);
    ValueLeafAgrees(r, Pushed(Word(w)), ws, EqualityExpr(), EQUALITY_WORDS, vr, k, s, m);
  }

  lemma {:induction false} ValueAgrees(s: string, m: Machine)
    requires !m.stuck
    ensures ReadsLeaf(Run(ValueExpr(), s, m), RefValue(s), m)
  {
    PairLeafAgrees(IdCriteria, "id", ID_WORD, StatementId, IdChars, s, m);
    PairLeafAgrees(PublisherCriteria, "publisher", PUBLISHER_WORD, PublisherId, AlnumChars, s, m);
    PairLeafAgrees(SourceCriteria, "source", SOURCE_WORD, PublisherId, AlnumChars, s, m);
    hide Finite, Start, Consumes, Safe, Solid, Production, LeafExpr, Lexeme, Run, RefLeaf, Pushes, Leaves, Pushed;
    hide EqualityExpr, Or, Word;
    RunProduction(ValueCriteria, Or(IdExpr(), Or(PublisherExpr(), SourceCriteriaExpr())), s, m);
    RunOr(IdExpr(), Or(PublisherExpr(), SourceCriteriaExpr()), s, m);
    RunOr(PublisherExpr(), SourceCriteriaExpr(), s, m);
  }

  lemma {:induction false} RangeAgrees(s: string, m: Machine)
    requires !m.stuck
    ensures ReadsLeaf(Run(RangeExpr(), s, m), RefRange(s), m)
  {
    hide Finite, Start, Consumes, Safe, Solid, LeafExpr, Lexeme, Run, RefLeaf, Pushes, Leaves, Keyword;
    KeywordReads(RangeSelector, RangeSelectorOp, RANGE_WORDS);
    KeywordReads(Comparison, ComparisonOp, COMPARISON_WORDS);
    ValueLeafAgrees(RangeCriteria, Keyword(RangeSelector, RangeSelectorOp, RANGE_WORDS), RANGE_WORDS,
      Keyword(Comparison, ComparisonOp, COMPARISON_WORDS), COMPARISON_WORDS, UInt, Digits, s, m);
  }

  // ---- Criteria ----

  /** One more item, and perhaps a later overflow. */
  function Gains(m: Machine, item: Item, err: Option<string>): (r: Machine)
    ensures r.stuck == m.stuck
  {
    m.(stack := m.stack + [item], err := Later(m.err, err))
  }

  ghost predicate ReadsCriteria(o: Outcome, r: Out<Q.Criteria>, m: Machine) {
    match r
    case No => o == Fail
    case Yes(c, e, rest) => Leaves(o, rest, Gains(m, Crit(c), e))
  }

  lemma {:induction false} StepThree(m: Machine, a: string, b: string, c: string)
    requires !m.stuck
    ensures var m' := Pushes(Pushes(Pushes(m, Str(a)), Str(b)), Str(c));
      && Step(AddValueCriteria, m') == Gains(m, Crit(Q.ValueCriteria(a, b, c)), None)
      && Step(AddRangeCriteria, m') == Gains(m, Crit(Q.RangeCriteria(a, b, NumberOf(c))), NumberError(c, None))
  {
    hide NumberOf;
    var m' := Pushes(Pushes(Pushes(m, Str(a)), Str(b)), Str(c));
    assert m'.stack == m.stack + [Str(a), Str(b), Str(c)];
    assert Top(m', 0) == Str(c) && Top(m', 1) == Str(b) && Top(m', 2) == Str(a);
    assert m'.stack[..|m'.stack| - 3] == m.stack;
  }

  lemma {:induction false} StepTwo(m: Machine, a: string, c: string)
    requires !m.stuck
    ensures Step(AddIndexCriteria, Pushes(Pushes(m, Str(a)), Str(c))) == Gains(m, Crit(Q.IndexCriteria(a, c)), None)
  {
    var m' := Pushes(Pushes(m, Str(a)), Str(c));
    assert m'.stack == m.stack + [Str(a), Str(c)];
    assert Top(m', 0) == Str(c) && Top(m', 1) == Str(a);
    assert m'.stack[..|m'.stack| - 2] == m.stack;
  }

  lemma {:induction false} SimpleAgrees(s: string, m: Machine)
    requires !m.stuck
    ensures ReadsCriteria(Run(SimpleCriteriaExpr(), s, m), RefSimple(s), m)
  {
    hide Finite, Start, Consumes, Safe, Solid, Production, Run, Pushes, Leaves, ValueExpr, RangeExpr, IndexExpr;
    hide Or, Then, Do, Step, RefValue, RefRange, RefIndex, Gains, Bind, NumberOf, NumberError;
    var value := Then(ValueExpr(), Do(AddValueCriteria));
    var range := Then(RangeExpr(), Do(AddRangeCriteria));
    var index := Then(IndexExpr(), Do(AddIndexCriteria));
    RunProduction(SimpleCriteria, Or(value, Or(range, index)), s, m);
    RunOr(value, Or(range, index), s, m);
    RunOr(range, index, s, m);
    RunThen(ValueExpr(), Do(AddValueCriteria), s, m);
    RunThen(RangeExpr(), Do(AddRangeCriteria), s, m);
    RunThen(IndexExpr(), Do(AddIndexCriteria), s, m);
    ValueAgrees(s, m);
    RangeAgrees(s, m);
    IndexLeafAgrees(s, m);
    BindFail(Do(AddValueCriteria));
    BindFail(Do(AddRangeCriteria));
    BindFail(Do(AddIndexCriteria));
    match RefValue(s) {
      case Yes(l, _, rest) =>
        ThenDo(Run(ValueExpr(), s, m), rest, Pushes(Pushes(Pushes(m, Str(l.name)), Str(l.op)), Str(l.val)), AddValueCriteria);
        StepThree(m, l.name, l.op, l.val);
        LeavesGo(Run(value, s, m), rest);
      case No =>
        match RefRange(s) {
          case Yes(l, _, rest) =>
            ThenDo(Run(RangeExpr(), s, m), rest, Pushes(Pushes(Pushes(m, Str(l.name)), Str(l.op)), Str(l.val)), AddRangeCriteria);
            StepThree(m, l.name, l.op, l.val);
            LeavesGo(Run(range, s, m), rest);
          case No =>
            match RefIndex(s) {
              case Yes(l, _, rest) =>
                ThenDo(Run(IndexExpr(), s, m), rest, Pushes(Pushes(m, Str(l.name)), Str(l.val)), AddIndexCriteria);
                StepTwo(m, l.name, l.val);
                LeavesGo(Run(index, s, m), rest);
              case No =>
            }
        }
    }
  }

  lemma LeavesGo(o: Outcome, rest: string)
    ensures (exists m :: Leaves(o, rest, m)) ==> o.Go?
  {
    hide Body;
  }
}
