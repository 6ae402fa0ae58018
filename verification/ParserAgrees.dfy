/** The grammar with its stack actions computes what recursive descent returns. */
module ParserAgrees {
  import opened Std
  import opened Grammar
  import opened Peg
  import opened ParseState
  import opened Interpret
  import opened Reference

  /** Running `b` where `o` stopped. */
  function Bind(o: Outcome, b: Expr): Outcome {
    if o.Fail? then Fail else Run(b, o.rest, o.m)
  }

  /** `o` stopped at `rest` in the state `m`, whatever text was captured last. */
  ghost predicate Leaves(o: Outcome, rest: string, m: Machine) {
    o.Go? && o.rest == rest && o.m == m.(text := o.m.text)
  }

  function Pushes(m: Machine, item: Item): (r: Machine)
    ensures r.stuck == m.stuck
  {
    m.(stack := m.stack + [item])
  }

  // ---- Sequences ----

  lemma {:induction false} RunThen(a: Expr, b: Expr, s: string, m: Machine)
    requires Safe(a) && Safe(b)
    ensures Run(Then(a, b), s, m) == Bind(Run(a, s, m), b)
  {
    hide Body;
    hide Finite, Start, Consumes;
  }

  lemma {:induction false} BindThen(o: Outcome, a: Expr, b: Expr)
    requires Safe(a) && Safe(b)
    ensures Bind(o, Then(a, b)) == Bind(Bind(o, a), b)
  {
    hide Finite, Start, Consumes, Safe, Solid, Run, Then;
    if o.Go? { RunThen(a, b, o.rest, o.m); }
  }

  lemma {:induction false} RunThen3(a: Expr, b: Expr, c: Expr, s: string, m: Machine)
    requires Safe(a) && Safe(b) && Safe(c)
    ensures Run(Then3(a, b, c), s, m) == Bind(Bind(Run(a, s, m), b), c)
  {
    hide Finite, Start, Consumes, Safe, Solid, Run, Then, Bind;
    RunThen(a, Then(b, c), s, m);
    BindThen(Run(a, s, m), b, c);
  }

  // ---- The other constructors ----

  lemma {:induction false} RunOr(a: Expr, b: Expr, s: string, m: Machine)
    requires Safe(a) && Safe(b)
    ensures Run(Or(a, b), s, m) == if Run(a, s, m).Go? then Run(a, s, m) else Run(b, s, m)
  {
    hide Body;
  }

  lemma {:induction false} RunMany(a: Expr, s: string, m: Machine)
    requires Solid(a)
    ensures var o := Run(a, s, m);
      Run(Many(a), s, m) == if o.Fail? then Go(s, m) else Run(Many(a), o.rest, o.m)
  {
    hide Body;
  }

  lemma {:induction false} RunMaybe(a: Expr, s: string, m: Machine)
    requires Safe(a)
    ensures Run(Maybe(a), s, m) == if Run(a, s, m).Go? then Run(a, s, m) else Go(s, m)
  {
    hide Body;
  }

  lemma {:induction false} RunProduction(r: Rule, a: Expr, s: string, m: Machine)
    requires Safe(a)
    ensures Run(Production(r, a), s, m) == Run(a, s, m)
  {
    hide Body;
  }

  lemma {:induction false} RunText(a: Expr, s: string, m: Machine)
    requires Solid(a)
    ensures var o := Run(a, s, m);
      Run(Text(a), s, m) == if o.Fail? then Fail else Go(o.rest, o.m.(text := s[..|s| - |o.rest|]))
  {
    hide Body;
  }

  // ---- Words, space and lexemes ----

  lemma RunWord(w: string, s: string, m: Machine)
    requires w != ""
    ensures Run(Word(w), s, m) == if w <= s then Go(s[|w|..], m) else Fail
  {
    hide Body;
  }

  lemma RunDo(act: Action, s: string, m: Machine)
    ensures Run(Do(act), s, m) == Go(s, Step(act, m))
  {
    hide Body;
    hide Step;
  }

  lemma {:induction false} RunSpace(s: string, m: Machine)
    ensures var o := Run(SpaceExpr(), s, m);
      && (o.Fail? <==> !Spaced(s))
      && (o.Go? ==> o.m == m && Skip(o.rest) == Skip(s) && |o.rest| < |s|)
  {
    hide Body;
    var blank: WordList := [" ", "\t"];
    var eol: WordList := ["\r\n", "\n", "\r"];
    FirstBlank(blank, s);
    FirstEol(eol, s);
    RunProduction(EOL, Words(eol), s, m);
    RunProduction(WhiteSpace, Or(Words(blank), EolExpr()), s, m);
    RunOr(Words(blank), EolExpr(), s, m);
  }

  lemma {:induction false} FirstBlank(ws: WordList, s: string)
    requires ws == [" ", "\t"]
    ensures FirstWord(ws, s, 0) ==
      if s != "" && s[0] == ' ' then Some(" ") else if s != "" && s[0] == '\t' then Some("\t") else None
  {
    assert FirstWord(ws, s, 0) == if At(s, 0, " ") then Some(" ") else FirstWord(ws[1..], s, 0);
    assert ws[1..] == ["\t"];
    assert FirstWord(ws[1..], s, 0) == if At(s, 0, "\t") then Some("\t") else FirstWord(ws[1..][1..], s, 0);
    assert ws[1..][1..] == [];
  }

  lemma {:induction false} FirstEol(ws: WordList, s: string)
    requires ws == ["\r\n", "\n", "\r"]
    ensures var w := FirstWord(ws, s, 0);
      && (w.Some? <==> s != "" && (s[0] == '\r' || s[0] == '\n'))
      && (w.Some? ==> |w.value| == 1 || (|w.value| == 2 && |s| > 1 && s[0] == '\r' && s[1] == '\n'))
  {
    assert FirstWord(ws, s, 0) == if At(s, 0, "\r\n") then Some("\r\n") else FirstWord(ws[1..], s, 0);
    assert ws[1..] == ["\n", "\r"];
    assert FirstWord(ws[1..], s, 0) == if At(s, 0, "\n") then Some("\n") else FirstWord(ws[1..][1..], s, 0);
    assert ws[1..][1..] == ["\r"];
    assert FirstWord(ws[1..][1..], s, 0) == if At(s, 0, "\r") then Some("\r") else FirstWord(ws[1..][1..][1..], s, 0);
    assert ws[1..][1..][1..] == [];
  }

  lemma {:induction false} RunSpaces(s: string, m: Machine)
    ensures Run(Many(SpaceExpr()), s, m) == Go(Skip(s), m)
    decreases |s|
  {
    hide Body;
    hide SpaceExpr;
    RunSpace(s, m);
    var o := Run(SpaceExpr(), s, m);
    if o.Go? { RunSpaces(o.rest, m); }
  }

  lemma {:induction false} RunWsx(s: string, m: Machine)
    ensures Run(Wsx(), s, m) == Go(Skip(s), m)
  {
    hide Body;
    hide SpaceExpr;
    RunSpaces(s, m);
  }

  lemma {:induction false} RunWs(s: string, m: Machine)
    ensures Run(Ws(), s, m) == if Spaced(s) then Go(Skip(s), m) else Fail
  {
    hide Body;
    hide SpaceExpr, Then;
    RunSpace(s, m);
    RunThen(SpaceExpr(), Many(SpaceExpr()), s, m);
    assert Run(Ws(), s, m) == Run(Plus(SpaceExpr()), s, m);
    var o := Run(SpaceExpr(), s, m);
    if o.Go? { RunSpaces(o.rest, m); }
  }

  lemma {:induction false} RunChars(k: Class, s: string, m: Machine)
    ensures Run(Many(Char(k)), s, m) == Go(s[Span(k, s)..], m)
  {
    hide Body;
    RunMany(Char(k), s, m);
    if s != "" && InClass(k, s[0]) {
      RunChars(k, s[1..], m);
      assert s[1..][Span(k, s[1..])..] == s[Span(k, s)..];
    }
  }

  lemma {:induction false} RunPlus(k: Class, s: string, m: Machine)
    ensures Run(Plus(Char(k)), s, m) == if Span(k, s) == 0 then Fail else Go(s[Span(k, s)..], m)
  {
    hide Body;
    RunThen(Char(k), Many(Char(k)), s, m);
    hide Then;
    if s != "" && InClass(k, s[0]) {
      RunChars(k, s[1..], m);
      assert s[1..][Span(k, s[1..])..] == s[Span(k, s)..];
    }
  }

  lemma {:induction false} RunLexeme(r: Rule, k: Class, s: string, m: Machine)
    ensures var n := Span(k, s);
      Run(Lexeme(r, k), s, m) == if n == 0 then Fail else Go(s[n..], m.(text := s[..n]))
  {
    hide Body;
    hide Plus, Span;
    RunPlus(k, s, m);
    assert Run(Lexeme(r, k), s, m) == Run(Text(Plus(Char(k))), s, m);
  }

  lemma {:induction false} RunPushed(a: Expr, s: string, m: Machine)
    requires Solid(a) && !m.stuck
    ensures var o := Run(a, s, m);
      && (o.Fail? ==> Run(Pushed(a), s, m) == Fail)
      && (o.Go? && o.m == m ==>
           Leaves(Run(Pushed(a), s, m), o.rest, Pushes(m, Str(s[..|s| - |o.rest|]))))
  {
    hide Body;
    hide Finite, Start, Consumes;
    RunThen(Text(a), Do(Push), s, m);
  }

  lemma {:induction false} RunKeyword(r: Rule, op: Rule, ws: WordList, s: string, m: Machine)
    requires !m.stuck
    ensures var o := Run(Keyword(r, op, ws), s, m);
      match FirstWord(ws, s, 0)
      case None => o == Fail
      case Some(w) => Leaves(o, s[|w|..], Pushes(m, Str(w)))
  {
    hide Body;
    hide FirstWord, Pushed, Pushes, Leaves, Finite, Start, Consumes, Safe, Solid;
    var words := Production(op, Words(ws));
    RunWords(op, ws, s, m);
    RunPushed(words, s, m);
    var w := FirstWord(ws, s, 0);
    if w.Some? {
      assert s[..|s| - |s[|w.value|..]|] == w.value;
    }
  }

  lemma RunWords(op: Rule, ws: WordList, s: string, m: Machine)
    ensures Run(Production(op, Words(ws)), s, m) ==
      match FirstWord(ws, s, 0)
      case None => Fail
      case Some(w) => Go(s[|w|..], m)
  {
    hide Body;
    hide FirstWord;
    RunProduction(op, Words(ws), s, m);
  }
}
