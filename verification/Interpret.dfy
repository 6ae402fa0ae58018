/** The grammar run directly: actions are performed while matching, and what fails is undone
    by continuing from the state before it. */
module Interpret {
  import opened Grammar
  import opened Peg
  import opened ParseState

  datatype Outcome = Fail | Go(rest: string, m: Machine)

  function RunLeaf(e: Expr, s: string, m: Machine): (o: Outcome)
    requires IsLeaf(e)
    ensures o.Go? ==> |o.rest| <= |s| && (Consumes(e) ==> |o.rest| < |s|)
  {
    hide Step;
    match e
    case Lit(w) => if At(s, 0, w) then Go(s[|w|..], m) else Fail
    case OneOf(ws) =>
      (match FirstWord(ws, s, 0)
       case None => Fail
       case Some(w) => Go(s[|w|..], m))
    case Any(k) => if s != "" && InClass(k, s[0]) then Go(s[1..], m) else Fail
    case Act(act) => Go(s, Step(act, m))
    case End => if s == "" then Go(s, m) else Fail
  }

  function RunFinite(e: Expr, s: string, m: Machine): (o: Outcome)
    requires Finite(e)
    ensures o.Go? ==> |o.rest| <= |s|
    ensures o.Go? && Consumes(e) ==> |o.rest| < |s|
    ensures e.Star? || e.Opt? ==> o.Go?
    decreases |s|, Start(e), e
  {
    Parts(e);
    hide Body, RunLeaf, Finite, Start, Consumes;
    match e
    case Seq(a, b) =>
      var o := RunFinite(a, s, m);
      if o.Fail? then Fail else RunFinite(b, o.rest, o.m)
    case Alt(a, b) =>
      var o := RunFinite(a, s, m);
      if o.Go? then o else RunFinite(b, s, m)
    case Star(a) =>
      var o := RunFinite(a, s, m);
      if o.Fail? then Go(s, m) else RunFinite(e, o.rest, o.m)
    case Opt(a) =>
      var o := RunFinite(a, s, m);
      if o.Go? then o else Go(s, m)
    case Named(_, a) => RunFinite(a, s, m)
    case Ref(r) => RunFinite(Body(r), s, m)
    case Capture(a) =>
      var o := RunFinite(a, s, m);
      if o.Fail? then Fail else Go(o.rest, o.m.(text := s[..|s| - |o.rest|]))
    case _ => RunLeaf(e, s, m)
  }

  /** The same for any expression; one that is not well founded is never run. */
  function Run(e: Expr, s: string, m: Machine): (o: Outcome)
    ensures o.Go? ==> |o.rest| <= |s|
  {
    if Finite(e) then RunFinite(e, s, m) else Fail
  }

  /** What running `e` should give when matching gives `d`. */
  ghost predicate Agrees(d: Matching, s: string, m: Machine, o: Outcome) {
    match d
    case Mismatch => o == Fail
    case Matched(p, ds) => p <= |s| && o == Go(s[p..], Steps(PostOrders(ds), s, m))
  }

  /** Matching first and running the token list afterwards is the same as performing the
      actions while matching: nothing tried and given up is ever executed. */
  lemma {:induction false} ExecuteIsInterpret(e: Expr, s: string, pos: nat, m: Machine)
    requires Finite(e) && pos <= |s|
    ensures Agrees(Match(e, s, pos), s, m, RunFinite(e, s[pos..], m))
    decreases |s| - pos, Start(e), e, 1
  {
    hide Agrees, Match, RunFinite, Body, Step;
    match e {
      case Seq(a, b) => SeqAgrees(a, b, s, pos, m);
      case Alt(a, b) => AltAgrees(a, b, s, pos, m);
      case Star(a) => StarAgrees(a, s, pos, m);
      case Opt(a) => OptAgrees(a, s, pos, m);
      case Named(r, a) =>
        MatchNamed(r, a, s, pos);
        RunNamed(r, a, s[pos..], m);
        RuleAgrees(r, a, s, pos, m);
      case Ref(r) =>
        MatchRef(r, s, pos);
        RunCall(r, s[pos..], m);
        RuleAgrees(r, Body(r), s, pos, m);
      case Capture(a) => CaptureAgrees(a, s, pos, m);
      case _ => LeafAgrees(e, s, pos, m);
    }
  }

  lemma {:induction false} LeafAgrees(e: Expr, s: string, pos: nat, m: Machine)
    requires pos <= |s| && IsLeaf(e)
    ensures Agrees(Match(e, s, pos), s, m, RunFinite(e, s[pos..], m))
  {
    hide Body;
    hide FirstWord, Step, PostOrders, Steps;
    assert PostOrders([]) == [] && Steps([], s, m) == m by { EmptySteps(s, m); }
    match e {
      case Lit(w) => AtDrop(s, pos, w);
      case OneOf(ws) =>
        FirstWordDrop(ws, s, pos);
        var w := FirstWord(ws, s, pos);
        if w.Some? { AtDrop(s, pos, w.value); }
      case Any(_) =>
        assert pos < |s| ==> s[pos..][1..] == s[pos + 1..];
      case Act(act) =>
        PostOrdersOne(ActionNode(act), pos, pos, []);
        StepsOne([], Token(ActionNode(act), pos, pos), s, m);
      case End =>
    }
  }

  lemma EmptySteps(s: string, m: Machine)
    ensures PostOrders([]) == [] && Steps([], s, m) == m
  {
  }

  lemma AtDrop(s: string, pos: nat, w: string)
    requires pos <= |s|
    ensures At(s, pos, w) == At(s[pos..], 0, w)
    ensures At(s, pos, w) ==> s[pos..][|w|..] == s[pos + |w|..]
  {
    if pos + |w| <= |s| { assert s[pos..][..|w|] == s[pos..pos + |w|]; }
  }

  lemma {:induction false} FirstWordDrop(ws: WordList, s: string, pos: nat)
    requires pos <= |s|
    ensures FirstWord(ws, s, pos) == FirstWord(ws, s[pos..], 0)
  {
    if ws != [] {
      AtDrop(s, pos, ws[0]);
      FirstWordDrop(ws[1..], s, pos);
    }
  }

  lemma {:induction false} SeqAgrees(a: Expr, b: Expr, s: string, pos: nat, m: Machine)
    requires Finite(Seq(a, b)) && pos <= |s|
    ensures Agrees(Match(Seq(a, b), s, pos), s, m, RunFinite(Seq(a, b), s[pos..], m))
    decreases |s| - pos, Start(Seq(a, b)), Seq(a, b), 0
  {
    hide Body;
    Parts(Seq(a, b));
    MatchSeq(a, b, s, pos);
    RunSeq(a, b, s[pos..], m);
    hide PostOrders, Steps, Match, RunFinite, Finite, Start, Consumes;
    ExecuteIsInterpret(a, s, pos, m);
    var da := Match(a, s, pos);
    if da.Matched? {
      var m1 := Steps(PostOrders(da.ds), s, m);
      ExecuteIsInterpret(b, s, da.end, m1);
      var db := Match(b, s, da.end);
      if db.Matched? {
        PostOrdersAppend(da.ds, db.ds);
        StepsAppend(PostOrders(da.ds), PostOrders(db.ds), s, m);
      }
    }
  }

  lemma {:induction false} AltAgrees(a: Expr, b: Expr, s: string, pos: nat, m: Machine)
    requires Finite(Alt(a, b)) && pos <= |s|
    ensures Agrees(Match(Alt(a, b), s, pos), s, m, RunFinite(Alt(a, b), s[pos..], m))
    decreases |s| - pos, Start(Alt(a, b)), Alt(a, b), 0
  {
    hide Body;
    Parts(Alt(a, b));
    MatchAlt(a, b, s, pos);
    RunAlt(a, b, s[pos..], m);
    hide PostOrders, Steps, Match, RunFinite, Finite, Start, Consumes;
    ExecuteIsInterpret(a, s, pos, m);
    ExecuteIsInterpret(b, s, pos, m);
  }

  lemma {:induction false} OptAgrees(a: Expr, s: string, pos: nat, m: Machine)
    requires Finite(Opt(a)) && pos <= |s|
    ensures Agrees(Match(Opt(a), s, pos), s, m, RunFinite(Opt(a), s[pos..], m))
    decreases |s| - pos, Start(Opt(a)), Opt(a), 0
  {
    hide Body;
    Parts(Opt(a));
    MatchOpt(a, s, pos);
    RunOpt(a, s[pos..], m);
    hide PostOrders, Steps, Match, RunFinite, Finite, Start, Consumes;
    EmptySteps(s, m);
    ExecuteIsInterpret(a, s, pos, m);
  }

  lemma {:induction false} StarAgrees(a: Expr, s: string, pos: nat, m: Machine)
    requires Finite(Star(a)) && pos <= |s|
    ensures Agrees(Match(Star(a), s, pos), s, m, RunFinite(Star(a), s[pos..], m))
    decreases |s| - pos, Start(Star(a)), Star(a), 0
  {
    hide Body;
    Parts(Star(a));
    MatchStar(a, s, pos);
    RunStar(a, s[pos..], m);
    hide PostOrders, Steps, Match, RunFinite, Finite, Start, Consumes;
    EmptySteps(s, m);
    ExecuteIsInterpret(a, s, pos, m);
    var da := Match(a, s, pos);
    if da.Matched? {
      var m1 := Steps(PostOrders(da.ds), s, m);
      ExecuteIsInterpret(Star(a), s, da.end, m1);
      var db := Match(Star(a), s, da.end);
      PostOrdersAppend(da.ds, db.ds);
      StepsAppend(PostOrders(da.ds), PostOrders(db.ds), s, m);
    }
  }

  lemma {:induction false} RunSeq(a: Expr, b: Expr, s: string, m: Machine)
    requires Finite(Seq(a, b))
    ensures var o := RunFinite(a, s, m);
      RunFinite(Seq(a, b), s, m) == if o.Fail? then Fail else RunFinite(b, o.rest, o.m)
  {
    hide Body;
  }

  lemma {:induction false} RunAlt(a: Expr, b: Expr, s: string, m: Machine)
    requires Finite(Alt(a, b))
    ensures var o := RunFinite(a, s, m);
      RunFinite(Alt(a, b), s, m) == if o.Go? then o else RunFinite(b, s, m)
  {
    hide Body;
  }

  lemma {:induction false} RunOpt(a: Expr, s: string, m: Machine)
    requires Finite(Opt(a))
    ensures var o := RunFinite(a, s, m);
      RunFinite(Opt(a), s, m) == if o.Go? then o else Go(s, m)
  {
    hide Body;
  }

  lemma {:induction false} RunStar(a: Expr, s: string, m: Machine)
    requires Finite(Star(a))
    ensures var o := RunFinite(a, s, m);
      RunFinite(Star(a), s, m) == if o.Fail? then Go(s, m) else RunFinite(Star(a), o.rest, o.m)
  {
    hide Body;
  }

  lemma {:induction false} RunCapture(a: Expr, s: string, m: Machine)
    requires Finite(Capture(a))
    ensures var o := RunFinite(a, s, m);
      RunFinite(Capture(a), s, m)
        == if o.Fail? then Fail else Go(o.rest, o.m.(text := s[..|s| - |o.rest|]))
  {
    hide Body;
  }

  lemma {:induction false} RunNamed(r: Rule, a: Expr, s: string, m: Machine)
    requires Finite(a)
    ensures Finite(Named(r, a)) && RunFinite(Named(r, a), s, m) == RunFinite(a, s, m)
  {
    hide Body;
  }

  lemma {:induction false} RunCall(r: Rule, s: string, m: Machine)
    requires Finite(Ref(r))
    ensures RunFinite(Ref(r), s, m) == RunFinite(Body(r), s, m)
  {
    hide Body;
  }

  lemma {:induction false} RuleAgrees(r: Rule, a: Expr, s: string, pos: nat, m: Machine)
    requires Finite(a) && pos <= |s|
    ensures Agrees(Wrap(RuleNode(r), pos, Match(a, s, pos)), s, m, RunFinite(a, s[pos..], m))
    decreases |s| - pos, Start(a), a, 2
  {
    hide Body;
    hide PostOrders, Steps, Match, RunFinite;
    ExecuteIsInterpret(a, s, pos, m);
    var da := Match(a, s, pos);
    if da.Matched? {
      PostOrdersOne(RuleNode(r), pos, da.end, da.ds);
      StepsOne(PostOrders(da.ds), Token(RuleNode(r), pos, da.end), s, m);
    }
  }

  lemma {:induction false} CaptureAgrees(a: Expr, s: string, pos: nat, m: Machine)
    requires Finite(Capture(a)) && pos <= |s|
    ensures Agrees(Match(Capture(a), s, pos), s, m, RunFinite(Capture(a), s[pos..], m))
    decreases |s| - pos, Start(Capture(a)), Capture(a), 0
  {
    hide Body;
    Parts(Capture(a));
    MatchCapture(a, s, pos);
    RunCapture(a, s[pos..], m);
    hide PostOrders, Steps, Match, RunFinite, Finite, Start, Consumes;
    ExecuteIsInterpret(a, s, pos, m);
    var da := Match(a, s, pos);
    if da.Matched? {
      var p := da.end;
      PostOrdersOne(TextNode, pos, p, da.ds);
      StepsOne(PostOrders(da.ds), Token(TextNode, pos, p), s, m);
      assert s[pos..][..p - pos] == s[pos..p];
    }
  }
}
