/** Matching the grammar: what an expression derives from a position of the input. */
module Peg {
  import opened Std
  import opened Grammar

  /** Nodes of the parse: rules, captured text `< ... >`, and actions (empty). */
  datatype Kind = RuleNode(r: Rule) | TextNode | ActionNode(act: Action)

  datatype Token = Token(kind: Kind, begin: nat, end: nat)

  datatype Deriv = Node(kind: Kind, begin: nat, end: nat, kids: seq<Deriv>)

  /** Where an expression ends and what it derives. */
  datatype Matching = Mismatch | Matched(end: nat, ds: seq<Deriv>)

  /** `w` stands at `pos`. */
  predicate At(s: string, pos: nat, w: string) {
    pos + |w| <= |s| && s[pos..pos + |w|] == w
  }

  /** The first of the words that stands at `pos`. */
  function FirstWord(ws: WordList, s: string, pos: nat): (w: Option<string>)
    ensures w.Some? ==> At(s, pos, w.value) && w.value != ""
  {
    if ws == [] then None
    else if At(s, pos, ws[0]) then Some(ws[0])
    else FirstWord(ws[1..], s, pos)
  }

  predicate IsLeaf(e: Expr) {
    e.Lit? || e.OneOf? || e.Any? || e.Act? || e.End?
  }

  function MatchLeaf(e: Expr, s: string, pos: nat): (m: Matching)
    requires IsLeaf(e) && pos <= |s|
    ensures m.Matched? ==> pos <= m.end <= |s| && (Consumes(e) ==> pos < m.end)
  {
    match e
    case Lit(w) => if At(s, pos, w) then Matched(pos + |w|, []) else Mismatch
    case OneOf(ws) =>
      (match FirstWord(ws, s, pos)
       case None => Mismatch
       case Some(w) => Matched(pos + |w|, []))
    case Any(k) => if pos < |s| && InClass(k, s[pos]) then Matched(pos + 1, []) else Mismatch
    case Act(act) => Matched(pos, [Node(ActionNode(act), pos, pos, [])])
    case End => if pos == |s| then Matched(pos, []) else Mismatch
  }

  /** One node over what was derived from `pos` on. */
  function Wrap(k: Kind, pos: nat, m: Matching): (r: Matching)
    ensures r.Matched? == m.Matched? && (r.Matched? ==> r.end == m.end)
  {
    if m.Matched? then Matched(m.end, [Node(k, pos, m.end, m.ds)]) else m
  }

  /** What was derived before comes first. */
  function Join(ds: seq<Deriv>, m: Matching): (r: Matching)
    ensures r.Matched? == m.Matched? && (r.Matched? ==> r.end == m.end)
  {
    if m.Matched? then Matched(m.end, ds + m.ds) else m
  }

  /** Whether `e` matches at `pos`, and then where it ends and what it derives. */
  function Match(e: Expr, s: string, pos: nat): (m: Matching)
    requires Finite(e) && pos <= |s|
    ensures m.Matched? ==> pos <= m.end <= |s|
    ensures m.Matched? && Consumes(e) ==> pos < m.end
    ensures e.Star? || e.Opt? ==> m.Matched?
    decreases |s| - pos, Start(e), e
  {
    Parts(e);
    hide Body, MatchLeaf, Wrap, Join, Finite, Start, Consumes;
    match e
    case Seq(a, b) =>
      var m := Match(a, s, pos);
      if m.Matched? then Join(m.ds, Match(b, s, m.end)) else m
    case Alt(a, b) =>
      var m := Match(a, s, pos);
      if m.Matched? then m else Match(b, s, pos)
    case Star(a) =>
      var m := Match(a, s, pos);
      if m.Matched? then Join(m.ds, Match(e, s, m.end)) else Matched(pos, [])
    case Opt(a) =>
      var m := Match(a, s, pos);
      if m.Matched? then m else Matched(pos, [])
    case Named(r, a) => Wrap(RuleNode(r), pos, Match(a, s, pos))
    case Ref(r) => Wrap(RuleNode(r), pos, Match(Body(r), s, pos))
    case Capture(a) => Wrap(TextNode, pos, Match(a, s, pos))
    case _ => MatchLeaf(e, s, pos)
  }

  lemma {:induction false} MatchSeq(a: Expr, b: Expr, s: string, pos: nat)
    requires Finite(Seq(a, b)) && pos <= |s|
    ensures var m := Match(a, s, pos);
      Match(Seq(a, b), s, pos) == if m.Matched? then Join(m.ds, Match(b, s, m.end)) else m
  {
    hide Body;
    hide Join;
  }

  lemma {:induction false} MatchAlt(a: Expr, b: Expr, s: string, pos: nat)
    requires Finite(Alt(a, b)) && pos <= |s|
    ensures var m := Match(a, s, pos);
      Match(Alt(a, b), s, pos) == if m.Matched? then m else Match(b, s, pos)
  {
    hide Body;
  }

  lemma {:induction false} MatchOpt(a: Expr, s: string, pos: nat)
    requires Finite(Opt(a)) && pos <= |s|
    ensures var m := Match(a, s, pos);
      Match(Opt(a), s, pos) == if m.Matched? then m else Matched(pos, [])
  {
    hide Body;
  }

  lemma {:induction false} MatchStar(a: Expr, s: string, pos: nat)
    requires Finite(Star(a)) && pos <= |s|
    ensures var m := Match(a, s, pos);
      Match(Star(a), s, pos) == if m.Matched? then Join(m.ds, Match(Star(a), s, m.end)) else Matched(pos, [])
  {
    hide Body;
    hide Join;
  }

  lemma {:induction false} MatchCapture(a: Expr, s: string, pos: nat)
    requires Finite(Capture(a)) && pos <= |s|
    ensures Match(Capture(a), s, pos) == Wrap(TextNode, pos, Match(a, s, pos))
  {
    hide Body;
    hide Wrap;
  }

  lemma {:induction false} MatchNamed(r: Rule, a: Expr, s: string, pos: nat)
    requires Finite(a) && pos <= |s|
    ensures Finite(Named(r, a)) && Match(Named(r, a), s, pos) == Wrap(RuleNode(r), pos, Match(a, s, pos))
  {
    hide Body;
  }

  lemma {:induction false} MatchRef(r: Rule, s: string, pos: nat)
    requires Finite(Ref(r)) && pos <= |s|
    ensures Match(Ref(r), s, pos) == Wrap(RuleNode(r), pos, Match(Body(r), s, pos))
  {
    hide Body;
  }

  /** The tokens of a derivation: those of its children, then its own. */
  function PostOrder(d: Deriv): seq<Token> {
    PostOrders(d.kids) + [Token(d.kind, d.begin, d.end)]
  }

  function PostOrders(ds: seq<Deriv>): seq<Token> {
    if ds == [] then [] else PostOrder(ds[0]) + PostOrders(ds[1..])
  }

  lemma {:induction false} PostOrdersCons(ds: seq<Deriv>)
    requires ds != []
    ensures PostOrders(ds) == PostOrder(ds[0]) + PostOrders(ds[1..])
  {
    hide PostOrder;
  }

  lemma {:induction false} PostOrdersAppend(a: seq<Deriv>, b: seq<Deriv>)
    ensures PostOrders(a + b) == PostOrders(a) + PostOrders(b)
  {
    hide PostOrder;
    if a == [] {
      assert a + b == b;
    } else {
      hide PostOrders;
      var c := a + b;
      assert c[0] == a[0] && c[1..] == a[1..] + b;
      PostOrdersCons(a);
      PostOrdersCons(c);
      PostOrdersAppend(a[1..], b);
      Assoc(PostOrder(a[0]), PostOrders(a[1..]), PostOrders(b));
    }
  }

  lemma {:induction false} PostOrdersOne(k: Kind, begin: nat, end: nat, kids: seq<Deriv>)
    ensures PostOrders([Node(k, begin, end, kids)]) == PostOrders(kids) + [Token(k, begin, end)]
  {
    var d := Node(k, begin, end, kids);
    assert [d][1..] == [] && PostOrders([]) == [];
    assert PostOrders([d]) == PostOrder(d) + [];
  }
}
