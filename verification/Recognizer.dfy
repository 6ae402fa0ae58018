/** The backtracking recogniser of mc/query/query.peg.go: shared position and token index,
    saved and restored, over a growing token array. */
module Recognizer {
  import opened Std
  import opened Grammar
  import opened Peg

  /** The rules the generated recogniser calls as functions; the others are inlined. */
  predicate IsCalled(r: Rule) {
    r in {Rule.Grammar, Criteria, EOF, Limit, NamespacePart, OrderSelectorSpec, PublisherId, SimpleSelector, Source,
      UInt, ValueCompare, WSX, WS, WhiteSpace, Wildcard, CompoundCriteria, MultiCriteria}
  }

  /** The expressions that undo their own steps when they fail. */
  predicate Restores(e: Expr) {
    e.Ref? || (e.Named? && IsCalled(e.r))
  }

  const INITIAL_TOKENS := 32767

  class Recognizer {
    const buffer: string
    var position: nat
    var tokenIndex: nat
    var tree: array<Token>

    ghost predicate Valid()
      reads this, tree
    {
      position <= |buffer| && tokenIndex <= tree.Length && 0 < tree.Length
    }

    ghost function Tokens(): seq<Token>
      requires Valid()
      reads this, tree
    {
      tree[..tokenIndex]
    }

    constructor (s: string)
      ensures Valid() && fresh(tree) && buffer == s && position == 0 && Tokens() == []
    {
      buffer, position, tokenIndex := s, 0, 0;
      tree := new Token[INITIAL_TOKENS](_ => Token(TextNode, 0, 0));
    }

    /** Doubles the token array when it is full. */
    method Expand()
      requires Valid()
      modifies this`tree
      ensures Valid() && (tree == old(tree) || fresh(tree))
      ensures tokenIndex < tree.Length && Tokens() == old(Tokens())
    {
      if tokenIndex >= tree.Length {
        var was := tree;
        var expanded := new Token[2 * tree.Length](i requires 0 <= i reads was =>
          if i < was.Length then was[i] else Token(TextNode, 0, 0));
        tree := expanded;
        assert tree[..tokenIndex] == was[..tokenIndex];
      }
    }

    method Add(kind: Kind, begin: nat)
      requires Valid()
      modifies this`tree, this`tokenIndex, tree
      ensures Valid() && (tree == old(tree) || fresh(tree))
      ensures Tokens() == old(Tokens()) + [Token(kind, begin, position)]
    {
      Expand();
      tree[tokenIndex] := Token(kind, begin, position);
      tokenIndex := tokenIndex + 1;
    }

    /** Compares character by character; a mismatch leaves the position where it was found. */
    method MatchWord(w: string) returns (ok: bool)
      requires Valid()
      modifies this`position
      ensures Valid() && ok == At(buffer, old(position), w)
      ensures ok ==> position == old(position) + |w|
    {
      var start := position;
      for i := 0 to |w|
        invariant Valid() && position == start + i && i <= |w|
        invariant buffer[start..position] == w[..i]
      {
        if position == |buffer| || buffer[position] != w[i] {
          if start + |w| <= |buffer| {
            assert buffer[start..start + |w|][i] != w[i];
          }
          return false;
        }
        assert w[..i + 1] == w[..i] + [w[i]];
        assert buffer[start..position + 1] == buffer[start..position] + [buffer[position]];
        position := position + 1;
      }
      assert w[..|w|] == w;
      return true;
    }

    method MatchFirst(ws: WordList) returns (ok: bool)
      requires Valid()
      modifies this`position
      ensures Valid()
      ensures var w := FirstWord(ws, buffer, old(position));
        ok == w.Some? && (ok ==> position == old(position) + |w.value|)
    {
      var start := position;
      for i := 0 to |ws|
        invariant Valid() && i <= |ws|
        invariant FirstWord(ws, buffer, start) == FirstWord(ws[i..], buffer, start)
      {
        position := start;
        var here := MatchWord(ws[i]);
        if here { return true; }
        assert ws[i..][1..] == ws[i + 1..];
      }
      return false;
    }

    /** The tokens of `before` are still there, and an accepted expression has added exactly
        the post-order of its derivation. */
    ghost predicate After(ok: bool, m: Matching, before: seq<Token>)
      reads this, tree
    {
      && Valid()
      && |before| <= tokenIndex && tree[..|before|] == before
      && ok == m.Matched?
      && (ok ==> position == m.end && Tokens() == before + PostOrders(m.ds))
    }

    /** Runs one expression of the grammar. What it accepts is what `Match` derives; the tokens
        it leaves are exactly the post-order of that derivation, whatever was tried and undone
        on the way; and a called rule that fails leaves no trace. */
    method {:induction false} Run(e: Expr) returns (ok: bool)
      requires Valid() && Finite(e)
      modifies this`position, this`tokenIndex, this`tree, tree
      ensures tree == old(tree) || fresh(tree)
      ensures After(ok, Match(e, buffer, old(position)), old(Tokens()))
      ensures !ok && Restores(e) ==> position == old(position) && Tokens() == old(Tokens())
      decreases |buffer| - position, Start(e), e, 1
    {
      Parts(e);
      hide Finite, Start, Consumes, Match, Body, IsCalled, After, PostOrders;
      match e {
        case Seq(a, b) => ok := RunSeq(a, b);
        case Alt(a, b) => ok := RunAlt(a, b);
        case Star(a) => ok := RunStar(a);
        case Opt(a) => ok := RunOpt(a);
        case Named(r, a) =>
          MatchNamed(r, a, buffer, position);
          ok := RunRule(r, a, IsCalled(r));
        case Ref(r) =>
          MatchRef(r, buffer, position);
          ok := RunRule(r, Body(r), true);
        case Capture(a) => ok := RunCapture(a);
        case _ => ok := RunLeaf(e);
      }
    }

    method {:induction false} RunLeaf(e: Expr) returns (ok: bool)
      requires Valid() && Finite(e) && IsLeaf(e)
      modifies this`position, this`tokenIndex, this`tree, tree
      ensures tree == old(tree) || fresh(tree)
      ensures After(ok, Match(e, buffer, old(position)), old(Tokens()))
    {
      hide Body;
      hide FirstWord, PostOrders;
      EmptyPostOrders();
      ghost var before := Tokens();
      match e {
        case Lit(w) => ok := MatchWord(w);
        case OneOf(ws) => ok := MatchFirst(ws);
        case Any(k) =>
          ok := position < |buffer| && InClass(k, buffer[position]);
          if ok { position := position + 1; }
        case Act(act) =>
          Add(ActionNode(act), position);
          PostOrdersOne(ActionNode(act), position, position, []);
          ok := true;
        case End => ok := position == |buffer|;
      }
      assert before + [] == before;
    }

    method {:induction false} RunSeq(a: Expr, b: Expr) returns (ok: bool)
      requires Valid() && Finite(Seq(a, b))
      modifies this`position, this`tokenIndex, this`tree, tree
      ensures tree == old(tree) || fresh(tree)
      ensures After(ok, Match(Seq(a, b), buffer, old(position)), old(Tokens()))
      decreases |buffer| - position, Start(Seq(a, b)), Seq(a, b), 0
    {
      hide Restores, IsCalled;
      hide Body;
      Parts(Seq(a, b));
      MatchSeq(a, b, buffer, position);
      hide PostOrders, Match, Finite, Start, Consumes;
      ghost var start, before := position, Tokens();
      ok := Run(a);
      if ok {
        ghost var middle := position;
        ok := Run(b);
        if ok {
          ghost var da, db := Match(a, buffer, start).ds, Match(b, buffer, middle).ds;
          PostOrdersAppend(da, db);
          Assoc(before, PostOrders(da), PostOrders(db));
        }
      }
    }

    method {:induction false} RunAlt(a: Expr, b: Expr) returns (ok: bool)
      requires Valid() && Finite(Alt(a, b))
      modifies this`position, this`tokenIndex, this`tree, tree
      ensures tree == old(tree) || fresh(tree)
      ensures After(ok, Match(Alt(a, b), buffer, old(position)), old(Tokens()))
      decreases |buffer| - position, Start(Alt(a, b)), Alt(a, b), 0
    {
      hide Restores, IsCalled;
      hide Body;
      Parts(Alt(a, b));
      MatchAlt(a, b, buffer, position);
      hide PostOrders, Match, Finite, Start, Consumes;
      var start, startIndex := position, tokenIndex;
      ok := Run(a);
      if !ok {
        position, tokenIndex := start, startIndex;
        ok := Run(b);
      }
    }

    method {:induction false} RunOpt(a: Expr) returns (ok: bool)
      requires Valid() && Finite(Opt(a))
      modifies this`position, this`tokenIndex, this`tree, tree
      ensures tree == old(tree) || fresh(tree)
      ensures After(ok, Match(Opt(a), buffer, old(position)), old(Tokens()))
      decreases |buffer| - position, Start(Opt(a)), Opt(a), 0
    {
      hide Restores, IsCalled;
      hide Body;
      Parts(Opt(a));
      MatchOpt(a, buffer, position);
      hide PostOrders, Match, Finite, Start, Consumes;
      var start, startIndex := position, tokenIndex;
      ghost var before := Tokens();
      ok := Run(a);
      if !ok {
        position, tokenIndex := start, startIndex;
        EmptyPostOrders();
        assert before + [] == before;
        ok := true;
      }
    }

    method {:induction false} RunCapture(a: Expr) returns (ok: bool)
      requires Valid() && Finite(Capture(a))
      modifies this`position, this`tokenIndex, this`tree, tree
      ensures tree == old(tree) || fresh(tree)
      ensures After(ok, Match(Capture(a), buffer, old(position)), old(Tokens()))
      decreases |buffer| - position, Start(Capture(a)), Capture(a), 0
    {
      hide Restores, IsCalled;
      hide Body;
      Parts(Capture(a));
      MatchCapture(a, buffer, position);
      hide PostOrders, Match, Finite, Start, Consumes;
      var start := position;
      ok := Run(a);
      if ok {
        Add(TextNode, start);
        PostOrdersOne(TextNode, start, position, Match(a, buffer, start).ds);
      }
    }

    /** A repetition: a round that fails is undone, and ends it. */
    method {:induction false} RunStar(a: Expr) returns (ok: bool)
      requires Valid() && Finite(Star(a))
      modifies this`position, this`tokenIndex, this`tree, tree
      ensures tree == old(tree) || fresh(tree)
      ensures After(ok, Match(Star(a), buffer, old(position)), old(Tokens()))
      decreases |buffer| - position, Start(Star(a)), Star(a), 0
    {
      hide Restores, IsCalled;
      hide Body;
      Parts(Star(a));
      hide Match, PostOrders, Finite, Start, Consumes;
      ok := true;
      var more := true;
      ghost var before, done: seq<Deriv> := Tokens(), [];
      ghost var all := Match(Star(a), buffer, position);
      EmptyPostOrders();
      assert done + all.ds == all.ds && before + [] == before;
      while more
        invariant Valid() && (tree == old(tree) || fresh(tree))
        invariant old(position) <= position && |before| <= tokenIndex
        invariant Tokens() == before + PostOrders(done)
        invariant more ==> var rest := Match(Star(a), buffer, position); all == Matched(rest.end, done + rest.ds)
        invariant !more ==> all == Matched(position, done)
        decreases more, |buffer| - position
      {
        var here, hereIndex := position, tokenIndex;
        ghost var sofar := Tokens();
        more := Run(a);
        MatchStar(a, buffer, here);
        if more {
          ghost var da := Match(a, buffer, here).ds;
          PostOrdersAppend(done, da);
          Assoc(before, PostOrders(done), PostOrders(da));
          Assoc(done, da, Match(Star(a), buffer, position).ds);
          done := done + da;
        } else {
          position, tokenIndex := here, hereIndex;
          assert Tokens() == sofar;
          assert done + [] == done;
        }
      }
    }

    /** A rule: its own token follows those of its right-hand side. Only a called rule
        restores the position and the token index itself. */
    method {:induction false} RunRule(r: Rule, a: Expr, called: bool) returns (ok: bool)
      requires Valid() && Finite(a)
      modifies this`position, this`tokenIndex, this`tree, tree
      ensures tree == old(tree) || fresh(tree)
      ensures After(ok, Wrap(RuleNode(r), old(position), Match(a, buffer, old(position))), old(Tokens()))
      ensures !ok && called ==> position == old(position) && Tokens() == old(Tokens())
      decreases |buffer| - position, Start(a), a, 2
    {
      hide Restores, IsCalled;
      hide Body;
      hide PostOrders, Match, Finite, Start, Consumes;
      var start, startIndex := position, tokenIndex;
      ok := Run(a);
      if ok {
        Add(RuleNode(r), start);
        PostOrdersOne(RuleNode(r), start, position, Match(a, buffer, start).ds);
      } else if called {
        position, tokenIndex := start, startIndex;
      }
    }
  }

  lemma EmptyPostOrders()
    ensures PostOrders([]) == []
  {
  }
}
