/** ParseQuery of mc/query/parse.go: recognise, then execute the actions. */
module ParseQuery {
  import opened Std
  import opened Grammar
  import opened Peg
  import opened Recognizer
  import opened ParseState
  import opened Interpret
  import opened Reference
  import opened QueryAgrees
  import Q = Queries

  datatype ParseError = SyntaxError | NumberTooLarge(text: string)

  /** What the reference makes of a text. */
  function Parsed(qs: string): Result<Q.Query, ParseError> {
    match RefQuery(qs)
    case None => Err(SyntaxError)
    case Some((q, None)) => Ok(q)
    case Some((_, Some(text))) => Err(NumberTooLarge(text))
  }

  /** The token list of an accepted text is the post-order of its derivation; running it never
      pops an empty stack and never fails a type assertion. */
  lemma {:induction false} TokensBuildQuery(s: string)
    ensures Finite(GrammarExpr())
    ensures var d := Match(GrammarExpr(), s, 0);
      match RefQuery(s)
      case None => d.Mismatch?
      case Some((q, e)) =>
        && d.Matched?
        && var m := Steps(PostOrders(d.ds), s, START);
           !m.stuck && m.stack == [] && m.query == q && m.err == e
  {
    hide Finite, Start, Consumes, Safe, Solid, RunFinite, RefQuery, GrammarExpr, Match, Steps, PostOrders;
    assert s[0..] == s;
    ExecuteIsInterpret(GrammarExpr(), s, 0, START);
    GrammarAgrees(s);
  }

  /** Parses any text: the query of the reference, a syntax error where the reference reads
      none, and otherwise the number that overflowed last. */
  method ParseQuery(qs: string) returns (r: Result<Q.Query, ParseError>)
    ensures r == Parsed(qs)
  {
    hide Finite, Start, Consumes, Safe, Solid, RefQuery, GrammarExpr, Match, Steps, PostOrders;
    TokensBuildQuery(qs);
    var ps := new ParseState();
    var p := new Recognizer(qs);
    var ok := p.Run(GrammarExpr());
    if !ok { return Err(SyntaxError); }
    var tokens := p.tree[..p.tokenIndex];
    ghost var ds := Match(GrammarExpr(), qs, 0).ds;
    assert tokens == PostOrders(ds) by { assert [] + PostOrders(ds) == PostOrders(ds); }
    ps.Execute(tokens, qs);
    match ps.err {
      case Some(text) => return Err(NumberTooLarge(text));
      case None => return Ok(ps.query);
    }
  }
}
