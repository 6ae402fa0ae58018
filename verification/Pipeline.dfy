/** From query text to SQL text: what parsing and compiling promise together. */
module Pipeline {
  import opened Std
  import opened Queries
  import opened Tables
  import C = Compile
  import CQ = CompileQuery
  import M = Meaning
  import PQ = ParseQuery
  import PP = ParsePrint
  import S = Sql

  datatype PrepareError = NotParsed(syntax: PQ.ParseError) | NotCompiled(compile: C.CompileError)

  /** The SQL text answers what the query means, on every store with its tables in step. */
  ghost predicate Answers(sql: string, q: Query) {
    forall db: Db, rows: seq<seq<S.Value>> :: Inv(db) ==> (S.TextAnswers(sql, db, rows) <==> M.Means(q, db, rows))
  }

  lemma {:induction false} TextAnswersMeaning(sql: string, q: Query)
    requires WellFormed(q) && C.Compilable(q) && S.Parse(sql) == Some(C.Plan(q))
    ensures Answers(sql, q)
  {
    hide WellFormed, C.Compilable, HasRef, M.Means, S.Parse, C.Plan, S.IsAnswer;
    forall db: Db, rows: seq<seq<S.Value>> | Inv(db) ensures S.TextAnswers(sql, db, rows) <==> M.Means(q, db, rows) {
      M.CompilePreservesMeaning(q, db, rows);
    }
  }

  lemma ParsedIsWellFormed(qs: string)
    ensures PQ.Parsed(qs).Ok? ==> WellFormed(PQ.Parsed(qs).value) && |PQ.Parsed(qs).value.namespace| > 0
  {
    if PQ.Parsed(qs).Ok? {
      PP.ParsedExactlyWellFormed(PQ.Parsed(qs).value);
      hide PQ.Parsed;
      NamespaceThere(PQ.Parsed(qs).value);
    }
  }

  lemma NamespaceThere(q: Query)
    requires WellFormed(q)
    ensures |q.namespace| > 0
  {
  }

  /** Prepares any text: the SQL that comes out is a text whose answers, read by SQL's own grammar
      over any store with its tables in step, are exactly what the parsed query means; and the only
      other outcomes are the parser's error and a function applied to a column it does not allow. */
  method Prepare(qs: string) returns (r: Result<(string, C.RowSelector), PrepareError>)
    ensures PQ.Parsed(qs).Err? ==> r == Err(NotParsed(PQ.Parsed(qs).error))
    ensures PQ.Parsed(qs).Ok? && !C.Compilable(PQ.Parsed(qs).value) ==> r == Err(NotCompiled(C.IllegalSelector))
    ensures PQ.Parsed(qs).Ok? && C.Compilable(PQ.Parsed(qs).value) ==> r.Ok? && Answers(r.value.0, PQ.Parsed(qs).value)
  {
    ParsedIsWellFormed(qs);
    hide PQ.Parsed, WellFormed, C.Compilable, S.Parse, C.Plan, Answers;
    var parsed := PQ.ParseQuery(qs);
    if parsed.Err? { return Err(NotParsed(parsed.error)); }
    var q := parsed.value;
    var compiled := CQ.CompileQuery(q);
    if compiled.Err? { return Err(NotCompiled(compiled.error)); }
    TextAnswersMeaning(compiled.value.0, q);
    return Ok(compiled.value);
  }
}
