/** What a query means on the stored statements, without SQL: filter, then project.
    The compiled SELECT returns exactly that, whichever tables it reads. */
module Meaning {
  import opened Std
  import opened Queries
  import opened Statements
  import opened Tables
  import opened Compile
  import opened Sql

  /** A stored statement, its counter and, for index queries, one of its references. */
  datatype Rec = Rec(stmt: Statement, counter: int, wki: Option<string>)

  // ---- The records a query ranges over ----

  function Entries(stmts: seq<StmtRow>, envs: seq<EnvRow>): seq<Rec>
    requires |stmts| == |envs|
  {
    seq(|stmts|, i requires 0 <= i < |stmts| => Rec(stmts[i].data, envs[i].counter, None))
  }

  /** One record for each reference row of the statement. */
  function RefRecs(rec: Rec, refs: seq<RefRow>): seq<Rec> {
    if refs == [] then []
    else (if refs[0].id == rec.stmt.id then [rec.(wki := Some(refs[0].wki))] else []) + RefRecs(rec, refs[1..])
  }

  function AllRefRecs(recs: seq<Rec>, refs: seq<RefRow>): seq<Rec> {
    if recs == [] then [] else RefRecs(recs[0], refs) + AllRefRecs(recs[1..], refs)
  }

  /** Every statement once, or once for each of its references when the query names `wki`. */
  function Universe(db: Db, index: bool): seq<Rec>
    requires |db.stmts| == |db.envs|
  {
    var entries := Entries(db.stmts, db.envs);
    if index then AllRefRecs(entries, db.refs) else entries
  }

  // ---- Filters and projections ----

  function FieldValue(sel: string, rec: Rec): Value {
    var s := rec.stmt;
    if sel == "id" then Text(s.id)
    else if sel == "namespace" then Text(s.namespace)
    else if sel == "publisher" then Text(s.publisher)
    else if sel == "source" then Text(StatementSource(s))
    else if sel == "timestamp" then Int(s.timestamp)
    else if sel == "counter" then Int(rec.counter)
    else Blob(s)
  }

  predicate Satisfies(c: Criteria, rec: Rec) {
    match c
    case ValueCriteria(sel, op, val) => if op == "=" then FieldValue(sel, rec) == Text(val) else FieldValue(sel, rec) != Text(val)
    case RangeCriteria(sel, op, num) => FieldValue(sel, rec).Int? && IntCompare(op, FieldValue(sel, rec).i, num)
    case IndexCriteria(_, val) => rec.wki == Some(val)
    case CompoundCriteria(op, l, r) =>
      if op == "AND" then Satisfies(l, rec) && Satisfies(r, rec) else Satisfies(l, rec) || Satisfies(r, rec)
    case NegatedCriteria(e) => !Satisfies(e, rec)
  }

  /** `pre` is a prefix of `s` up to ASCII case. */
  predicate FoldedPrefix(pre: string, s: string) {
    |pre| <= |s| && forall i :: 0 <= i < |pre| ==> Fold(pre[i]) == Fold(s[i])
  }

  /** "*" is every namespace, "a.b.*" those that start with a.b in any case, else exact. */
  predicate InNamespace(ns: string, s: Statement) {
    if ns == "*" then true
    else if |ns| > 1 && ns[|ns| - 1] == '*' then FoldedPrefix(ns[..|ns| - 2], s.namespace)
    else s.namespace == ns
  }

  /** A wildcard query reads every namespace that begins with what stands before its dot, up to
      case, not only the parts below it: `a.*` reads `ab`. */
  lemma WildcardReads(part: string, s: Statement)
    ensures InNamespace(part + ".*", s) <==> FoldedPrefix(part, s.namespace)
    ensures s.namespace == "ab" ==> InNamespace("a.*", s)
  {
    var ns := part + ".*";
    assert |ns| == |part| + 2 && ns[|ns| - 1] == '*' && ns[..|ns| - 2] == part;
    assert "a.*"[..1] == "a";
  }

  predicate Selects(q: Query, rec: Rec) {
    InNamespace(q.namespace, rec.stmt) && (q.criteria.Some? ==> Satisfies(q.criteria.value, rec))
  }

  function RowFor(s: Selector, rec: Rec): seq<Value> {
    match s
    case SimpleSelector(sel) => [FieldValue(sel, rec)]
    case CompoundSelector(sels) => seq(|sels|, i requires 0 <= i < |sels| => FieldValue(sels[i], rec))
    case FunctionSelector(_, arg) => [if arg in {"*", "body"} then Int(1) else FieldValue(arg, rec)]
    case NoSelector => []
  }

  function SortRow(order: Option<seq<OrderSpec>>, rec: Rec): seq<Value> {
    if order == None then []
    else seq(|order.value|, i requires 0 <= i < |order.value| => FieldValue(order.value[i].sel, rec))
  }

  function Selected(q: Query, recs: seq<Rec>): seq<Candidate> {
    if recs == [] then []
    else
      (if Selects(q, recs[0]) then [Candidate(RowFor(q.selector, recs[0]), SortRow(q.order, recs[0]))] else [])
      + Selected(q, recs[1..])
  }

  function OrderDirs(order: Option<seq<OrderSpec>>): seq<bool> {
    if order == None then []
    else seq(|order.value|, i requires 0 <= i < |order.value| => order.value[i].dir == "DESC")
  }

  /** Which selectors show each value once. */
  predicate DistinctSelector(s: Selector) {
    match s
    case SimpleSelector(sel) => DistinctName(sel)
    case CompoundSelector(sels) => |sels| == 1 && DistinctName(sels[0])
    case FunctionSelector(_, arg) => DistinctName(arg)
    case NoSelector => false
  }

  /** `rows` is a result the query may return on the store. */
  ghost predicate Means(q: Query, db: Db, rows: seq<seq<Value>>)
    requires |db.stmts| == |db.envs|
  {
    var cands := Selected(q, Universe(db, HasIndex(q)));
    var limit := if q.limit > 0 then Some(q.limit) else None;
    var distinct := DistinctSelector(q.selector);
    if q.selector.FunctionSelector? then rows == [[AggregateValue(q.selector.fn, distinct, FirstValues(cands))]]
    else Delivers(cands, distinct, OrderDirs(q.order), limit, rows)
  }

  // ---- Tuples of the FROM clause are the records ----

  /** The tuple a record becomes when `b` chooses the tables. */
  function Embed(b: Base, rec: Rec): Tuple {
    Tuple(
      if b == EnvelopeAlone then None else Some(StmtRow(rec.stmt.id, rec.stmt)),
      if b == StatementAlone then None else Some(EnvelopeOf(rec.stmt, rec.counter)),
      if rec.wki.Some? then Some(RefRow(rec.stmt.id, rec.wki.value)) else None)
  }

  function EmbedAll(b: Base, recs: seq<Rec>): seq<Tuple> {
    seq(|recs|, i requires 0 <= i < |recs| => Embed(b, recs[i]))
  }

  lemma EmbedAppend(b: Base, x: seq<Rec>, y: seq<Rec>)
    ensures EmbedAll(b, x + y) == EmbedAll(b, x) + EmbedAll(b, y)
  {
  }

  /** A statement joins with its own envelope only. */
  lemma {:induction false} JoinOwnEnvelope(stmts: seq<StmtRow>, envs: seq<EnvRow>, next: int, i: nat, k: nat)
    requires EnvelopesMatch(stmts, envs, next)
    requires i < |stmts| && k <= |envs|
    ensures var j := Join(EnvelopeTable, STATEMENT_ID, ENVELOPE_ID);
      JoinRow(Tuple(Some(stmts[i]), None, None), EnvTuples(envs[k..]), j)
      == if k <= i then [Embed(Both, Rec(stmts[i].data, envs[i].counter, None))] else []
    decreases |envs| - k
  {
    var j := Join(EnvelopeTable, STATEMENT_ID, ENVELOPE_ID);
    var t := Tuple(Some(stmts[i]), None, None);
    var rows := EnvTuples(envs[k..]);
    if k < |envs| {
      JoinOwnEnvelope(stmts, envs, next, i, k + 1);
      assert rows[1..] == EnvTuples(envs[k + 1..]);
      assert rows[0] == Tuple(None, Some(envs[k]), None);
      assert Joins(j, Combine(t, rows[0])) <==> stmts[i].id == envs[k].id;
      assert envs[k].id == stmts[k].id;
    }
  }

  function EnvTuples(envs: seq<EnvRow>): seq<Tuple> {
    seq(|envs|, i requires 0 <= i < |envs| => Tuple(None, Some(envs[i]), None))
  }

  function StmtTuples(stmts: seq<StmtRow>): seq<Tuple> {
    seq(|stmts|, i requires 0 <= i < |stmts| => Tuple(Some(stmts[i]), None, None))
  }

  function RefTuples(refs: seq<RefRow>): seq<Tuple> {
    seq(|refs|, i requires 0 <= i < |refs| => Tuple(None, None, Some(refs[i])))
  }

  /** Statement JOIN Envelope lists every statement with its envelope, once, in order. */
  lemma {:induction false} JoinEnvelopes(stmts: seq<StmtRow>, envs: seq<EnvRow>, next: int, k: nat)
    requires EnvelopesMatch(stmts, envs, next) && k <= |stmts|
    ensures JoinRows(StmtTuples(stmts[k..]), EnvTuples(envs), Join(EnvelopeTable, STATEMENT_ID, ENVELOPE_ID))
         == EmbedAll(Both, Entries(stmts, envs)[k..])
    decreases |stmts| - k
  {
    var ts := StmtTuples(stmts[k..]);
    if k < |stmts| {
      JoinOwnEnvelope(stmts, envs, next, k, 0);
      assert envs[0..] == envs;
      JoinEnvelopes(stmts, envs, next, k + 1);
      assert ts[1..] == StmtTuples(stmts[k + 1..]);
      var e := Entries(stmts, envs);
      assert e[k..] == [e[k]] + e[k + 1..];
      EmbedAppend(Both, [e[k]], e[k + 1..]);
    }
  }

  /** Joining Refs lists a record once for each of its references. */
  lemma {:induction false} JoinOwnRefs(b: Base, rec: Rec, refs: seq<RefRow>)
    requires b != StatementAlone && rec.wki == None
    ensures JoinRow(Embed(b, rec), RefTuples(refs), Join(RefsTable, ENVELOPE_ID, REFS_ID))
         == EmbedAll(b, RefRecs(rec, refs))
  {
    var j := Join(RefsTable, ENVELOPE_ID, REFS_ID);
    if refs != [] {
      var t := RefTuples(refs);
      JoinOwnRefs(b, rec, refs[1..]);
      assert t[1..] == RefTuples(refs[1..]);
      assert Joins(j, Combine(Embed(b, rec), t[0])) <==> refs[0].id == rec.stmt.id;
      var first := if refs[0].id == rec.stmt.id then [rec.(wki := Some(refs[0].wki))] else [];
      EmbedAppend(b, first, RefRecs(rec, refs[1..]));
    }
  }

  lemma {:induction false} JoinRefs(b: Base, recs: seq<Rec>, refs: seq<RefRow>)
    requires b != StatementAlone && forall i :: 0 <= i < |recs| ==> recs[i].wki == None
    ensures JoinRows(EmbedAll(b, recs), RefTuples(refs), Join(RefsTable, ENVELOPE_ID, REFS_ID))
         == EmbedAll(b, AllRefRecs(recs, refs))
  {
    if recs != [] {
      JoinOwnRefs(b, recs[0], refs);
      JoinRefs(b, recs[1..], refs);
      assert EmbedAll(b, recs)[1..] == EmbedAll(b, recs[1..]);
      EmbedAppend(b, RefRecs(recs[0], refs), AllRefRecs(recs[1..], refs));
    }
  }

  /** The FROM clause over any choice of tables lists exactly the query's records. */
  lemma FromRowsAreRecords(q: Query, b: Base, db: Db)
    requires Inv(db) && WellFormed(q)
    requires b == StatementAlone ==> !HasIndex(q)
    ensures FromRows(PlanOver(q, b), db) == EmbedAll(b, Universe(db, HasIndex(q)))
  {
    hide PlanWhat, PlanWhere, PlanOrder;
    var sel := PlanOver(q, b);
    var entries := Entries(db.stmts, db.envs);
    var first := RowsOf(sel.base, db);
    var base := EmbedAll(b, entries);
    var rest := if HasIndex(q) then [Join(RefsTable, ENVELOPE_ID, REFS_ID)] else [];
    if b == Both {
      JoinEnvelopes(db.stmts, db.envs, db.next, 0);
      assert db.stmts[0..] == db.stmts && entries[0..] == entries;
      assert first == StmtTuples(db.stmts);
      assert RowsOf(EnvelopeTable, db) == EnvTuples(db.envs);
      assert sel.joins[1..] == rest;
      assert JoinAll(first, sel.joins, db) == JoinAll(base, rest, db);
    } else {
      assert sel.joins == rest;
      assert first == base;
    }
    assert FromRows(sel, db) == JoinAll(base, rest, db);
    if HasIndex(q) {
      JoinRefs(b, entries, db.refs);
      assert RowsOf(RefsTable, db) == RefTuples(db.refs);
      assert rest[1..] == [];
      var joined := JoinRows(base, RowsOf(RefsTable, db), rest[0]);
      assert JoinAll(base, rest, db) == JoinAll(joined, [], db) == joined;
    }
  }

  // ---- Columns mean fields ----

  /** The tables of `b` have the column. */
  predicate Available(b: Base, sel: string) {
    (b == StatementAlone ==> StatementName(sel)) && (b == EnvelopeAlone ==> EnvelopeName(sel))
  }

  lemma ColumnIsField(b: Base, sel: string, rec: Rec, join: bool)
    requires SimpleName(sel) && Available(b, sel)
    requires b == StatementAlone ==> !join
    requires b == Both || rec.wki.Some? ==> join
    ensures ColumnValue(PlanColumn(sel, join), Embed(b, rec)) == FieldValue(sel, rec)
  {
  }

  predicate CriteriaAvailable(b: Base, c: Criteria) {
    match c
    case ValueCriteria(sel, _, _) => Available(b, sel)
    case RangeCriteria(sel, _, _) => Available(b, sel)
    case IndexCriteria(_, _) => b != StatementAlone
    case CompoundCriteria(_, l, r) => CriteriaAvailable(b, l) && CriteriaAvailable(b, r)
    case NegatedCriteria(e) => CriteriaAvailable(b, e)
  }

  /** `b` has every column the query uses. */
  predicate Fits(b: Base, q: Query) {
    && (b == StatementAlone ==> IsStatementQuery(q))
    && (b == EnvelopeAlone ==> IsEnvelopeQuery(q))
  }

  lemma {:induction false} CriteriaHold(b: Base, c: Criteria, rec: Rec, join: bool)
    requires WellFormedCriteria(c) && CriteriaAvailable(b, c)
    requires b == StatementAlone ==> !join
    requires b == Both || rec.wki.Some? ==> join
    requires IsIndexCriteria(c) ==> rec.wki.Some?
    ensures Holds(PlanCriteria(c, join), Embed(b, rec)) <==> Satisfies(c, rec)
  {
    match c {
      case ValueCriteria(sel, op, val) => ColumnIsField(b, sel, rec, join);
      case RangeCriteria(sel, op, num) =>
        ColumnIsField(b, sel, rec, join);
        assert PlanColumn(sel, false) == PlanColumn(sel, join);
      case IndexCriteria(_, val) =>
      case CompoundCriteria(_, l, r) =>
        if IsIndexCriteria(l) { assert rec.wki.Some?; }
        CriteriaHold(b, l, rec, join);
        CriteriaHold(b, r, rec, join);
      case NegatedCriteria(e) => CriteriaHold(b, e, rec, join);
    }
  }

  /** LIKE 'pre%' is a case-insensitive prefix test. */
  lemma {:induction false} LikePrefix(pre: string, s: string)
    requires forall i :: 0 <= i < |pre| ==> pre[i] != '%' && pre[i] != '_'
    ensures LikeMatch(pre + "%", s) <==> FoldedPrefix(pre, s)
  {
    var pat := pre + "%";
    if pre == "" {
      LikeAnything(s);
      assert pat == "%";
    } else if s != "" {
      LikePrefix(pre[1..], s[1..]);
      assert pat[1..] == pre[1..] + "%";
      if FoldedPrefix(pre, s) {
        forall i | 0 <= i < |pre[1..]| ensures Fold(pre[1..][i]) == Fold(s[1..][i]) {
          assert pre[1..][i] == pre[i + 1] && s[1..][i] == s[i + 1];
        }
      }
      if Fold(pre[0]) == Fold(s[0]) && FoldedPrefix(pre[1..], s[1..]) {
        forall i | 0 <= i < |pre| ensures Fold(pre[i]) == Fold(s[i]) {
          if i > 0 { assert pre[i] == pre[1..][i - 1] && s[i] == s[1..][i - 1]; }
        }
      }
    }
  }

  lemma {:induction false} LikeAnything(s: string)
    ensures LikeMatch("%", s)
  {
    assert "%"[1..] == "";
    if s != "" { LikeAnything(s[1..]); }
  }

  // ---- The compiled SELECT returns what the query means ----

  lemma {:induction false} StatementCriteriaAvailable(c: Criteria)
    requires IsStatementCriteria(c)
    ensures CriteriaAvailable(StatementAlone, c) && !IsIndexCriteria(c)
  {
    match c {
      case CompoundCriteria(_, l, r) =>
        StatementCriteriaAvailable(l);
        StatementCriteriaAvailable(r);
      case NegatedCriteria(e) => StatementCriteriaAvailable(e);
      case _ =>
    }
  }

  lemma {:induction false} EnvelopeCriteriaAvailable(b: Base, c: Criteria)
    requires WellFormedCriteria(c) && b != StatementAlone
    ensures CriteriaAvailable(b, c)
  {
    match c {
      case CompoundCriteria(_, l, r) =>
        EnvelopeCriteriaAvailable(b, l);
        EnvelopeCriteriaAvailable(b, r);
      case NegatedCriteria(e) => EnvelopeCriteriaAvailable(b, e);
      case _ =>
    }
  }

  lemma FitsCriteria(b: Base, q: Query)
    requires WellFormed(q) && Fits(b, q) && q.criteria.Some?
    ensures CriteriaAvailable(b, q.criteria.value)
  {
    if b == StatementAlone {
      StatementCriteriaAvailable(q.criteria.value);
    } else {
      EnvelopeCriteriaAvailable(b, q.criteria.value);
    }
  }

  /** The compiled choice of tables has every column the query uses. */
  lemma BaseFits(q: Query)
    requires WellFormed(q)
    ensures Fits(BaseOf(q), q)
    ensures BaseOf(q) == StatementAlone ==> !HasIndex(q)
  {
    if IsStatementQuery(q) && q.criteria.Some? {
      StatementCriteriaAvailable(q.criteria.value);
    }
  }

  lemma NamespaceHolds(b: Base, ns: string, rec: Rec)
    requires WellFormedNamespace(ns) && ns != "*" && b != StatementAlone
    ensures Holds(PlanNamespace(ns).value, Embed(b, rec)) <==> InNamespace(ns, rec.stmt)
  {
    var c := Column(None, Namespace);
    assert ColumnValue(c, Embed(b, rec)) == Text(rec.stmt.namespace);
    if |ns| > 1 && ns[|ns| - 1] == '*' {
      var pre := ns[..|ns| - 2];
      assert ns[|ns| - 1] == '*' && !IsNamespaceChar('*');
      assert !NamespaceParts(ns);
      assert NamespaceParts(pre);
      LikePrefix(pre, rec.stmt.namespace);
    }
  }

  /** A tuple passes WHERE when its record is selected. */
  lemma WhereIsSelects(b: Base, q: Query, rec: Rec)
    requires WellFormed(q) && Fits(b, q)
    requires HasIndex(q) <==> rec.wki.Some?
    requires b == StatementAlone ==> !HasIndex(q)
    ensures var join := PlanJoins(b, HasIndex(q)) != [];
      (PlanWhere(q, join).Some? ==> Holds(PlanWhere(q, join).value, Embed(b, rec))) <==> Selects(q, rec)
  {
    var join := PlanJoins(b, HasIndex(q)) != [];
    if q.namespace != "*" {
      NamespaceHolds(b, q.namespace, rec);
    }
    if q.criteria.Some? {
      FitsCriteria(b, q);
      CriteriaHold(b, q.criteria.value, rec, join);
    }
  }

  /** The select list shows the record's row. */
  lemma ProjectIsRow(b: Base, q: Query, rec: Rec)
    requires WellFormed(q) && Fits(b, q)
    requires HasIndex(q) <==> rec.wki.Some?
    requires b == StatementAlone ==> !HasIndex(q)
    requires Compilable(q)
    ensures Project(PlanWhat(q.selector, PlanJoins(b, HasIndex(q)) != []), Embed(b, rec)) == RowFor(q.selector, rec)
  {
    var join := PlanJoins(b, HasIndex(q)) != [];
    match q.selector {
      case SimpleSelector(sel) => ColumnIsField(b, sel, rec, join);
      case CompoundSelector(sels) =>
        forall i | 0 <= i < |sels|
          ensures ColumnValue(PlanColumn(sels[i], join), Embed(b, rec)) == FieldValue(sels[i], rec)
        {
          ColumnIsField(b, sels[i], rec, join);
        }
      case FunctionSelector(fn, arg) =>
        if arg !in {"*", "body"} { ColumnIsField(b, arg, rec, join); }
    }
  }

  lemma SortIsRow(b: Base, q: Query, rec: Rec)
    requires WellFormed(q) && Fits(b, q)
    requires HasIndex(q) <==> rec.wki.Some?
    requires b == StatementAlone ==> !HasIndex(q)
    ensures SortKeys(PlanOrder(q, PlanJoins(b, HasIndex(q)) != []), Embed(b, rec)) == SortRow(q.order, rec)
  {
    var join := PlanJoins(b, HasIndex(q)) != [];
    if q.order.Some? {
      var o := q.order.value;
      forall i | 0 <= i < |o| ensures ColumnValue(PlanColumn(o[i].sel, join), Embed(b, rec)) == FieldValue(o[i].sel, rec) {
        ColumnIsField(b, o[i].sel, rec, join);
      }
    }
  }

  lemma {:induction false} CandidatesAreSelected(b: Base, q: Query, recs: seq<Rec>)
    requires WellFormed(q) && Fits(b, q) && Compilable(q)
    requires forall i :: 0 <= i < |recs| ==> (HasIndex(q) <==> recs[i].wki.Some?)
    requires b == StatementAlone ==> !HasIndex(q)
    ensures Candidates(PlanOver(q, b), EmbedAll(b, recs)) == Selected(q, recs)
  {
    if recs != [] {
      WhereIsSelects(b, q, recs[0]);
      ProjectIsRow(b, q, recs[0]);
      SortIsRow(b, q, recs[0]);
      CandidatesAreSelected(b, q, recs[1..]);
      hide PlanWhere, PlanWhat, PlanOrder, WellFormed, Selects, Holds, Project, SortKeys, RowFor, SortRow;
      assert EmbedAll(b, recs)[1..] == EmbedAll(b, recs[1..]);
    }
  }

  lemma {:induction false} RefRecsHaveRefs(rec: Rec, refs: seq<RefRow>)
    ensures forall i :: 0 <= i < |RefRecs(rec, refs)| ==> RefRecs(rec, refs)[i].wki.Some?
  {
    if refs != [] { RefRecsHaveRefs(rec, refs[1..]); }
  }

  lemma {:induction false} AllRefRecsHaveRefs(recs: seq<Rec>, refs: seq<RefRow>)
    ensures forall i :: 0 <= i < |AllRefRecs(recs, refs)| ==> AllRefRecs(recs, refs)[i].wki.Some?
  {
    if recs != [] {
      RefRecsHaveRefs(recs[0], refs);
      AllRefRecsHaveRefs(recs[1..], refs);
    }
  }

  lemma CandidatesOfQuery(b: Base, q: Query, db: Db)
    requires Inv(db) && WellFormed(q) && Fits(b, q) && Compilable(q)
    requires b == StatementAlone ==> !HasIndex(q)
    ensures Candidates(PlanOver(q, b), FromRows(PlanOver(q, b), db)) == Selected(q, Universe(db, HasIndex(q)))
  {
    var recs := Universe(db, HasIndex(q));
    if HasIndex(q) { AllRefRecsHaveRefs(Entries(db.stmts, db.envs), db.refs); }
    FromRowsAreRecords(q, b, db);
    CandidatesAreSelected(b, q, recs);
  }

  /** Over any tables that have its columns, the SELECT returns what the query means:
      the same rows, in the same allowed orders, under LIMIT too. */
  lemma AnswersAreMeaning(b: Base, q: Query, db: Db, rows: seq<seq<Value>>)
    requires Inv(db) && WellFormed(q) && Fits(b, q) && Compilable(q)
    requires b == StatementAlone ==> !HasIndex(q)
    ensures IsAnswer(PlanOver(q, b), db, rows) <==> Means(q, db, rows)
  {
    CandidatesOfQuery(b, q, db);
    var join := PlanJoins(b, HasIndex(q)) != [];
    assert Directions(PlanOrder(q, join)) == OrderDirs(q.order);
  }

  /** Compiling preserves meaning: the answers of the compiled SELECT are the query's. */
  lemma CompilePreservesMeaning(q: Query, db: Db, rows: seq<seq<Value>>)
    requires Inv(db) && WellFormed(q) && Compilable(q)
    ensures IsAnswer(Plan(q), db, rows) <==> Means(q, db, rows)
  {
    BaseFits(q);
    AnswersAreMeaning(BaseOf(q), q, db, rows);
  }

  /** The choice of tables is invisible: reading one table, or joining both, gives the same answers. */
  lemma TableChoiceIsInvisible(q: Query, db: Db, rows: seq<seq<Value>>)
    requires Inv(db) && WellFormed(q) && Compilable(q)
    ensures IsAnswer(Plan(q), db, rows) <==> IsAnswer(PlanOver(q, Both), db, rows)
  {
    CompilePreservesMeaning(q, db, rows);
    AnswersAreMeaning(Both, q, db, rows);
  }
}
