/** The query compiler of mc/query/compile.go: from a query tree to SQL text and a row selector. */
module Compile {
  import opened Std
  import opened Queries
  import Decimal
  import S = Sql

  datatype CompileError =
    | IllegalSelector
    | UnexpectedSelectorType
    | UnexpectedSelector
    | UnexpectedFunction
    | UnexpectedIndexSelector

  /** How the columns of a result row are read back. */
  datatype RowSelector =
    | RowStatement
    | RowBody
    | RowString
    | RowInt
    | RowInt64
    | RowNullInt64
    | RowCompound(sels: seq<string>, parts: seq<RowSelector>)

  // ---- Column names ----

  const COLUMNS_SIMPLE: map<string, string> := map[
    "*" := "data",
    "body" := "data",
    "namespace" := "DISTINCT namespace",
    "publisher" := "DISTINCT publisher",
    "source" := "DISTINCT source"]

  const COLUMNS_COMPOUND: map<string, string> := map["*" := "data", "body" := "data"]

  const COLUMNS_FUNCTION: map<string, string> := map[
    "*" := "1",
    "body" := "1",
    "namespace" := "DISTINCT namespace",
    "publisher" := "DISTINCT publisher",
    "source" := "DISTINCT source"]

  function SelectorColumn(sel: string, rename: map<string, string>): string {
    if sel in rename then rename[sel] else sel
  }

  /** With several tables in FROM, `id` alone would be ambiguous. */
  function DisambigSelector(col: string, join: bool): string {
    if join && col == "id" then "Envelope.id" else col
  }

  /** strings.Join(parts, ", ") */
  function Commas(parts: seq<string>): string {
    if parts == [] then ""
    else if |parts| == 1 then parts[0]
    else parts[0] + ", " + Commas(parts[1..])
  }

  /** The functions and the selectors each may be applied to. */
  predicate CheckFunctionSelector(fn: string, arg: string) {
    || (fn == "COUNT" && SimpleName(arg))
    || (fn in {"MIN", "MAX"} && arg in {"timestamp", "counter"})
  }

  function CompileQueryColumns(q: Query, join: bool): Result<string, CompileError> {
    match q.selector
    case SimpleSelector(sel) => Ok(DisambigSelector(SelectorColumn(sel, COLUMNS_SIMPLE), join))
    case CompoundSelector(sels) =>
      if |sels| == 1 then Ok(DisambigSelector(SelectorColumn(sels[0], COLUMNS_SIMPLE), join))
      else
        Ok(Commas(seq(|sels|, i requires 0 <= i < |sels| =>
          DisambigSelector(SelectorColumn(sels[i], COLUMNS_COMPOUND), join))))
    case FunctionSelector(fn, arg) =>
      if !CheckFunctionSelector(fn, arg) then Err(IllegalSelector)
      else Ok(fn + "(" + DisambigSelector(SelectorColumn(arg, COLUMNS_FUNCTION), join) + ")")
    case NoSelector => Err(UnexpectedSelectorType)
  }

  // ---- WHERE, ORDER BY ----

  function Quote(s: string): string { "'" + s + "'" }

  function CompileNamespaceCriteria(ns: string): string
    requires |ns| > 0
  {
    if ns == "*" then ""
    else if |ns| > 1 && ns[|ns| - 1] == '*' then "namespace" + " " + "LIKE" + " " + Quote(ns[..|ns| - 2] + "%")
    else "namespace" + " " + "=" + " " + Quote(ns)
  }

  function CompileSelectorCriteria(c: Criteria, join: bool): string {
    match c
    case ValueCriteria(sel, op, val) => DisambigSelector(sel, join) + " " + op + " " + Quote(val)
    case RangeCriteria(sel, op, num) =>
      sel + " " + op + " " + (if num < 0 then "-" + Decimal.Show(-num) else Decimal.Show(num))
    case IndexCriteria(sel, val) => sel + " " + "=" + " " + Quote(val)
    case CompoundCriteria(op, left, right) =>
      "(" + (CompileSelectorCriteria(left, join) + " " + op + " " + CompileSelectorCriteria(right, join)) + ")"
    case NegatedCriteria(e) => "NOT" + " " + CompileSelectorCriteria(e, join)
  }

  function CompileQueryCriteria(q: Query, join: bool): string
    requires |q.namespace| > 0
  {
    var nscrit := CompileNamespaceCriteria(q.namespace);
    if q.criteria == None then nscrit
    else
      var scrit := CompileSelectorCriteria(q.criteria.value, join);
      if nscrit != "" then nscrit + " " + "AND" + " " + scrit else scrit
  }

  function OrderText(spec: OrderSpec, join: bool): string {
    var str := DisambigSelector(spec.sel, join);
    if spec.dir != "" then str + " " + spec.dir else str
  }

  function CompileQueryOrder(q: Query, join: bool): string {
    if q.order == None then ""
    else
      var o := q.order.value;
      Commas(seq(|o|, i requires 0 <= i < |o| => OrderText(o[i], join)))
  }

  // ---- Row selectors ----

  function SimpleRowSelector(sel: string): Option<RowSelector> {
    if sel == "*" then Some(RowStatement)
    else if sel == "body" then Some(RowBody)
    else if sel in {"id", "namespace", "publisher", "source"} then Some(RowString)
    else if sel in {"timestamp", "counter"} then Some(RowInt64)
    else None
  }

  function CompileQueryRowSelector(q: Query): Result<RowSelector, CompileError> {
    match q.selector
    case SimpleSelector(sel) =>
      (match SimpleRowSelector(sel)
       case Some(rs) => Ok(rs)
       case None => Err(UnexpectedSelector))
    case CompoundSelector(sels) =>
      if forall i :: 0 <= i < |sels| ==> SimpleRowSelector(sels[i]).Some? then
        Ok(RowCompound(sels, seq(|sels|, i requires 0 <= i < |sels| && SimpleRowSelector(sels[i]).Some? =>
          SimpleRowSelector(sels[i]).value)))
      else Err(UnexpectedSelector)
    case FunctionSelector(fn, _) =>
      if fn == "COUNT" then Ok(RowInt)
      else if fn in {"MIN", "MAX"} then Ok(RowNullInt64)
      else Err(UnexpectedFunction)
    case NoSelector => Err(UnexpectedSelectorType)
  }

  // ---- Which tables ----

  predicate StatementName(sel: string) { sel in {"*", "body", "id"} }

  predicate EnvelopeName(sel: string) {
    sel in {"id", "publisher", "namespace", "source", "timestamp", "counter"}
  }

  predicate IsStatementSelector(s: Selector) {
    match s
    case SimpleSelector(sel) => StatementName(sel)
    case CompoundSelector(sels) => forall i :: 0 <= i < |sels| ==> StatementName(sels[i])
    case _ => false
  }

  predicate IsEnvelopeSelector(s: Selector) {
    match s
    case SimpleSelector(sel) => EnvelopeName(sel)
    case CompoundSelector(sels) => forall i :: 0 <= i < |sels| ==> EnvelopeName(sels[i])
    case FunctionSelector(_, _) => true
    case NoSelector => false
  }

  predicate IsStatementCriteria(c: Criteria) {
    match c
    case ValueCriteria(sel, _, _) => sel == "id"
    case CompoundCriteria(_, l, r) => IsStatementCriteria(l) && IsStatementCriteria(r)
    case NegatedCriteria(e) => IsStatementCriteria(e)
    case _ => false
  }

  predicate IsIndexCriteria(c: Criteria) {
    match c
    case IndexCriteria(_, _) => true
    case CompoundCriteria(_, l, r) => IsIndexCriteria(l) || IsIndexCriteria(r)
    case NegatedCriteria(e) => IsIndexCriteria(e)
    case _ => false
  }

  predicate IsStatementQuery(q: Query) {
    && q.namespace == "*"
    && IsStatementSelector(q.selector)
    && (q.criteria == None || IsStatementCriteria(q.criteria.value))
    && q.order == None
  }

  predicate IsEnvelopeQuery(q: Query) { IsEnvelopeSelector(q.selector) }

  predicate HasIndex(q: Query) { q.criteria.Some? && IsIndexCriteria(q.criteria.value) }

  /** `collectIndexCriteriaTables`: adds the index tables a criteria tree needs. */
  method CollectIndexCriteriaTables(tabs: map<string, string>, c: Criteria)
    returns (r: Result<map<string, string>, CompileError>)
    ensures WellFormedCriteria(c) ==>
              r == Ok(if IsIndexCriteria(c) then tabs["wki" := "Refs"] else tabs)
    ensures r.Err? ==> r.error == UnexpectedIndexSelector
    decreases c
  {
    match c {
      case IndexCriteria(sel, _) =>
        if sel != "wki" {
          return Err(UnexpectedIndexSelector);
        }
        return Ok(tabs[sel := "Refs"]);
      case CompoundCriteria(_, left, right) =>
        var rl := CollectIndexCriteriaTables(tabs, left);
        if rl.Err? {
          return rl;
        }
        r := CollectIndexCriteriaTables(rl.value, right);
        assert tabs["wki" := "Refs"]["wki" := "Refs"] == tabs["wki" := "Refs"];
      case NegatedCriteria(e) =>
        r := CollectIndexCriteriaTables(tabs, e);
      case _ =>
        return Ok(tabs);
    }
  }

  /** fmt.Sprintf(t, x) for a format with one "%s". */
  function Fill(t: string, x: string): string {
    if |t| < 2 then t
    else if t[..2] == "%s" then x + t[2..]
    else [t[0]] + Fill(t[1..], x)
  }

  lemma {:induction false} FillAt(pre: string, post: string, x: string)
    requires '%' !in pre
    ensures Fill(pre + "%s" + post, x) == pre + x + post
  {
    var t := pre + "%s" + post;
    if pre == "" {
      assert t[..2] == "%s" && t[2..] == post;
    } else {
      FillAt(pre[1..], post, x);
      assert t[0] == pre[0] != '%';
      assert t[..2][0] != '%';
      assert t[1..] == pre[1..] + "%s" + post;
      assert [pre[0]] + (pre[1..] + x + post) == pre + x + post;
    }
  }

  // ---- The query the text stands for ----

  function SelectorField(sel: string): S.Field
    requires SimpleName(sel)
  {
    if sel in {"*", "body"} then S.Data else S.FieldNamed(sel).value
  }

  function PlanColumn(sel: string, join: bool): S.Column
    requires SimpleName(sel)
  {
    S.Column(if join && sel == "id" then Some(S.EnvelopeTable) else None, SelectorField(sel))
  }

  predicate DistinctName(sel: string) { sel in {"namespace", "publisher", "source"} }

  function PlanWhat(s: Selector, join: bool): S.What
    requires WellFormedSelector(s)
  {
    match s
    case SimpleSelector(sel) => S.Columns(DistinctName(sel), [PlanColumn(sel, join)])
    case CompoundSelector(sels) =>
      S.Columns(|sels| == 1 && DistinctName(sels[0]), seq(|sels|, i requires 0 <= i < |sels| => PlanColumn(sels[i], join)))
    case FunctionSelector(fn, arg) =>
      S.Aggregate(fn, DistinctName(arg),
        if arg in {"*", "body"} then S.Const(1) else S.Col(PlanColumn(arg, join)))
  }

  function PlanCriteria(c: Criteria, join: bool): S.Expr
    requires WellFormedCriteria(c)
  {
    match c
    case ValueCriteria(sel, op, val) => S.Compare(PlanColumn(sel, join), op, S.LStr(val))
    case RangeCriteria(sel, op, num) => S.Compare(PlanColumn(sel, false), op, S.LNum(num))
    case IndexCriteria(_, val) => S.Compare(S.Column(None, S.Wki), "=", S.LStr(val))
    case CompoundCriteria(op, l, r) =>
      if op == "AND" then S.And(PlanCriteria(l, join), PlanCriteria(r, join))
      else S.Or(PlanCriteria(l, join), PlanCriteria(r, join))
    case NegatedCriteria(e) => S.Not(PlanCriteria(e, join))
  }

  function PlanNamespace(ns: string): Option<S.Expr>
    requires |ns| > 0
  {
    if ns == "*" then None
    else if |ns| > 1 && ns[|ns| - 1] == '*' then
      Some(S.Like(S.Column(None, S.Namespace), ns[..|ns| - 2] + "%"))
    else Some(S.Compare(S.Column(None, S.Namespace), "=", S.LStr(ns)))
  }

  function PlanWhere(q: Query, join: bool): Option<S.Expr>
    requires WellFormed(q)
  {
    var ns := PlanNamespace(q.namespace);
    if q.criteria == None then ns
    else
      var c := PlanCriteria(q.criteria.value, join);
      Some(if ns.Some? then S.And(ns.value, c) else c)
  }

  function PlanOrder(q: Query, join: bool): seq<S.Order>
    requires WellFormed(q)
  {
    if q.order == None then []
    else
      var o := q.order.value;
      seq(|o|, i requires 0 <= i < |o| => S.Order(PlanColumn(o[i].sel, join), o[i].dir == "DESC"))
  }

  const STATEMENT_ID := S.Column(Some(S.StatementTable), S.Id)
  const ENVELOPE_ID := S.Column(Some(S.EnvelopeTable), S.Id)
  const REFS_ID := S.Column(Some(S.RefsTable), S.Id)

  /** The three possible FROM clauses, before any index table. */
  datatype Base = StatementAlone | EnvelopeAlone | Both

  function BaseOf(q: Query): Base {
    if IsStatementQuery(q) then StatementAlone
    else if IsEnvelopeQuery(q) then EnvelopeAlone
    else Both
  }

  function PlanJoins(b: Base, index: bool): seq<S.Join> {
    (if b == Both then [S.Join(S.EnvelopeTable, STATEMENT_ID, ENVELOPE_ID)] else [])
    + (if index then [S.Join(S.RefsTable, ENVELOPE_ID, REFS_ID)] else [])
  }

  /** The SELECT for `q` over a given FROM clause. */
  function PlanOver(q: Query, b: Base): S.Select
    requires WellFormed(q)
  {
    var joins := PlanJoins(b, HasIndex(q));
    var join := joins != [];
    S.Select(
      PlanWhat(q.selector, join),
      if b == EnvelopeAlone then S.EnvelopeTable else S.StatementTable,
      joins,
      PlanWhere(q, join),
      PlanOrder(q, join),
      if q.limit > 0 then Some(q.limit) else None)
  }

  function Plan(q: Query): S.Select
    requires WellFormed(q)
  {
    PlanOver(q, BaseOf(q))
  }

  predicate Compilable(q: Query) {
    q.selector.FunctionSelector? ==> CheckFunctionSelector(q.selector.fn, q.selector.arg)
  }

  /** Compiling refuses exactly the least or greatest of what is no number. */
  lemma RefusesNoNumbers(q: Query)
    requires WellFormed(q)
    ensures !Compilable(q) <==>
      q.selector.FunctionSelector? && q.selector.fn != "COUNT"
      && q.selector.arg in {"*", "body", "id", "publisher", "namespace", "source"}
  {
    hide WellFormedCriteria, WellFormedNamespace, WellFormedOrder;
  }
}
