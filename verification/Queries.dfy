/** The query tree of mc/query/query.go. */
module Queries {
  import opened Std
  import Decimal

  datatype Op = OpSelect | OpDelete

  /** `NoSelector` is the nil selector a query starts with. */
  datatype Selector =
    | NoSelector
    | SimpleSelector(sel: string)
    | CompoundSelector(sels: seq<string>)
    | FunctionSelector(fn: string, arg: string)

  datatype Criteria =
    | ValueCriteria(sel: string, op: string, val: string)
    | RangeCriteria(sel: string, op: string, num: int)
    | IndexCriteria(sel: string, val: string)
    | CompoundCriteria(op: string, left: Criteria, right: Criteria)
    | NegatedCriteria(e: Criteria)

  datatype OrderSpec = OrderSpec(sel: string, dir: string)

  datatype Query = Query(
    op: Op,
    namespace: string,
    selector: Selector,
    criteria: Option<Criteria>,
    order: Option<seq<OrderSpec>>,
    limit: int)

  function WithSimpleSelect(q: Query, sel: string): Query {
    q.(selector := SimpleSelector(sel))
  }

  predicate IsSimpleSelect(q: Query, sel: string) {
    q.op.OpSelect? && q.selector == SimpleSelector(sel)
  }

  // ---- The queries the grammar can produce ----

  predicate IsAlnum(c: char) {
    'a' <= c <= 'z' || 'A' <= c <= 'Z' || '0' <= c <= '9'
  }

  predicate IsNamespaceChar(c: char) { IsAlnum(c) || c == '-' }
  predicate IsStatementIdChar(c: char) { IsAlnum(c) || c == ':' }
  predicate IsWkiChar(c: char) { IsAlnum(c) || c == '-' || c == ':' || c == '_' || c == '/' || c == '.' }

  predicate SimpleName(s: string) {
    s in {"*", "body", "id", "publisher", "namespace", "source", "timestamp", "counter"}
  }

  predicate FunctionName(s: string) { s in {"COUNT", "MIN", "MAX"} }

  predicate OrderName(s: string) {
    s in {"id", "namespace", "publisher", "source", "timestamp", "counter"}
  }

  predicate DirName(s: string) { s in {"", "ASC", "DESC"} }

  predicate RangeOp(s: string) { s in {"<=", "<", "=", "!=", ">=", ">"} }

  predicate WellFormedSelector(s: Selector) {
    match s
    case NoSelector => false
    case SimpleSelector(sel) => SimpleName(sel)
    case CompoundSelector(sels) => |sels| > 0 && forall i :: 0 <= i < |sels| ==> SimpleName(sels[i])
    case FunctionSelector(fn, arg) => FunctionName(fn) && SimpleName(arg)
  }

  predicate WellFormedCriteria(c: Criteria) {
    match c
    case ValueCriteria(sel, op, val) =>
      && op in {"=", "!="}
      && |val| > 0
      && (|| (sel == "id" && forall i :: 0 <= i < |val| ==> IsStatementIdChar(val[i]))
          || (sel in {"publisher", "source"} && forall i :: 0 <= i < |val| ==> IsAlnum(val[i])))
    case RangeCriteria(sel, op, num) =>
      sel in {"timestamp", "counter"} && RangeOp(op) && 0 <= num <= Decimal.MAX_INT
    case IndexCriteria(sel, val) =>
      sel == "wki" && |val| > 0 && forall i :: 0 <= i < |val| ==> IsWkiChar(val[i])
    case CompoundCriteria(op, left, right) =>
      op in {"AND", "OR"} && WellFormedCriteria(left) && WellFormedCriteria(right)
    case NegatedCriteria(e) => WellFormedCriteria(e)
  }

  /** Dot-separated non-empty parts of `IsNamespaceChar`. */
  predicate NamespaceParts(ns: string) {
    && |ns| > 0
    && ns[0] != '.' && ns[|ns| - 1] != '.'
    && (forall i :: 0 <= i < |ns| ==> IsNamespaceChar(ns[i]) || ns[i] == '.')
    && (forall i :: 0 <= i < |ns| - 1 ==> !(ns[i] == '.' && ns[i + 1] == '.'))
  }

  /** "*", a dotted name, or a dotted name followed by ".*". */
  predicate WellFormedNamespace(ns: string) {
    || ns == "*"
    || NamespaceParts(ns)
    || (|ns| > 2 && ns[|ns| - 2..] == ".*" && NamespaceParts(ns[..|ns| - 2]))
  }

  predicate WellFormedOrder(o: seq<OrderSpec>) {
    |o| > 0 && forall i :: 0 <= i < |o| ==> OrderName(o[i].sel) && DirName(o[i].dir)
  }

  predicate WellFormed(q: Query) {
    && WellFormedNamespace(q.namespace)
    && WellFormedSelector(q.selector)
    && (q.op.OpDelete? ==> q.selector == SimpleSelector("id") && q.order == None)
    && (q.criteria.Some? ==> WellFormedCriteria(q.criteria.value))
    && (q.order.Some? ==> WellFormedOrder(q.order.value))
    && 0 <= q.limit <= Decimal.MAX_INT
  }
}
