/** The direct query evaluator of mc/query/eval.go. */
module Eval {
  import opened Std
  import opened Queries
  import opened Statements
  import Compile

  datatype EvalError =
    | UnexpectedCriteriaSelector
    | UnexpectedCriteriaOp
    | UnexpectedSelector
    | UnexpectedSelectorType
    | IllegalSelector
    | BadAssertion   // a Go type assertion that panics

  // ---- Filters ----

  function ValueField(sel: string, s: Statement): string {
    if sel == "id" then s.id else s.publisher // a source is taken to be the publisher
  }

  function RangeField(sel: string, s: Statement): int {
    if sel == "timestamp" then s.timestamp else 0 // counter is undefined here
  }

  predicate CompareInt(op: string, a: int, b: int)
    requires RangeOp(op)
  {
    match op
    case "<=" => a <= b
    case "<" => a < b
    case "=" => a == b
    case "!=" => a != b
    case ">=" => a >= b
    case _ => a > b
  }

  type Filter = Statement -> bool

  function MakeNamespaceFilter(ns: string): Filter
    requires |ns| > 0
  {
    if ns == "*" then _ => true
    else if |ns| > 1 && ns[|ns| - 1] == '*' then (s: Statement) => ns[..|ns| - 2] <= s.namespace
    else (s: Statement) => s.namespace == ns
  }

  /** Builds the closure a criteria tree stands for. */
  function MakeCriteriaFilter(c: Criteria): Result<Filter, EvalError> {
    match c
    case ValueCriteria(sel, op, val) =>
      if sel !in {"id", "publisher", "source"} then Err(UnexpectedCriteriaSelector)
      else if op == "=" then Ok((s: Statement) => ValueField(sel, s) == val)
      else if op == "!=" then Ok((s: Statement) => ValueField(sel, s) != val)
      else Err(UnexpectedCriteriaOp)
    case RangeCriteria(sel, op, num) =>
      if sel !in {"timestamp", "counter"} then Err(UnexpectedCriteriaSelector)
      else if !RangeOp(op) then Err(UnexpectedCriteriaOp)
      else Ok((s: Statement) => RangeOp(op) && CompareInt(op, RangeField(sel, s), num))
    case IndexCriteria(sel, val) =>
      if sel != "wki" then Err(UnexpectedCriteriaSelector)
      else Ok((s: Statement) => val in Refs(s))
    case CompoundCriteria(op, left, right) =>
      if op !in {"AND", "OR"} then Err(UnexpectedCriteriaOp)
      else
        (match MakeCriteriaFilter(left)
         case Err(e) => Err(e)
         case Ok(l) =>
           match MakeCriteriaFilter(right)
           case Err(e) => Err(e)
           case Ok(r) => if op == "AND" then Ok((s: Statement) => l(s) && r(s)) else Ok((s: Statement) => l(s) || r(s)))
    case NegatedCriteria(e) =>
      (match MakeCriteriaFilter(e)
       case Err(err) => Err(err)
       case Ok(f) => Ok((s: Statement) => !f(s)))
  }

  function MakeFilter(q: Query): Result<Filter, EvalError> {
    if q.criteria == None then Ok(_ => true) else MakeCriteriaFilter(q.criteria.value)
  }

  /** What the criteria closure answers, as a plain predicate. */
  predicate Evals(c: Criteria, s: Statement) {
    match c
    case ValueCriteria(sel, op, val) => (op == "=") == (ValueField(sel, s) == val)
    case RangeCriteria(sel, op, num) => RangeOp(op) && CompareInt(op, RangeField(sel, s), num)
    case IndexCriteria(_, val) => val in Refs(s)
    case CompoundCriteria(op, l, r) => if op == "AND" then Evals(l, s) && Evals(r, s) else Evals(l, s) || Evals(r, s)
    case NegatedCriteria(e) => !Evals(e, s)
  }

  predicate EvalSelects(q: Query, s: Statement)
    requires |q.namespace| > 0
  {
    MakeNamespaceFilter(q.namespace)(s) && (q.criteria.Some? ==> Evals(q.criteria.value, s))
  }

  lemma {:induction false} FilterEvals(c: Criteria)
    ensures WellFormedCriteria(c) ==> MakeCriteriaFilter(c).Ok?
    ensures MakeCriteriaFilter(c).Ok? ==> forall s :: MakeCriteriaFilter(c).value(s) <==> Evals(c, s)
  {
    match c {
      case CompoundCriteria(_, l, r) =>
        FilterEvals(l);
        FilterEvals(r);
      case NegatedCriteria(e) => FilterEvals(e);
      case _ =>
    }
  }

  // ---- Result sets ----

  /** A value in a result set. Statements and bodies are compared by identity, here the
      statement's position in the input. `Untyped` is Go's plain int, `Num` an int64. */
  datatype Key = StmtKey(at: nat) | BodyKey(at: nat) | StrKey(s: string) | Num(i: int) | Untyped(i: int)

  /** What a simple selector takes from the statement at a position. */
  function KeyOf(sel: string, at: nat, s: Statement): Key {
    match sel
    case "*" => StmtKey(at)
    case "body" => BodyKey(at)
    case "id" => StrKey(s.id)
    case "publisher" => StrKey(s.publisher)
    case "namespace" => StrKey(s.namespace)
    case "source" => StrKey(StatementSource(s))
    case "timestamp" => Num(s.timestamp)
    case _ => Untyped(0)
  }

  /** The first `limit` different values, all of them when `limit` is 0. */
  function FirstDistinct(keys: seq<Key>, limit: int): set<Key> {
    if keys == [] then {}
    else
      var before := FirstDistinct(keys[..|keys| - 1], limit);
      if limit == 0 || |before| < limit then before + {keys[|keys| - 1]} else before
  }

  /** It is the set of the values up to some point: all of them when there is no limit or they are
      fewer, and otherwise those up to where there are `limit` different ones. */
  lemma {:induction false} FirstDistinctMeans(keys: seq<Key>, limit: int) returns (n: nat)
    requires limit >= 0
    ensures n <= |keys| && FirstDistinct(keys, limit) == Elements(keys[..n])
    ensures limit == 0 || |Elements(keys)| <= limit ==> Elements(keys[..n]) == Elements(keys)
    ensures limit > 0 && |Elements(keys)| >= limit ==> |Elements(keys[..n])| == limit
  {
    if keys == [] {
      n := 0;
    } else {
      var front, last := keys[..|keys| - 1], keys[|keys| - 1];
      var m := FirstDistinctMeans(front, limit);
      assert front[..m] == keys[..m];
      OneMore(front, last);
      assert keys == front + [last] && keys[..|keys|] == keys;
      hide Elements;
      if limit == 0 || |FirstDistinct(front, limit)| < limit {
        n := |keys|;
      } else {
        n := m;
      }
    }
  }

  lemma OneMore(front: seq<Key>, last: Key)
    ensures Elements(front + [last]) == Elements(front) + {last}
    ensures |Elements(front)| <= |Elements(front + [last])| <= |Elements(front)| + 1
    ensures |Elements(front + [last])| <= |Elements(front)| ==> Elements(front + [last]) == Elements(front)
  {
    assert Elements(front + [last]) == Elements(front) + {last};
    if last in Elements(front) { assert Elements(front) + {last} == Elements(front); }
  }

  class SimpleResultSet {
    var rset: set<Key>
    const limit: int

    constructor (limit: int)
      ensures rset == {} && this.limit == limit
    {
      rset := {};
      this.limit := limit;
    }

    method Add(key: Key)
      modifies this
      ensures rset == if limit == 0 || |old(rset)| < limit then old(rset) + {key} else old(rset)
    {
      if limit == 0 || |rset| < limit {
        rset := rset + {key};
      }
    }

    /** The values in map order: any order, each once. */
    method End() returns (res: seq<Key>)
      ensures Distinct(res) && Elements(res) == rset
    {
      res := [];
      var rest := rset;
      while rest != {}
        invariant rest <= rset && Distinct(res) && Elements(res) == rset - rest
        decreases |rest|
      {
        var k :| k in rest;
        assert k !in Elements(res);
        assert Elements(res + [k]) == Elements(res) + {k};
        res := res + [k];
        rest := rest - {k};
      }
    }
  }

  /** MIN and MAX over int64 values, 0 for no value; a plain int fails the assertion. */
  method MinMax(res: seq<Key>, max: bool) returns (r: Result<int, EvalError>)
    ensures r.Ok? <==> forall i :: 0 <= i < |res| ==> res[i].Num?
    ensures r.Err? ==> r.error == BadAssertion
    ensures r.Ok? && res == [] ==> r.value == 0
    ensures r.Ok? && res != [] ==> Num(r.value) in res
    ensures r.Ok? ==> forall i :: 0 <= i < |res| ==> if max then res[i].i <= r.value else r.value <= res[i].i
  {
    if |res| == 0 {
      return Ok(0);
    }
    if !res[0].Num? {
      return Err(BadAssertion);
    }
    var best := res[0].i;
    for x := 1 to |res|
      invariant forall i :: 0 <= i < x ==> res[i].Num?
      invariant Num(best) in res
      invariant forall i :: 0 <= i < x ==> if max then res[i].i <= best else best <= res[i].i
    {
      if !res[x].Num? {
        return Err(BadAssertion);
      }
      var xval := res[x].i;
      if (if max then xval > best else xval < best) {
        best := xval;
      }
    }
    return Ok(best);
  }

  /** The positions of the statements a query selects, in order. */
  function Passing(q: Query, stmts: seq<Statement>): seq<nat>
    requires |q.namespace| > 0
  {
    if stmts == [] then []
    else
      Passing(q, stmts[..|stmts| - 1])
      + (if EvalSelects(q, stmts[|stmts| - 1]) then [|stmts| - 1] else [])
  }

  lemma {:induction false} PassingIs(q: Query, stmts: seq<Statement>)
    requires |q.namespace| > 0
    ensures forall i :: 0 <= i < |Passing(q, stmts)| ==> Passing(q, stmts)[i] < |stmts| && EvalSelects(q, stmts[Passing(q, stmts)[i]])
    ensures forall k: nat :: k < |stmts| && EvalSelects(q, stmts[k]) ==> k in Passing(q, stmts)
    ensures Distinct(Passing(q, stmts))
  {
    if stmts != [] {
      var front := stmts[..|stmts| - 1];
      PassingIs(q, front);
      var p := Passing(q, front);
      forall k: nat | k < |stmts| && EvalSelects(q, stmts[k]) ensures k in Passing(q, stmts) {
        if k < |front| { assert front[k] == stmts[k]; }
      }
      forall i | 0 <= i < |p| ensures EvalSelects(q, stmts[p[i]]) {
        assert front[p[i]] == stmts[p[i]];
      }
    }
  }

  function KeysAt(sel: string, stmts: seq<Statement>, at: seq<nat>): seq<Key>
    requires forall i :: 0 <= i < |at| ==> at[i] < |stmts|
  {
    seq(|at|, i requires 0 <= i < |at| => KeyOf(sel, at[i], stmts[at[i]]))
  }

  datatype EvalResult = Values(vals: seq<Key>) | Objects(objs: seq<map<string, Key>>)

  function ObjectOf(sels: seq<string>, at: nat, s: Statement): map<string, Key> {
    map sel | sel in sels :: KeyOf(sel, at, s)
  }

  /** `EvalQuery`: filters the statements, then collects values (each once, up to the
      limit), objects (one per statement, limit ignored) or an aggregate of the values. */
  method EvalQuery(q: Query, stmts: seq<Statement>) returns (r: Result<EvalResult, EvalError>)
    requires |q.namespace| > 0
    ensures forall i :: 0 <= i < |Passing(q, stmts)| ==> Passing(q, stmts)[i] < |stmts|
    ensures WellFormed(q) && q.selector.SimpleSelector? ==> ValuesOutcome(q, q.selector.sel, stmts, r)
    ensures WellFormed(q) && q.selector.CompoundSelector? ==> ObjectsOutcome(q, q.selector.sels, stmts, r)
    ensures WellFormed(q) && q.selector.FunctionSelector? ==>
      if Compile.Compilable(q) then
        FunctionOutcome(q.selector.fn, FirstDistinct(KeysAt(q.selector.arg, stmts, Passing(q, stmts)), q.limit), r)
      else r == Err(IllegalSelector)
  {
    PassingIs(q, stmts);
    var made := MakeFilter(q);
    if q.criteria.Some? { FilterEvals(q.criteria.value); }
    if made.Err? {
      return Err(made.error);
    }
    var cfilter := made.value;
    var nsfilter := MakeNamespaceFilter(q.namespace);

    match q.selector {
      case NoSelector => return Err(UnexpectedSelectorType);
      case FunctionSelector(fn, arg) =>
        if !Compile.CheckFunctionSelector(fn, arg) {
          return Err(IllegalSelector);
        }
        var vals := CollectValues(q, arg, stmts, nsfilter, cfilter);
        DistinctCount(vals);
        if fn == "COUNT" {
          return Ok(Values([Untyped(|vals|)]));
        }
        var m := MinMax(vals, fn == "MAX");
        if m.Err? {
          return Err(m.error);
        }
        return Ok(Values([if vals == [] then Untyped(0) else Num(m.value)]));
      case SimpleSelector(sel) =>
        if !SimpleName(sel) {
          return Err(UnexpectedSelector);
        }
        var vals := CollectValues(q, sel, stmts, nsfilter, cfilter);
        return Ok(Values(vals));
      case CompoundSelector(sels) =>
        if exists i :: 0 <= i < |sels| && !SimpleName(sels[i]) {
          return Err(UnexpectedSelector);
        }
        var rset: seq<map<string, Key>> := [];
        for x := 0 to |stmts|
          invariant ObjectsAt(sels, stmts, Passing(q, stmts[..x]), rset)
        {
          PassingStep(q, stmts, x);
          if nsfilter(stmts[x]) && cfilter(stmts[x]) {
            rset := rset + [ObjectOf(sels, x, stmts[x])];
          }
        }
        assert stmts[..|stmts|] == stmts;
        return Ok(Objects(rset));
    }
  }

  ghost predicate ObjectsAt(sels: seq<string>, stmts: seq<Statement>, at: seq<nat>, objs: seq<map<string, Key>>) {
    && |objs| == |at|
    && forall i :: 0 <= i < |at| ==> at[i] < |stmts| && objs[i] == ObjectOf(sels, at[i], stmts[at[i]])
  }

  /** The selected values, each once and up to the limit, in any order. */
  ghost predicate ValuesOutcome(q: Query, sel: string, stmts: seq<Statement>, r: Result<EvalResult, EvalError>)
    requires |q.namespace| > 0
    requires forall i :: 0 <= i < |Passing(q, stmts)| ==> Passing(q, stmts)[i] < |stmts|
  {
    && r.Ok? && r.value.Values? && Distinct(r.value.vals)
    && Elements(r.value.vals) == FirstDistinct(KeysAt(sel, stmts, Passing(q, stmts)), q.limit)
  }

  /** One object for each selected statement, in order, whatever the limit. */
  ghost predicate ObjectsOutcome(q: Query, sels: seq<string>, stmts: seq<Statement>, r: Result<EvalResult, EvalError>)
    requires |q.namespace| > 0
  {
    r.Ok? && r.value.Objects? && ObjectsAt(sels, stmts, Passing(q, stmts), r.value.objs)
  }

  /** COUNT counts the values; MIN and MAX give the extreme int64, 0 for none, and panic on plain ints. */
  ghost predicate FunctionOutcome(fn: string, vals: set<Key>, r: Result<EvalResult, EvalError>) {
    if fn == "COUNT" then r == Ok(Values([Untyped(|vals|)]))
    else if exists k :: k in vals && !k.Num? then r == Err(BadAssertion)
    else if vals == {} then r == Ok(Values([Untyped(0)]))
    else
      && r.Ok? && r.value.Values? && |r.value.vals| == 1 && r.value.vals[0] in vals
      && (forall k :: k in vals ==> if fn == "MAX" then k.i <= r.value.vals[0].i else r.value.vals[0].i <= k.i)
  }

  /** Feeds the selected statements to a simple result set. */
  method CollectValues(q: Query, sel: string, stmts: seq<Statement>, nsfilter: Filter, cfilter: Filter)
    returns (res: seq<Key>)
    requires |q.namespace| > 0
    requires forall s :: nsfilter(s) && cfilter(s) <==> EvalSelects(q, s)
    ensures forall i :: 0 <= i < |Passing(q, stmts)| ==> Passing(q, stmts)[i] < |stmts|
    ensures Distinct(res) && Elements(res) == FirstDistinct(KeysAt(sel, stmts, Passing(q, stmts)), q.limit)
  {
    PassingIs(q, stmts);
    var rs := new SimpleResultSet(q.limit);
    CollectedStart(q, sel, stmts);
    hide Collected, EvalSelects, KeyOf, Passing;
    for x := 0 to |stmts|
      invariant rs.rset == Collected(q, sel, stmts, x)
    {
      CollectedStep(q, sel, stmts, x);
      if nsfilter(stmts[x]) && cfilter(stmts[x]) {
        rs.Add(KeyOf(sel, x, stmts[x]));
      }
    }
    assert stmts[..|stmts|] == stmts;
    CollectedAll(q, sel, stmts);
    res := rs.End();
  }

  /** The values collected from the first `x` statements. */
  ghost function Collected(q: Query, sel: string, stmts: seq<Statement>, x: nat): set<Key>
    requires |q.namespace| > 0 && x <= |stmts|
  {
    PassingIs(q, stmts[..x]);
    FirstDistinct(KeysAt(sel, stmts, Passing(q, stmts[..x])), q.limit)
  }

  lemma CollectedStart(q: Query, sel: string, stmts: seq<Statement>)
    requires |q.namespace| > 0
    ensures Collected(q, sel, stmts, 0) == {}
  {
  }

  lemma CollectedAll(q: Query, sel: string, stmts: seq<Statement>)
    requires |q.namespace| > 0
    ensures forall i :: 0 <= i < |Passing(q, stmts)| ==> Passing(q, stmts)[i] < |stmts|
    ensures Collected(q, sel, stmts, |stmts|) == FirstDistinct(KeysAt(sel, stmts, Passing(q, stmts)), q.limit)
  {
    PassingIs(q, stmts);
    assert stmts[..|stmts|] == stmts;
  }

  lemma CollectedStep(q: Query, sel: string, stmts: seq<Statement>, x: nat)
    requires |q.namespace| > 0 && x < |stmts|
    ensures var before := Collected(q, sel, stmts, x);
      Collected(q, sel, stmts, x + 1) ==
        if EvalSelects(q, stmts[x]) && (q.limit == 0 || |before| < q.limit) then before + {KeyOf(sel, x, stmts[x])}
        else before
  {
    PassingStep(q, stmts, x);
    PassingIs(q, stmts[..x]);
    PassingIs(q, stmts[..x + 1]);
    hide Passing, EvalSelects, KeyOf, FirstDistinct;
    if EvalSelects(q, stmts[x]) {
      var keys := KeysAt(sel, stmts, Passing(q, stmts[..x]));
      FirstDistinctSnoc(keys, KeyOf(sel, x, stmts[x]), q.limit);
      assert KeysAt(sel, stmts, Passing(q, stmts[..x + 1])) == keys + [KeyOf(sel, x, stmts[x])];
    }
  }

  lemma PassingStep(q: Query, stmts: seq<Statement>, x: nat)
    requires |q.namespace| > 0 && x < |stmts|
    ensures var before := Passing(q, stmts[..x]);
      Passing(q, stmts[..x + 1]) == if EvalSelects(q, stmts[x]) then before + [x] else before
  {
    assert stmts[..x + 1][..x] == stmts[..x] && stmts[..x + 1][x] == stmts[x];
  }

  lemma FirstDistinctSnoc(keys: seq<Key>, k: Key, limit: int)
    ensures var before := FirstDistinct(keys, limit);
      FirstDistinct(keys + [k], limit) == if limit == 0 || |before| < limit then before + {k} else before
  {
    assert (keys + [k])[..|keys|] == keys;
  }
}
