/** The query language read by recursive descent: no tokens, no stack and no backtracking state,
    each rule returning its tree. */
module Reference {
  import opened Std
  import opened Grammar
  import opened Peg
  import opened ParseState
  import Q = Queries

  /** What a rule reads: its value, the number that overflowed last in it, and what follows. */
  datatype Out<+T> = No | Yes(v: T, err: Option<string>, rest: string)

  datatype Leaf = Leaf(name: string, op: string, val: string)

  predicate IsSpace(c: char) { c == ' ' || c == '\t' || c == '\r' || c == '\n' }

  predicate Spaced(s: string) { s != "" && IsSpace(s[0]) }

  function Skip(s: string): (r: string)
    ensures |r| <= |s| && (Spaced(s) ==> |r| < |s|) && !Spaced(r)
  {
    if Spaced(s) then Skip(s[1..]) else s
  }

  /** The length of the longest prefix of characters of the class. */
  function Span(k: Class, s: string): (n: nat)
    ensures n <= |s| && forall i :: 0 <= i < n ==> InClass(k, s[i])
    ensures n < |s| ==> !InClass(k, s[n])
  {
    if s != "" && InClass(k, s[0]) then 1 + Span(k, s[1..]) else 0
  }

  /** The overflow reported in the end: the last one. */
  function Later(earlier: Option<string>, latest: Option<string>): Option<string> {
    if latest.Some? then latest else earlier
  }

  // ---- Selectors and sources ----

  function RefSelectors(acc: seq<string>, s: string): (r: (seq<string>, string))
    ensures |r.1| <= |s|
    decreases |s|
  {
    if !("," <= s) then (acc, s) else
      match FirstWord(SELECTOR_WORDS, Skip(s[1..]), 0)
      case None => (acc, s)
      case Some(w) => RefSelectors(acc + [w], Skip(s[1..])[|w|..])
  }

  function RefCompoundSelector(s: string): Out<Q.Selector> {
    if !("(" <= s) then No else
      match FirstWord(SELECTOR_WORDS, s[1..], 0)
      case None => No
      case Some(w) =>
        var (sels, rest) := RefSelectors([w], s[1..][|w|..]);
        if ")" <= rest then Yes(Q.CompoundSelector(sels), None, rest[1..]) else No
  }

  function RefFunctionSelector(s: string): Out<Q.Selector> {
    match FirstWord(FUNCTION_WORDS, s, 0)
    case None => No
    case Some(f) =>
      var s1 := s[|f|..];
      if !("(" <= s1) then No else
        match FirstWord(SELECTOR_WORDS, s1[1..], 0)
        case None => No
        case Some(w) =>
          var s2 := s1[1..][|w|..];
          if ")" <= s2 then Yes(Q.FunctionSelector(f, w), None, s2[1..]) else No
  }

  function RefSelector(s: string): Out<Q.Selector> {
    match FirstWord(SELECTOR_WORDS, s, 0)
    case Some(w) => Yes(Q.SimpleSelector(w), None, s[|w|..])
    case None => if RefCompoundSelector(s).Yes? then RefCompoundSelector(s) else RefFunctionSelector(s)
  }

  /** The length of ('.' part)* ('.' '*')?. */
  function DotsLength(s: string): (n: nat)
    ensures n <= |s|
  {
    if !("." <= s) then 0 else
      var n := Span(NamespaceChars, s[1..]);
      if n > 0 then 1 + n + DotsLength(s[1..][n..])
      else if "*" <= s[1..] then 2 else 0
  }

  /** The length of a namespace pattern, 0 when there is none. */
  function NamespaceLength(s: string): (n: nat)
    ensures n <= |s|
  {
    var n := Span(NamespaceChars, s);
    if n > 0 then n + DotsLength(s[n..]) else if "*" <= s then 1 else 0
  }

  function RefSource(s: string): Out<string> {
    if !("FROM" <= s && Spaced(s[4..])) then No else
      var s1 := Skip(s[4..]);
      var n := NamespaceLength(s1);
      if n == 0 then No else Yes(s1[..n], None, s1[n..])
  }

  // ---- Criteria ----

  function RefLeaf(names: WordList, ops: WordList, k: Class, s: string): (o: Out<Leaf>)
    ensures o.Yes? ==> |o.rest| < |s|
  {
    match FirstWord(names, s, 0)
    case None => No
    case Some(name) =>
      var s1 := Skip(s[|name|..]);
      match FirstWord(ops, s1, 0)
      case None => No
      case Some(op) =>
        var s2 := Skip(s1[|op|..]);
        var n := Span(k, s2);
        if n == 0 then No else Yes(Leaf(name, op, s2[..n]), None, s2[n..])
  }

  const ID_WORD: WordList := ["id"]
  const PUBLISHER_WORD: WordList := ["publisher"]
  const SOURCE_WORD: WordList := ["source"]
  const WKI_WORD: WordList := ["wki"]
  const EQUALS_WORD: WordList := ["="]

  function RefValue(s: string): (o: Out<Leaf>)
    ensures o.Yes? ==> |o.rest| < |s|
  {
    var id := RefLeaf(ID_WORD, EQUALITY_WORDS, IdChars, s);
    var publisher := RefLeaf(PUBLISHER_WORD, EQUALITY_WORDS, AlnumChars, s);
    if id.Yes? then id
    else if publisher.Yes? then publisher
    else RefLeaf(SOURCE_WORD, EQUALITY_WORDS, AlnumChars, s)
  }

  function RefRange(s: string): (o: Out<Leaf>)
    ensures o.Yes? ==> |o.rest| < |s|
  {
    RefLeaf(RANGE_WORDS, COMPARISON_WORDS, Digits, s)
  }

  function RefIndex(s: string): (o: Out<Leaf>)
    ensures o.Yes? ==> |o.rest| < |s|
  {
    RefLeaf(WKI_WORD, EQUALS_WORD, WkiChars, s)
  }

  function RefSimple(s: string): (o: Out<Q.Criteria>)
    ensures o.Yes? ==> |o.rest| < |s|
  {
    match RefValue(s)
    case Yes(l, _, rest) => Yes(Q.ValueCriteria(l.name, l.op, l.val), None, rest)
    case No =>
      match RefRange(s)
      case Yes(l, _, rest) =>
        Yes(Q.RangeCriteria(l.name, l.op, NumberOf(l.val)), NumberError(l.val, None), rest)
      case No =>
        match RefIndex(s)
        case Yes(l, _, rest) => Yes(Q.IndexCriteria(l.name, l.val), None, rest)
        case No => No
  }

  function RefCompound(s: string): (o: Out<Q.Criteria>)
    ensures o.Yes? ==> |o.rest| < |s|
    decreases |s|, 0
  {
    hide RefSimple;
    if RefSimple(s).Yes? then RefSimple(s)
    else if "(" <= s then
      var o := RefMulti(s[1..]);
      if o.Yes? && ")" <= o.rest then o.(rest := o.rest[1..]) else No
    else if "NOT" <= s && Spaced(s[3..]) then
      var o := RefCompound(Skip(s[3..]));
      if o.Yes? then o.(v := Q.NegatedCriteria(o.v)) else No
    else No
  }

  function RefMulti(s: string): (o: Out<Q.Criteria>)
    ensures o.Yes? ==> |o.rest| < |s|
    decreases |s|, 2
  {
    var o := RefCompound(s);
    if o.Yes? then RefTail(o.v, o.err, o.rest) else No
  }

  /** Chains nest to the left, AND and OR alike. */
  function RefTail(left: Q.Criteria, err: Option<string>, s: string): (o: Out<Q.Criteria>)
    ensures o.Yes? && |o.rest| <= |s|
    decreases |s|, 1
  {
    match RefNext(s)
    case No => Yes(left, err, s)
    case Yes((op, right), e, rest) => RefTail(Q.CompoundCriteria(op, left, right), Later(err, e), rest)
  }

  function RefNext(s: string): (o: Out<(string, Q.Criteria)>)
    ensures o.Yes? ==> |o.rest| < |s|
    decreases |s|, 0
  {
    if !Spaced(s) then No else
      var s1 := Skip(s);
      match FirstWord(BOOLEAN_WORDS, s1, 0)
      case None => No
      case Some(op) =>
        var s2 := s1[|op|..];
        if !Spaced(s2) then No else
          var o := RefCompound(Skip(s2));
          if o.Yes? then Yes((op, o.v), o.err, o.rest) else No
  }

  function RefWhere(s: string): (o: Out<Q.Criteria>)
    ensures o.Yes? ==> |o.rest| < |s|
  {
    if "WHERE" <= s && Spaced(s[5..]) then RefMulti(Skip(s[5..])) else No
  }

  // ---- Order and limit ----

  function RefItem(s: string): (o: Out<Q.OrderSpec>)
    ensures o.Yes? ==> |o.rest| < |s|
  {
    match FirstWord(ORDER_WORDS, s, 0)
    case None => No
    case Some(w) =>
      var s1 := s[|w|..];
      var dir := if Spaced(s1) then FirstWord(DIR_WORDS, Skip(s1), 0) else None;
      match dir
      case None => Yes(Q.OrderSpec(w, ""), None, s1)
      case Some(d) => Yes(Q.OrderSpec(w, d), None, Skip(s1)[|d|..])
  }

  function RefItems(acc: seq<Q.OrderSpec>, s: string): (r: (seq<Q.OrderSpec>, string))
    ensures |r.1| <= |s|
    decreases |s|
  {
    if !("," <= s) then (acc, s) else
      match RefItem(Skip(s[1..]))
      case No => (acc, s)
      case Yes(item, _, rest) => RefItems(acc + [item], rest)
  }

  function RefOrder(s: string): (o: Out<seq<Q.OrderSpec>>)
    ensures o.Yes? ==> |o.rest| < |s|
  {
    if !("ORDER" <= s && Spaced(s[5..])) then No else
      var s1 := Skip(s[5..]);
      if !("BY" <= s1 && Spaced(s1[2..])) then No else
        match RefItem(Skip(s1[2..]))
        case No => No
        case Yes(item, _, rest) =>
          var (items, rest') := RefItems([item], rest);
          Yes(items, None, rest')
  }

  function RefLimit(s: string): (o: Out<int>)
    ensures o.Yes? ==> |o.rest| < |s|
  {
    if !("LIMIT" <= s && Spaced(s[5..])) then No else
      var s1 := Skip(s[5..]);
      var n := Span(Digits, s1);
      if n == 0 then No else Yes(NumberOf(s1[..n]), NumberError(s1[..n], None), s1[n..])
  }

  // ---- Queries ----

  /** An optional clause leaves the input alone when it cannot be read whole. */
  function Optional<T>(s: string, o: Out<T>): (Option<T>, Option<string>, string) {
    if Spaced(s) && o.Yes? then (Some(o.v), o.err, o.rest) else (None, None, s)
  }

  function OrZero(n: Option<int>): int { if n.Some? then n.value else 0 }

  function RefSelect(s: string): Out<Q.Query> {
    if !("SELECT" <= s && Spaced(s[6..])) then No else
      match RefSelector(Skip(s[6..]))
      case No => No
      case Yes(sel, _, s1) =>
        if !Spaced(s1) then No else
          match RefSource(Skip(s1))
          case No => No
          case Yes(ns, _, s2) =>
            var (where, e1, s3) := Optional(s2, RefWhere(Skip(s2)));
            var (order, _, s4) := Optional(s3, RefOrder(Skip(s3)));
            var (limit, e2, s5) := Optional(s4, RefLimit(Skip(s4)));
            Yes(Q.Query(Q.OpSelect, ns, sel, where, order, OrZero(limit)), Later(e1, e2), s5)
  }

  function RefDelete(s: string): Out<Q.Query> {
    if !("DELETE" <= s && Spaced(s[6..])) then No else
      match RefSource(Skip(s[6..]))
      case No => No
      case Yes(ns, _, s1) =>
        var (where, e1, s2) := Optional(s1, RefWhere(Skip(s1)));
        var (limit, e2, s3) := Optional(s2, RefLimit(Skip(s2)));
        Yes(Q.Query(Q.OpDelete, ns, Q.SimpleSelector("id"), where, None, OrZero(limit)), Later(e1, e2), s3)
  }

  /** A whole text: the query it reads and the number that overflowed last in it. */
  function RefQuery(s: string): Option<(Q.Query, Option<string>)> {
    match RefSelect(s)
    case Yes(q, e, rest) => if Skip(rest) == "" then Some((q, e)) else None
    case No =>
      match RefDelete(s)
      case Yes(q, e, rest) => if Skip(rest) == "" then Some((q, e)) else None
      case No => None
  }
}
