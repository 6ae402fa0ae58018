/** The SQL the query compiler emits: its lexer, its grammar with SQLite's
    precedences, and its meaning over the three tables. */
module Sql {
  import opened Std
  import opened Queries
  import opened Statements
  import opened Tables
  import Decimal

  // ---- Syntax ----

  datatype Token = Word(w: string) | Str(s: string) | Num(n: nat) | Sym(sym: string)

  datatype Table = StatementTable | EnvelopeTable | RefsTable

  datatype Field = Id | Data | Counter | Namespace | Publisher | Source | Timestamp | Wki

  datatype Column = Column(table: Option<Table>, field: Field)

  datatype Operand = Col(col: Column) | Const(n: nat)

  datatype What = Columns(distinct: bool, cols: seq<Column>) | Aggregate(fn: string, distinctArg: bool, arg: Operand)

  datatype Literal = LStr(s: string) | LNum(n: nat)

  datatype Expr =
    | Compare(col: Column, op: string, lit: Literal)
    | Like(col: Column, pat: string)
    | And(l: Expr, r: Expr)
    | Or(l: Expr, r: Expr)
    | Not(e: Expr)

  datatype Join = Join(table: Table, left: Column, right: Column)

  datatype Order = Order(col: Column, desc: bool)

  datatype Select = Select(
    what: What, base: Table, joins: seq<Join>, where: Option<Expr>, order: seq<Order>, limit: Option<nat>)

  // ---- Lexer ----

  predicate IsWordChar(c: char) { IsAlnum(c) || c == '_' }

  function WordLen(s: string): (n: nat)
    ensures n <= |s|
    ensures forall i :: 0 <= i < n ==> IsWordChar(s[i])
    ensures n < |s| ==> !IsWordChar(s[n])
  {
    if s == "" || !IsWordChar(s[0]) then 0 else 1 + WordLen(s[1..])
  }

  function QuoteLen(s: string): (n: nat)
    ensures n <= |s|
    ensures forall i :: 0 <= i < n ==> s[i] != '\''
    ensures n < |s| ==> s[n] == '\''
  {
    if s == "" || s[0] == '\'' then 0 else 1 + QuoteLen(s[1..])
  }

  function WordToken(w: string): Token {
    if Decimal.AllDigits(w) then Num(Decimal.Read(w)) else Word(w)
  }

  /** The next token (none for a space) and the characters it takes. */
  datatype Munched = Stuck | Munched(toks: seq<Token>, n: nat)

  function Munch(s: string): (m: Munched)
    requires s != ""
    ensures m.Munched? ==> 0 < m.n <= |s|
  {
    if s[0] == ' ' then Munched([], 1)
    else if IsWordChar(s[0]) then Munched([WordToken(s[..WordLen(s)])], WordLen(s))
    else if s[0] == '\'' then
      var n := QuoteLen(s[1..]);
      if n == |s| - 1 then Stuck else Munched([Str(s[1..n + 1])], n + 2)
    else if s[0] in "(),." then Munched([Sym([s[0]])], 1)
    else if s[0] in "<>!" && |s| > 1 && s[1] == '=' then Munched([Sym(s[..2])], 2)
    else if s[0] in "<>=" then Munched([Sym([s[0]])], 1)
    else Stuck
  }

  function Lex(s: string): Option<seq<Token>>
    decreases |s|
  {
    if s == "" then Some([])
    else
      var m := Munch(s);
      if m.Stuck? then None
      else
        var rest := Lex(s[m.n..]);
        if rest.Some? then Some(m.toks + rest.value) else None
  }

  // ---- Grammar ----

  function TableNamed(w: string): Option<Table> {
    if w == "Statement" then Some(StatementTable)
    else if w == "Envelope" then Some(EnvelopeTable)
    else if w == "Refs" then Some(RefsTable)
    else None
  }

  function FieldNamed(w: string): Option<Field> {
    if w == "id" then Some(Id)
    else if w == "data" then Some(Data)
    else if w == "counter" then Some(Counter)
    else if w == "namespace" then Some(Namespace)
    else if w == "publisher" then Some(Publisher)
    else if w == "source" then Some(Source)
    else if w == "timestamp" then Some(Timestamp)
    else if w == "wki" then Some(Wki)
    else None
  }

  predicate CompareOp(s: string) { s in {"=", "!=", "<", "<=", ">", ">="} }

  predicate Starts(ts: seq<Token>, t: Token) { ts != [] && ts[0] == t }

  /** column ::= [table "."] field */
  function ParseColumn(ts: seq<Token>): (r: Option<(Column, seq<Token>)>)
    ensures r.Some? ==> |r.value.1| < |ts|
  {
    if |ts| >= 3 && ts[0].Word? && ts[1] == Sym(".") && ts[2].Word?
       && TableNamed(ts[0].w).Some? && FieldNamed(ts[2].w).Some? then
      Some((Column(TableNamed(ts[0].w), FieldNamed(ts[2].w).value), ts[3..]))
    else if |ts| >= 1 && ts[0].Word? && FieldNamed(ts[0].w).Some? then
      Some((Column(None, FieldNamed(ts[0].w).value), ts[1..]))
    else None
  }

  /** or-expr ::= and-expr ("OR" and-expr)* */
  function ParseOr(ts: seq<Token>): (r: Option<(Expr, seq<Token>)>)
    ensures r.Some? ==> |r.value.1| < |ts|
    decreases |ts|, 4
  {
    match ParseAnd(ts)
    case None => None
    case Some((e, rest)) => OrTail(e, rest)
  }

  function OrTail(acc: Expr, ts: seq<Token>): (r: Option<(Expr, seq<Token>)>)
    ensures r.Some? ==> |r.value.1| <= |ts|
    decreases |ts|, 5
  {
    if Starts(ts, Word("OR")) then
      match ParseAnd(ts[1..])
      case None => None
      case Some((e, rest)) => OrTail(Or(acc, e), rest)
    else Some((acc, ts))
  }

  /** and-expr ::= not-expr ("AND" not-expr)* */
  function ParseAnd(ts: seq<Token>): (r: Option<(Expr, seq<Token>)>)
    ensures r.Some? ==> |r.value.1| < |ts|
    decreases |ts|, 2
  {
    match ParseNot(ts)
    case None => None
    case Some((e, rest)) => AndTail(e, rest)
  }

  function AndTail(acc: Expr, ts: seq<Token>): (r: Option<(Expr, seq<Token>)>)
    ensures r.Some? ==> |r.value.1| <= |ts|
    decreases |ts|, 3
  {
    if Starts(ts, Word("AND")) then
      match ParseNot(ts[1..])
      case None => None
      case Some((e, rest)) => AndTail(And(acc, e), rest)
    else Some((acc, ts))
  }

  /** not-expr ::= "NOT" not-expr | "(" or-expr ")" | comparison */
  function ParseNot(ts: seq<Token>): (r: Option<(Expr, seq<Token>)>)
    ensures r.Some? ==> |r.value.1| < |ts|
    decreases |ts|, 1
  {
    if Starts(ts, Word("NOT")) then
      match ParseNot(ts[1..])
      case None => None
      case Some((e, rest)) => Some((Not(e), rest))
    else if Starts(ts, Sym("(")) then
      match ParseOr(ts[1..])
      case None => None
      case Some((e, rest)) => if Starts(rest, Sym(")")) then Some((e, rest[1..])) else None
    else ParseCompare(ts)
  }

  function ParseCompare(ts: seq<Token>): (r: Option<(Expr, seq<Token>)>)
    ensures r.Some? ==> |r.value.1| < |ts|
  {
    match ParseColumn(ts)
    case None => None
    case Some((col, rest)) =>
      if |rest| >= 2 && rest[0].Sym? && CompareOp(rest[0].sym) && rest[1].Str? then
        Some((Compare(col, rest[0].sym, LStr(rest[1].s)), rest[2..]))
      else if |rest| >= 2 && rest[0].Sym? && CompareOp(rest[0].sym) && rest[1].Num? then
        Some((Compare(col, rest[0].sym, LNum(rest[1].n)), rest[2..]))
      else if |rest| >= 2 && rest[0] == Word("LIKE") && rest[1].Str? then
        Some((Like(col, rest[1].s), rest[2..]))
      else None
  }

  /** columns ::= column ("," column)* */
  function ParseColumns(ts: seq<Token>): (r: Option<(seq<Column>, seq<Token>)>)
    ensures r.Some? ==> |r.value.1| < |ts|
    decreases |ts|
  {
    match ParseColumn(ts)
    case None => None
    case Some((c, rest)) =>
      if Starts(rest, Sym(",")) then
        match ParseColumns(rest[1..])
        case None => None
        case Some((cs, rest')) => Some(([c] + cs, rest'))
      else Some(([c], rest))
  }

  /** what ::= fn "(" ["DISTINCT"] (column | number) ")" | ["DISTINCT"] columns */
  function ParseWhat(ts: seq<Token>): Option<(What, seq<Token>)> {
    if |ts| >= 2 && ts[0].Word? && FunctionName(ts[0].w) && ts[1] == Sym("(") then
      var dist := Starts(ts[2..], Word("DISTINCT"));
      var ts1 := if dist then ts[3..] else ts[2..];
      if |ts1| >= 2 && ts1[0].Num? && ts1[1] == Sym(")") then
        Some((Aggregate(ts[0].w, dist, Const(ts1[0].n)), ts1[2..]))
      else
        match ParseColumn(ts1)
        case None => None
        case Some((c, rest)) =>
          if Starts(rest, Sym(")")) then Some((Aggregate(ts[0].w, dist, Col(c)), rest[1..])) else None
    else
      var dist := Starts(ts, Word("DISTINCT"));
      match ParseColumns(if dist then ts[1..] else ts)
      case None => None
      case Some((cs, rest)) => Some((Columns(dist, cs), rest))
  }

  /** joins ::= ("JOIN" table "ON" column "=" column)* */
  function ParseJoins(ts: seq<Token>): Option<(seq<Join>, seq<Token>)>
    decreases |ts|
  {
    if !Starts(ts, Word("JOIN")) then Some(([], ts))
    else if |ts| >= 3 && ts[1].Word? && TableNamed(ts[1].w).Some? && ts[2] == Word("ON") then
      match ParseColumn(ts[3..])
      case None => None
      case Some((l, rest)) =>
        if Starts(rest, Sym("=")) then
          match ParseColumn(rest[1..])
          case None => None
          case Some((r, rest')) =>
            match ParseJoins(rest')
            case None => None
            case Some((js, rest'')) => Some(([Join(TableNamed(ts[1].w).value, l, r)] + js, rest''))
        else None
    else None
  }

  function ParseWhere(ts: seq<Token>): Option<(Option<Expr>, seq<Token>)> {
    if Starts(ts, Word("WHERE")) then
      match ParseOr(ts[1..])
      case None => None
      case Some((e, rest)) => Some((Some(e), rest))
    else Some((None, ts))
  }

  /** orders ::= column ["ASC" | "DESC"] ("," ...)* */
  function ParseOrders(ts: seq<Token>): Option<(seq<Order>, seq<Token>)>
    decreases |ts|
  {
    match ParseColumn(ts)
    case None => None
    case Some((c, rest)) =>
      var o := Order(c, Starts(rest, Word("DESC")));
      var rest1 := if Starts(rest, Word("DESC")) || Starts(rest, Word("ASC")) then rest[1..] else rest;
      if Starts(rest1, Sym(",")) then
        match ParseOrders(rest1[1..])
        case None => None
        case Some((os, rest2)) => Some(([o] + os, rest2))
      else Some(([o], rest1))
  }

  function ParseOrder(ts: seq<Token>): Option<(seq<Order>, seq<Token>)> {
    if Starts(ts, Word("ORDER")) && Starts(ts[1..], Word("BY")) then ParseOrders(ts[2..]) else Some(([], ts))
  }

  function ParseLimit(ts: seq<Token>): Option<(Option<nat>, seq<Token>)> {
    if Starts(ts, Word("LIMIT")) then
      if |ts| >= 2 && ts[1].Num? then Some((Some(ts[1].n), ts[2..])) else None
    else Some((None, ts))
  }

  /** Everything after "FROM". */
  function ParseTail(what: What, ts: seq<Token>): Option<Select> {
    if !(|ts| >= 1 && ts[0].Word? && TableNamed(ts[0].w).Some?) then None else
    match ParseJoins(ts[1..])
    case None => None
    case Some((joins, ts1)) =>
      match ParseWhere(ts1)
      case None => None
      case Some((where, ts2)) =>
        match ParseOrder(ts2)
        case None => None
        case Some((order, ts3)) =>
          match ParseLimit(ts3)
          case None => None
          case Some((limit, ts4)) =>
            if ts4 == [] then Some(Select(what, TableNamed(ts[0].w).value, joins, where, order, limit)) else None
  }

  function ParseTokens(ts: seq<Token>): Option<Select> {
    if !Starts(ts, Word("SELECT")) then None else
    match ParseWhat(ts[1..])
    case None => None
    case Some((what, rest)) => if Starts(rest, Word("FROM")) then ParseTail(what, rest[1..]) else None
  }

  /** What a SQL text means, if it is in the fragment. */
  function Parse(text: string): Option<Select> {
    match Lex(text)
    case None => None
    case Some(ts) => ParseTokens(ts)
  }

  // ---- Scoping ----

  function TableFields(t: Table): set<Field> {
    match t
    case StatementTable => {Id, Data}
    case EnvelopeTable => {Counter, Id, Namespace, Publisher, Source, Timestamp}
    case RefsTable => {Id, Wki}
  }

  function JoinedTables(js: seq<Join>): set<Table> {
    if js == [] then {} else {js[0].table} + JoinedTables(js[1..])
  }

  function TablesOf(sel: Select): set<Table> { {sel.base} + JoinedTables(sel.joins) }

  /** The tables a column name could refer to. */
  function Homes(c: Column, from: set<Table>): set<Table> {
    set t | t in from && c.field in TableFields(t) && (c.table.Some? ==> c.table.value == t)
  }

  predicate Scoped(c: Column, from: set<Table>) { |Homes(c, from)| == 1 }

  predicate ExprScoped(e: Expr, from: set<Table>) {
    match e
    case Compare(c, _, _) => Scoped(c, from)
    case Like(c, _) => Scoped(c, from)
    case And(l, r) => ExprScoped(l, from) && ExprScoped(r, from)
    case Or(l, r) => ExprScoped(l, from) && ExprScoped(r, from)
    case Not(e') => ExprScoped(e', from)
  }

  predicate WhatScoped(w: What, from: set<Table>) {
    match w
    case Columns(_, cols) => forall i :: 0 <= i < |cols| ==> Scoped(cols[i], from)
    case Aggregate(_, _, arg) => arg.Col? ==> Scoped(arg.col, from)
  }

  /** Every column resolves to exactly one table, joins included. */
  predicate WellScoped(sel: Select) {
    var from := TablesOf(sel);
    && |from| == 1 + |sel.joins|
    && WhatScoped(sel.what, from)
    && (forall i :: 0 <= i < |sel.joins| ==> Scoped(sel.joins[i].left, from) && Scoped(sel.joins[i].right, from))
    && (sel.where.Some? ==> ExprScoped(sel.where.value, from))
    && (forall i :: 0 <= i < |sel.order| ==> Scoped(sel.order[i].col, from))
  }

  // ---- Meaning ----

  datatype Value = Text(s: string) | Int(i: int) | Blob(stmt: Statement) | Null

  /** A row of the FROM clause: one row of each table joined so far. */
  datatype Tuple = Tuple(stmt: Option<StmtRow>, env: Option<EnvRow>, ref: Option<RefRow>)

  function StmtValue(r: StmtRow, f: Field): Option<Value> {
    match f
    case Id => Some(Text(r.id))
    case Data => Some(Blob(r.data))
    case _ => None
  }

  function EnvValue(r: EnvRow, f: Field): Option<Value> {
    match f
    case Id => Some(Text(r.id))
    case Counter => Some(Int(r.counter))
    case Namespace => Some(Text(r.namespace))
    case Publisher => Some(Text(r.publisher))
    case Source => Some(Text(r.source))
    case Timestamp => Some(Int(r.timestamp))
    case _ => None
  }

  function RefValue(r: RefRow, f: Field): Option<Value> {
    match f
    case Id => Some(Text(r.id))
    case Wki => Some(Text(r.wki))
    case _ => None
  }

  predicate Names(c: Column, t: Table) { c.table.Some? ==> c.table.value == t }

  function ColumnValue(c: Column, t: Tuple): Value {
    if t.stmt.Some? && Names(c, StatementTable) && StmtValue(t.stmt.value, c.field).Some? then
      StmtValue(t.stmt.value, c.field).value
    else if t.env.Some? && Names(c, EnvelopeTable) && EnvValue(t.env.value, c.field).Some? then
      EnvValue(t.env.value, c.field).value
    else if t.ref.Some? && Names(c, RefsTable) && RefValue(t.ref.value, c.field).Some? then
      RefValue(t.ref.value, c.field).value
    else Null
  }

  /** memcmp order on text */
  predicate TextLess(a: string, b: string) {
    b != "" && (a == "" || a[0] < b[0] || (a[0] == b[0] && TextLess(a[1..], b[1..])))
  }

  predicate IntCompare(op: string, a: int, b: int) {
    if op == "=" then a == b
    else if op == "!=" then a != b
    else if op == "<" then a < b
    else if op == "<=" then a <= b
    else if op == ">" then a > b
    else op == ">=" && a >= b
  }

  predicate TextCompare(op: string, a: string, b: string) {
    if op == "=" then a == b
    else if op == "!=" then a != b
    else if op == "<" then TextLess(a, b)
    else if op == "<=" then !TextLess(b, a)
    else if op == ">" then TextLess(b, a)
    else op == ">=" && !TextLess(a, b)
  }

  predicate CompareValue(op: string, v: Value, lit: Literal) {
    match (v, lit)
    case (Text(a), LStr(b)) => TextCompare(op, a, b)
    case (Int(a), LNum(b)) => IntCompare(op, a, b)
    case _ => false
  }

  /** ASCII case folding, as SQLite's LIKE does. */
  function Fold(c: char): char {
    if 'A' <= c <= 'Z' then c - 'A' + 'a' else c
  }

  /** SQLite LIKE: '%' matches any run, '_' any one character, letters fold case. */
  predicate LikeMatch(pat: string, s: string)
    decreases |pat| + |s|
  {
    if pat == "" then s == ""
    else if pat[0] == '%' then LikeMatch(pat[1..], s) || (s != "" && LikeMatch(pat, s[1..]))
    else s != "" && (pat[0] == '_' || Fold(pat[0]) == Fold(s[0])) && LikeMatch(pat[1..], s[1..])
  }

  predicate Holds(e: Expr, t: Tuple) {
    match e
    case Compare(c, op, lit) => CompareValue(op, ColumnValue(c, t), lit)
    case Like(c, pat) => ColumnValue(c, t).Text? && LikeMatch(pat, ColumnValue(c, t).s)
    case And(l, r) => Holds(l, t) && Holds(r, t)
    case Or(l, r) => Holds(l, t) || Holds(r, t)
    case Not(e') => !Holds(e', t)
  }

  function RowsOf(t: Table, db: Db): seq<Tuple> {
    match t
    case StatementTable => seq(|db.stmts|, i requires 0 <= i < |db.stmts| => Tuple(Some(db.stmts[i]), None, None))
    case EnvelopeTable => seq(|db.envs|, i requires 0 <= i < |db.envs| => Tuple(None, Some(db.envs[i]), None))
    case RefsTable => seq(|db.refs|, i requires 0 <= i < |db.refs| => Tuple(None, None, Some(db.refs[i])))
  }

  function Either<T>(a: Option<T>, b: Option<T>): Option<T> { if a.Some? then a else b }

  function Combine(a: Tuple, b: Tuple): Tuple {
    Tuple(Either(a.stmt, b.stmt), Either(a.env, b.env), Either(a.ref, b.ref))
  }

  predicate Joins(j: Join, t: Tuple) { ColumnValue(j.left, t) == ColumnValue(j.right, t) }

  /** One left row against the rows of the joined table, nested-loop order. */
  function JoinRow(t: Tuple, rows: seq<Tuple>, j: Join): seq<Tuple> {
    if rows == [] then []
    else
      var c := Combine(t, rows[0]);
      (if Joins(j, c) then [c] else []) + JoinRow(t, rows[1..], j)
  }

  function JoinRows(ts: seq<Tuple>, rows: seq<Tuple>, j: Join): seq<Tuple> {
    if ts == [] then [] else JoinRow(ts[0], rows, j) + JoinRows(ts[1..], rows, j)
  }

  function JoinAll(ts: seq<Tuple>, joins: seq<Join>, db: Db): seq<Tuple>
    decreases |joins|
  {
    if joins == [] then ts
    else JoinAll(JoinRows(ts, RowsOf(joins[0].table, db), joins[0]), joins[1..], db)
  }

  function FromRows(sel: Select, db: Db): seq<Tuple> {
    JoinAll(RowsOf(sel.base, db), sel.joins, db)
  }

  /** A row that passed WHERE: what it shows and what it sorts by. */
  datatype Candidate = Candidate(row: seq<Value>, keys: seq<Value>)

  function Project(what: What, t: Tuple): seq<Value> {
    match what
    case Columns(_, cols) => seq(|cols|, i requires 0 <= i < |cols| => ColumnValue(cols[i], t))
    case Aggregate(_, _, Const(n)) => [Int(n)]
    case Aggregate(_, _, Col(c)) => [ColumnValue(c, t)]
  }

  function SortKeys(order: seq<Order>, t: Tuple): seq<Value> {
    seq(|order|, i requires 0 <= i < |order| => ColumnValue(order[i].col, t))
  }

  function Candidates(sel: Select, ts: seq<Tuple>): seq<Candidate> {
    if ts == [] then []
    else
      (if sel.where.Some? && !Holds(sel.where.value, ts[0]) then []
       else [Candidate(Project(sel.what, ts[0]), SortKeys(sel.order, ts[0]))])
      + Candidates(sel, ts[1..])
  }

  predicate ValueLess(a: Value, b: Value) {
    match (a, b)
    case (Int(x), Int(y)) => x < y
    case (Text(x), Text(y)) => TextLess(x, y)
    case _ => false
  }

  /** `a` may come before `b` under ORDER BY with these directions. */
  predicate KeyLeq(desc: seq<bool>, a: seq<Value>, b: seq<Value>)
    decreases |desc|
  {
    desc == [] || a == [] || b == []
    || (if desc[0] then ValueLess(b[0], a[0]) else ValueLess(a[0], b[0]))
    || (a[0] == b[0] && KeyLeq(desc[1..], a[1..], b[1..]))
  }

  ghost predicate RowShown(cands: seq<Candidate>, perm: seq<nat>, row: seq<Value>)
    requires forall i :: 0 <= i < |perm| ==> perm[i] < |cands|
  {
    exists i :: 0 <= i < |perm| && cands[perm[i]].row == row
  }

  ghost predicate EveryRowShown(cands: seq<Candidate>, perm: seq<nat>)
    requires forall i :: 0 <= i < |perm| ==> perm[i] < |cands|
  {
    forall k :: 0 <= k < |cands| ==> RowShown(cands, perm, cands[k].row)
  }

  /** `perm` lists candidates in an order the database may deliver them: all of
      them, or with DISTINCT one for each different row. */
  ghost predicate Arranged(cands: seq<Candidate>, distinct: bool, desc: seq<bool>, perm: seq<nat>) {
    && (forall i :: 0 <= i < |perm| ==> perm[i] < |cands|)
    && Distinct(perm)
    && (!distinct ==> |perm| == |cands|)
    && (distinct ==>
          && (forall i, j :: 0 <= i < j < |perm| ==> cands[perm[i]].row != cands[perm[j]].row)
          && EveryRowShown(cands, perm))
    && (forall i, j :: 0 <= i < j < |perm| ==> KeyLeq(desc, cands[perm[i]].keys, cands[perm[j]].keys))
  }

  function Shown(cands: seq<Candidate>, perm: seq<nat>): seq<seq<Value>>
    requires forall i :: 0 <= i < |perm| ==> perm[i] < |cands|
  {
    seq(|perm|, i requires 0 <= i < |perm| => cands[perm[i]].row)
  }

  function Take<T>(s: seq<T>, limit: Option<nat>): seq<T> {
    if limit.Some? && limit.value < |s| then s[..limit.value] else s
  }

  ghost predicate Delivers(
    cands: seq<Candidate>, distinct: bool, desc: seq<bool>, limit: Option<nat>, rows: seq<seq<Value>>)
  {
    exists perm :: Arranged(cands, distinct, desc, perm) && rows == Take(Shown(cands, perm), limit)
  }

  function FirstValues(cands: seq<Candidate>): seq<Value> {
    seq(|cands|, i requires 0 <= i < |cands| => if cands[i].row != [] then cands[i].row[0] else Null)
  }

  /** The least value (or the greatest), Null when there is none. */
  function Extreme(vals: seq<Value>, greatest: bool): Value {
    if vals == [] then Null
    else
      var rest := Extreme(vals[1..], greatest);
      if rest == Null || (if greatest then ValueLess(rest, vals[0]) else ValueLess(vals[0], rest)) then vals[0]
      else rest
  }

  ghost function AggregateValue(fn: string, distinct: bool, vals: seq<Value>): Value {
    if fn == "COUNT" then Int(if distinct then |Elements(vals)| else |vals|)
    else Extreme(vals, fn == "MAX")
  }

  function Directions(order: seq<Order>): seq<bool> {
    seq(|order|, i requires 0 <= i < |order| => order[i].desc)
  }

  /** `rows` is a result the database may return from candidates `cands`. */
  ghost predicate Returns(
    what: What, desc: seq<bool>, limit: Option<nat>, cands: seq<Candidate>, rows: seq<seq<Value>>)
  {
    match what
    case Columns(distinct, _) => Delivers(cands, distinct, desc, limit, rows)
    case Aggregate(fn, distinct, _) => rows == Take([[AggregateValue(fn, distinct, FirstValues(cands))]], limit)
  }

  /** `rows` is a result SQLite may return for `sel` on `db`. */
  ghost predicate IsAnswer(sel: Select, db: Db, rows: seq<seq<Value>>) {
    Returns(sel.what, Directions(sel.order), sel.limit, Candidates(sel, FromRows(sel, db)), rows)
  }

  /** `rows` is a result SQLite may return for the text. */
  ghost predicate TextAnswers(text: string, db: Db, rows: seq<seq<Value>>) {
    Parse(text).Some? && IsAnswer(Parse(text).value, db, rows)
  }
}
