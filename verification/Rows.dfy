/** Reading result rows back (the row selectors of mc/query/compile.go), and the
    scoping of the SQL they are read from. */
module Rows {
  import opened Std
  import opened Queries
  import opened Statements
  import opened Tables
  import opened Compile
  import opened Sql
  import opened Meaning

  /** The values a query hands back. */
  datatype Obj = StmtObj(stmt: Statement) | BodyObj(body: Body) | StrObj(s: string) | IntObj(i: int) | MapObj(m: map<string, Obj>)

  datatype ScanError = WrongType | WrongColumnCount

  /** One column through one row selector. */
  function ScanValue(rs: RowSelector, v: Value): Result<Obj, ScanError> {
    match (rs, v)
    case (RowStatement, Blob(s)) => Ok(StmtObj(s))
    case (RowBody, Blob(s)) => Ok(BodyObj(s.body))
    case (RowString, Text(s)) => Ok(StrObj(s))
    case (RowInt, Int(i)) => Ok(IntObj(i))
    case (RowInt64, Int(i)) => Ok(IntObj(i))
    case (RowNullInt64, Int(i)) => Ok(IntObj(i))
    case (RowNullInt64, Null) => Ok(IntObj(0))
    case _ => Err(WrongType)
  }

  /** Fills an object one field at a time; a repeated field keeps its last value. */
  function ScanFields(sels: seq<string>, parts: seq<RowSelector>, row: seq<Value>, acc: map<string, Obj>)
    : Result<map<string, Obj>, ScanError>
    requires |sels| == |parts| == |row|
  {
    if sels == [] then Ok(acc)
    else
      match ScanValue(parts[0], row[0])
      case Err(e) => Err(e)
      case Ok(v) => ScanFields(sels[1..], parts[1..], row[1..], acc[sels[0] := v])
  }

  function Scan(rs: RowSelector, row: seq<Value>): Result<Obj, ScanError> {
    match rs
    case RowCompound(sels, parts) =>
      if |row| != |parts| || |sels| != |parts| then Err(WrongColumnCount)
      else
        (match ScanFields(sels, parts, row, map[])
         case Err(e) => Err(e)
         case Ok(m) => Ok(MapObj(m)))
    case _ => if |row| != 1 then Err(WrongColumnCount) else ScanValue(rs, row[0])
  }

  /** What a selector shows of a statement. */
  function FieldObj(sel: string, rec: Rec): Obj {
    var s := rec.stmt;
    if sel == "*" then StmtObj(s)
    else if sel == "body" then BodyObj(s.body)
    else if sel == "id" then StrObj(s.id)
    else if sel == "namespace" then StrObj(s.namespace)
    else if sel == "publisher" then StrObj(s.publisher)
    else if sel == "source" then StrObj(StatementSource(s))
    else if sel == "timestamp" then IntObj(s.timestamp)
    else IntObj(rec.counter)
  }

  /** The object a plain or compound selector makes of a record. */
  function ObjectFor(s: Selector, rec: Rec): Obj {
    match s
    case SimpleSelector(sel) => FieldObj(sel, rec)
    case CompoundSelector(sels) => MapObj(FieldMap(sels, rec))
    case _ => IntObj(0)
  }

  function FieldMap(sels: seq<string>, rec: Rec): map<string, Obj> {
    map sel | sel in sels :: FieldObj(sel, rec)
  }

  lemma ScanFieldValue(sel: string, rec: Rec)
    requires SimpleName(sel)
    ensures SimpleRowSelector(sel).Some?
    ensures ScanValue(SimpleRowSelector(sel).value, FieldValue(sel, rec)) == Ok(FieldObj(sel, rec))
  {
  }

  lemma {:induction false} ScanFieldsOf(sels: seq<string>, parts: seq<RowSelector>, row: seq<Value>, acc: map<string, Obj>, rec: Rec)
    requires |sels| == |parts| == |row|
    requires forall i :: 0 <= i < |sels| ==> SimpleName(sels[i]) && Some(parts[i]) == SimpleRowSelector(sels[i])
    requires forall i :: 0 <= i < |sels| ==> row[i] == FieldValue(sels[i], rec)
    ensures ScanFields(sels, parts, row, acc) == Ok(acc + FieldMap(sels, rec))
    decreases |sels|
  {
    if sels == [] {
      assert acc + FieldMap(sels, rec) == acc;
    } else {
      ScanFieldValue(sels[0], rec);
      hide FieldObj, ScanValue, FieldValue, SimpleRowSelector;
      var acc' := acc[sels[0] := FieldObj(sels[0], rec)];
      ScanFieldsOf(sels[1..], parts[1..], row[1..], acc', rec);
      FieldMapCons(sels, rec, acc);
    }
  }

  lemma FieldMapCons(sels: seq<string>, rec: Rec, acc: map<string, Obj>)
    requires sels != []
    ensures acc[sels[0] := FieldObj(sels[0], rec)] + FieldMap(sels[1..], rec) == acc + FieldMap(sels, rec)
  {
    hide FieldObj;
    assert sels == [sels[0]] + sels[1..];
  }

  /** The compiled row selector reads a selected row as the selector's object: the
      select list and the selector's slots agree in number, order and type. */
  lemma ScanReadsSelector(q: Query, rec: Rec)
    requires WellFormed(q) && !q.selector.FunctionSelector?
    ensures CompileQueryRowSelector(q).Ok?
    ensures Scan(CompileQueryRowSelector(q).value, RowFor(q.selector, rec)) == Ok(ObjectFor(q.selector, rec))
  {
    match q.selector {
      case SimpleSelector(sel) => ScanFieldValue(sel, rec);
      case CompoundSelector(sels) =>
        var rs := CompileQueryRowSelector(q).value;
        ScanFieldsOf(sels, rs.parts, RowFor(q.selector, rec), map[], rec);
        assert map[] + FieldMap(sels, rec) == FieldMap(sels, rec);
    }
  }

  /** Objects read from rows, in order. */
  ghost predicate ScanAll(rs: RowSelector, rows: seq<seq<Value>>, objs: seq<Obj>) {
    |objs| == |rows| && forall i :: 0 <= i < |rows| ==> Scan(rs, rows[i]) == Ok(objs[i])
  }

  /** The records a query selects. */
  function Chosen(q: Query, recs: seq<Rec>): seq<Rec> {
    if recs == [] then [] else (if Selects(q, recs[0]) then [recs[0]] else []) + Chosen(q, recs[1..])
  }

  lemma {:induction false} SelectedAreChosen(q: Query, recs: seq<Rec>)
    ensures |Selected(q, recs)| == |Chosen(q, recs)|
    ensures forall i :: 0 <= i < |Chosen(q, recs)| ==>
              Selected(q, recs)[i] == Candidate(RowFor(q.selector, Chosen(q, recs)[i]), SortRow(q.order, Chosen(q, recs)[i]))
    ensures forall i :: 0 <= i < |Chosen(q, recs)| ==> Chosen(q, recs)[i] in recs && Selects(q, Chosen(q, recs)[i])
    ensures forall r :: r in recs && Selects(q, r) ==> r in Chosen(q, recs)
  {
    if recs != [] { SelectedAreChosen(q, recs[1..]); }
  }

  /** Every answer row is the row of some candidate. */
  lemma DeliveredRow(cands: seq<Candidate>, distinct: bool, desc: seq<bool>, limit: Option<nat>, rows: seq<seq<Value>>, i: nat)
    returns (k: nat)
    requires Delivers(cands, distinct, desc, limit, rows) && i < |rows|
    ensures k < |cands| && rows[i] == cands[k].row
  {
    hide KeyLeq, Distinct;
    var perm :| Arranged(cands, distinct, desc, perm) && rows == Take(Shown(cands, perm), limit);
    k := perm[i];
  }

  /** Every answer row reads back without error, as the object of a selected record. */
  lemma AnswersScan(q: Query, db: Db, rows: seq<seq<Value>>, i: nat) returns (rec: Rec)
    requires Inv(db) && WellFormed(q) && !q.selector.FunctionSelector?
    requires Means(q, db, rows) && i < |rows|
    ensures CompileQueryRowSelector(q).Ok?
    ensures rec in Universe(db, HasIndex(q)) && Selects(q, rec) && rows[i] == RowFor(q.selector, rec)
    ensures Scan(CompileQueryRowSelector(q).value, rows[i]) == Ok(ObjectFor(q.selector, rec))
  {
    var recs := Universe(db, HasIndex(q));
    SelectedAreChosen(q, recs);
    var limit := if q.limit > 0 then Some(q.limit) else None;
    var k := DeliveredRow(Selected(q, recs), DistinctSelector(q.selector), OrderDirs(q.order), limit, rows, i);
    rec := Chosen(q, recs)[k];
    ScanReadsSelector(q, rec);
  }

  // ---- Aggregates ----

  /** The texts a name shows of the records, one for each. */
  function Texts(arg: string, recs: seq<Rec>): (texts: seq<string>)
    ensures |texts| == |recs|
  {
    seq(|recs|, i requires 0 <= i < |recs| =>
      if arg == "namespace" then recs[i].stmt.namespace
      else if arg == "publisher" then recs[i].stmt.publisher
      else StatementSource(recs[i].stmt))
  }

  function NumberIn(arg: string, rec: Rec): int { if arg == "timestamp" then rec.stmt.timestamp else rec.counter }

  /** What COUNT, MIN and MAX of the selected records are: the number of records, or of different
      names; the least or greatest number, 0 when there is none. */
  ghost predicate AggregateIs(fn: string, arg: string, recs: seq<Rec>, obj: Obj) {
    && obj.IntObj?
    && (fn == "COUNT" ==>
          obj.i == if arg in {"namespace", "publisher", "source"} then |Elements(Texts(arg, recs))| else |recs|)
    && (fn in {"MIN", "MAX"} && recs == [] ==> obj.i == 0)
    && (fn in {"MIN", "MAX"} && recs != [] ==> exists i :: 0 <= i < |recs| && obj.i == NumberIn(arg, recs[i]))
    && (fn == "MIN" ==> forall i :: 0 <= i < |recs| ==> obj.i <= NumberIn(arg, recs[i]))
    && (fn == "MAX" ==> forall i :: 0 <= i < |recs| ==> NumberIn(arg, recs[i]) <= obj.i)
  }

  lemma {:induction false} ArgumentsOf(q: Query, recs: seq<Rec>)
    requires q.selector.FunctionSelector?
    ensures var vals := FirstValues(Selected(q, recs));
      |vals| == |Chosen(q, recs)| && forall i :: 0 <= i < |vals| ==>
        vals[i] == if q.selector.arg in {"*", "body"} then Int(1) else FieldValue(q.selector.arg, Chosen(q, recs)[i])
  {
    SelectedAreChosen(q, recs);
  }

  lemma {:induction false} DifferentTexts(arg: string, recs: seq<Rec>, vals: seq<Value>)
    requires arg in {"namespace", "publisher", "source"} && |vals| == |recs|
    requires forall i :: 0 <= i < |vals| ==> vals[i] == FieldValue(arg, recs[i])
    ensures |Elements(vals)| == |Elements(Texts(arg, recs))|
  {
    var texts := Texts(arg, recs);
    forall i | 0 <= i < |vals| ensures vals[i] == Text(texts[i]) {}
    SameRepeats(vals, texts);
  }

  lemma {:induction false} ExtremeBounds(vals: seq<Value>, greatest: bool)
    requires vals != [] && forall i :: 0 <= i < |vals| ==> vals[i].Int?
    ensures Extreme(vals, greatest).Int? && Extreme(vals, greatest) in vals
    ensures forall i :: 0 <= i < |vals| ==> if greatest then vals[i].i <= Extreme(vals, greatest).i else Extreme(vals, greatest).i <= vals[i].i
  {
    if |vals| > 1 {
      var rest := vals[1..];
      ExtremeBounds(rest, greatest);
      forall i | 0 < i < |vals| ensures vals[i] == rest[i - 1] {}
    } else {
      assert vals[1..] == [];
    }
  }

  /** The row of an aggregate reads back as the number it is. */
  lemma {:induction false} AggregateScans(q: Query, db: Db, rows: seq<seq<Value>>)
    requires Inv(db) && WellFormed(q) && Compilable(q) && q.selector.FunctionSelector? && Means(q, db, rows)
    ensures CompileQueryRowSelector(q).Ok? && |rows| == 1 && Scan(CompileQueryRowSelector(q).value, rows[0]).Ok?
    ensures AggregateIs(q.selector.fn, q.selector.arg, Chosen(q, Universe(db, HasIndex(q))), Scan(CompileQueryRowSelector(q).value, rows[0]).value)
  {
    assert |db.stmts| == |db.envs|;
    var all, fn, arg := Universe(db, HasIndex(q)), q.selector.fn, q.selector.arg;
    var recs, vals := Chosen(q, all), FirstValues(Selected(q, all));
    ArgumentsOf(q, all);
    assert rows == [[AggregateValue(fn, DistinctName(arg), vals)]];
    hide Inv, Universe, HasIndex, Selected, FirstValues, WellFormedCriteria, WellFormedNamespace, Chosen, Means;
    if fn == "COUNT" {
      if arg in {"namespace", "publisher", "source"} { DifferentTexts(arg, recs, vals); }
    } else {
      ExtremeReads(fn, arg, recs, vals);
    }
  }

  lemma {:induction false} ExtremeReads(fn: string, arg: string, recs: seq<Rec>, vals: seq<Value>)
    requires fn in {"MIN", "MAX"} && arg in {"timestamp", "counter"} && |vals| == |recs|
    requires forall i :: 0 <= i < |vals| ==> vals[i] == FieldValue(arg, recs[i])
    ensures var o := ScanValue(RowNullInt64, Extreme(vals, fn == "MAX")); o.Ok? && AggregateIs(fn, arg, recs, o.value)
  {
    forall i | 0 <= i < |vals| ensures vals[i] == Int(NumberIn(arg, recs[i])) {}
    if vals != [] {
      ExtremeBounds(vals, fn == "MAX");
      var i :| 0 <= i < |vals| && vals[i] == Extreme(vals, fn == "MAX");
      assert Extreme(vals, fn == "MAX").i == NumberIn(arg, recs[i]);
      hide Extreme;
    }
  }

  // ---- Scoping ----

  lemma ScopedColumn(c: Column, from: set<Table>, t: Table)
    requires t in from && c.field in TableFields(t)
    requires c.table == Some(t) || (c.table == None && forall u :: u in from && c.field in TableFields(u) ==> u == t)
    ensures Scoped(c, from)
  {
    assert Homes(c, from) == {t};
  }

  lemma PlanColumnScoped(b: Base, sel: string, index: bool)
    requires SimpleName(sel) && Available(b, sel) && (b == StatementAlone ==> !index)
    ensures Scoped(PlanColumn(sel, PlanJoins(b, index) != []), PlanTables(b, index))
  {
    var t := if sel in {"*", "body"} || b == StatementAlone then StatementTable else EnvelopeTable;
    ScopedColumn(PlanColumn(sel, PlanJoins(b, index) != []), PlanTables(b, index), t);
  }

  function PlanTables(b: Base, index: bool): set<Table> {
    (match b
     case StatementAlone => {StatementTable}
     case EnvelopeAlone => {EnvelopeTable}
     case Both => {StatementTable, EnvelopeTable})
    + (if index then {RefsTable} else {})
  }

  lemma {:induction false} CriteriaScoped(b: Base, c: Criteria, index: bool)
    requires WellFormedCriteria(c) && CriteriaAvailable(b, c) && (b == StatementAlone ==> !index)
    requires IsIndexCriteria(c) ==> index
    ensures ExprScoped(PlanCriteria(c, PlanJoins(b, index) != []), PlanTables(b, index))
  {
    match c {
      case ValueCriteria(sel, _, _) => PlanColumnScoped(b, sel, index);
      case RangeCriteria(sel, _, _) =>
        PlanColumnScoped(b, sel, index);
        assert PlanColumn(sel, false) == PlanColumn(sel, PlanJoins(b, index) != []);
      case IndexCriteria(_, _) => ScopedColumn(Column(None, Wki), PlanTables(b, index), RefsTable);
      case CompoundCriteria(_, l, r) =>
        CriteriaScoped(b, l, index);
        CriteriaScoped(b, r, index);
      case NegatedCriteria(e) => CriteriaScoped(b, e, index);
    }
  }

  lemma JoinsScoped(b: Base, index: bool)
    requires b == StatementAlone ==> !index
    ensures forall i :: 0 <= i < |PlanJoins(b, index)| ==>
      && Scoped(PlanJoins(b, index)[i].left, PlanTables(b, index))
      && Scoped(PlanJoins(b, index)[i].right, PlanTables(b, index))
  {
    var from := PlanTables(b, index);
    if b == Both {
      ScopedColumn(STATEMENT_ID, from, StatementTable);
    }
    if b == Both || index {
      ScopedColumn(ENVELOPE_ID, from, EnvelopeTable);
    }
    if index {
      ScopedColumn(REFS_ID, from, RefsTable);
    }
    hide Scoped;
  }

  lemma JoinedOne(j: Join)
    ensures JoinedTables([j]) == {j.table}
  {
    assert [j][1..] == [];
  }

  lemma JoinedTwo(j: Join, k: Join)
    ensures JoinedTables([j, k]) == {j.table, k.table}
  {
    assert [j, k][1..] == [k];
    JoinedOne(k);
  }

  lemma PlanTablesJoined(b: Base, index: bool)
    requires b == StatementAlone ==> !index
    ensures |PlanTables(b, index)| == 1 + |PlanJoins(b, index)|
    ensures {if b == EnvelopeAlone then EnvelopeTable else StatementTable} + JoinedTables(PlanJoins(b, index))
         == PlanTables(b, index)
  {
    var e := Join(EnvelopeTable, STATEMENT_ID, ENVELOPE_ID);
    var r := Join(RefsTable, ENVELOPE_ID, REFS_ID);
    JoinedOne(e);
    JoinedOne(r);
    JoinedTwo(e, r);
    var js := PlanJoins(b, index);
    assert js == if b == Both then (if index then [e, r] else [e]) else if index then [r] else [];
    assert |{StatementTable, EnvelopeTable, RefsTable}| == 3;
  }

  lemma PlanWhatScoped(q: Query, b: Base)
    requires WellFormed(q) && Fits(b, q) && (b == StatementAlone ==> !HasIndex(q))
    ensures WhatScoped(PlanWhat(q.selector, PlanJoins(b, HasIndex(q)) != []), PlanTables(b, HasIndex(q)))
  {
    hide Scoped, PlanColumn, PlanTables, PlanJoins, HasIndex;
    var index := HasIndex(q);
    match q.selector {
      case SimpleSelector(sel) => PlanColumnScoped(b, sel, index);
      case CompoundSelector(sels) =>
        forall i | 0 <= i < |sels| ensures Scoped(PlanColumn(sels[i], PlanJoins(b, index) != []), PlanTables(b, index)) {
          PlanColumnScoped(b, sels[i], index);
        }
      case FunctionSelector(_, arg) =>
        if arg !in {"*", "body"} && EnvelopeName(arg) { PlanColumnScoped(b, arg, index); }
    }
  }

  lemma OrderScoped(q: Query, b: Base)
    requires WellFormed(q) && Fits(b, q) && (b == StatementAlone ==> !HasIndex(q))
    ensures var order := PlanOrder(q, PlanJoins(b, HasIndex(q)) != []);
      forall i :: 0 <= i < |order| ==> Scoped(order[i].col, PlanTables(b, HasIndex(q)))
  {
    if q.order.Some? {
      var o := q.order.value;
      var join := PlanJoins(b, HasIndex(q)) != [];
      forall i | 0 <= i < |o| ensures Scoped(PlanColumn(o[i].sel, join), PlanTables(b, HasIndex(q))) {
        PlanColumnScoped(b, o[i].sel, HasIndex(q));
      }
    }
  }

  /** Every column of the compiled SELECT, joins included, names exactly one table. */
  lemma CompiledIsWellScoped(q: Query)
    requires WellFormed(q) && Compilable(q)
    ensures WellScoped(Plan(q))
  {
    var b, index := BaseOf(q), HasIndex(q);
    BaseFits(q);
    JoinsScoped(b, index);
    PlanTablesJoined(b, index);
    PlanWhatScoped(q, b);
    WhereScoped(q, b);
    OrderScoped(q, b);
    hide Scoped, WhatScoped, ExprScoped, PlanWhere, PlanWhat, PlanOrder, PlanTables, PlanJoins;
    assert TablesOf(Plan(q)) == PlanTables(b, index);
  }

  lemma WhereScoped(q: Query, b: Base)
    requires WellFormed(q) && Fits(b, q) && (b == StatementAlone ==> !HasIndex(q))
    ensures var join := PlanJoins(b, HasIndex(q)) != [];
      PlanWhere(q, join).Some? ==> ExprScoped(PlanWhere(q, join).value, PlanTables(b, HasIndex(q)))
  {
    if q.namespace != "*" {
      ScopedColumn(Column(None, Namespace), PlanTables(b, HasIndex(q)), EnvelopeTable);
    }
    if q.criteria.Some? {
      FitsCriteria(b, q);
      CriteriaScoped(b, q.criteria.value, HasIndex(q));
    }
  }
}
