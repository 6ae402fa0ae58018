/** Statements (proto/stmt.proto) and the functions of mc/query/stmt.go over them. */
module Statements {
  import opened Std

  datatype Simple = Simple(obj: string, refs: seq<string>, tags: seq<string>, deps: seq<string>)

  /** `UnsetBody` is a body message whose oneof is unset, `NilBody` a nil body pointer. */
  datatype Body =
    | SimpleBody(simple: Simple)
    | CompoundBody(parts: seq<Simple>)
    | EnvelopeBody(stmts: seq<Statement>)
    | ArchiveBody
    | UnsetBody
    | NilBody

  datatype Statement = Statement(
    id: string,
    publisher: string,
    namespace: string,
    body: Body,
    timestamp: int,
    signature: Option<seq<bv8>>)

  /** The simple statements inside a statement, at any envelope depth, in order. */
  function Simples(stmt: Statement): seq<Simple>
    decreases stmt, 1
  {
    match stmt.body
    case SimpleBody(s) => [s]
    case CompoundBody(parts) => parts
    case EnvelopeBody(stmts) => AllSimples(stmts)
    case _ => []
  }

  function AllSimples(stmts: seq<Statement>): seq<Simple>
    decreases stmts, 0
  {
    if stmts == [] then [] else Simples(stmts[0]) + AllSimples(stmts[1..])
  }

  function SimpleRefs(ss: seq<Simple>): set<string> {
    set s, wki | s in ss && wki in s.refs :: wki
  }

  /** The well-known identifiers a statement refers to. */
  function Refs(stmt: Statement): set<string> {
    SimpleRefs(Simples(stmt))
  }

  /** The object and dependency keys a statement names. */
  function SimpleKeys(s: Simple): set<string> {
    {s.obj} + set d | d in s.deps
  }

  function KeysOf(ss: seq<Simple>): set<string> {
    set s, k | s in ss && k in SimpleKeys(s) :: k
  }

  function Keys(stmt: Statement): set<string> {
    KeysOf(Simples(stmt))
  }

  /** Every body, at any depth, is simple, compound or envelope. */
  predicate Clean(stmt: Statement)
    decreases stmt
  {
    match stmt.body
    case SimpleBody(_) => true
    case CompoundBody(_) => true
    case EnvelopeBody(stmts) => forall i :: 0 <= i < |stmts| ==> Clean(stmts[i])
    case _ => false
  }

  /** The publisher a statement comes from: for an envelope, that of its first statement. */
  function StatementSource(stmt: Statement): string
    decreases stmt
  {
    match stmt.body
    case EnvelopeBody(stmts) => if |stmts| > 0 then StatementSource(stmts[0]) else stmt.publisher
    case _ => stmt.publisher
  }

  // ---- What a statement names, body by body ----

  /** A simple statement somewhere inside has the key as its object or among its dependencies. */
  predicate Mentions(stmt: Statement, k: string)
    decreases stmt
  {
    match stmt.body
    case SimpleBody(s) => k == s.obj || k in s.deps
    case CompoundBody(parts) => exists i :: 0 <= i < |parts| && (k == parts[i].obj || k in parts[i].deps)
    case EnvelopeBody(stmts) => exists i :: 0 <= i < |stmts| && Mentions(stmts[i], k)
    case _ => false
  }

  /** A simple statement somewhere inside has the identifier among its references. */
  predicate RefersTo(stmt: Statement, wki: string)
    decreases stmt
  {
    match stmt.body
    case SimpleBody(s) => wki in s.refs
    case CompoundBody(parts) => exists i :: 0 <= i < |parts| && wki in parts[i].refs
    case EnvelopeBody(stmts) => exists i :: 0 <= i < |stmts| && RefersTo(stmts[i], wki)
    case _ => false
  }

  lemma {:induction false} InParts(parts: seq<Simple>, x: string)
    ensures x in KeysOf(parts) <==> exists i :: 0 <= i < |parts| && (x == parts[i].obj || x in parts[i].deps)
    ensures x in SimpleRefs(parts) <==> exists i :: 0 <= i < |parts| && x in parts[i].refs
  {
    if x in KeysOf(parts) {
      var s :| s in parts && x in SimpleKeys(s);
      var i :| 0 <= i < |parts| && parts[i] == s;
    }
    if i :| 0 <= i < |parts| && (x == parts[i].obj || x in parts[i].deps) {
      assert parts[i] in parts && x in SimpleKeys(parts[i]);
    }
    if x in SimpleRefs(parts) {
      var s :| s in parts && x in s.refs;
      var i :| 0 <= i < |parts| && parts[i] == s;
    }
    if i :| 0 <= i < |parts| && x in parts[i].refs {
      assert parts[i] in parts;
    }
  }

  /** The keys of a statement are those it mentions, and its references those it refers to. */
  lemma {:induction false} NamesBodyByBody(stmt: Statement, x: string)
    ensures x in Keys(stmt) <==> Mentions(stmt, x)
    ensures x in Refs(stmt) <==> RefersTo(stmt, x)
    decreases stmt, 1
  {
    match stmt.body {
      case SimpleBody(s) =>
        InParts([s], x);
        assert [s][0] == s;
      case CompoundBody(parts) => InParts(parts, x);
      case EnvelopeBody(stmts) => AllBodyByBody(stmts, x);
      case _ =>
    }
  }

  lemma {:induction false} AllBodyByBody(stmts: seq<Statement>, x: string)
    ensures x in KeysOf(AllSimples(stmts)) <==> exists i :: 0 <= i < |stmts| && Mentions(stmts[i], x)
    ensures x in SimpleRefs(AllSimples(stmts)) <==> exists i :: 0 <= i < |stmts| && RefersTo(stmts[i], x)
    decreases stmts, 0
  {
    if stmts == [] {
    } else {
      NamesBodyByBody(stmts[0], x);
      AllBodyByBody(stmts[1..], x);
      KeysOfAppend(Simples(stmts[0]), AllSimples(stmts[1..]));
      SimpleRefsAppend(Simples(stmts[0]), AllSimples(stmts[1..]));
      hide Simples, KeysOf, SimpleRefs, Mentions, RefersTo;
      forall i | 0 <= i < |stmts| ensures i > 0 ==> stmts[i] == stmts[1..][i - 1] {}
      forall i | 0 <= i < |stmts[1..]| ensures stmts[1..][i] == stmts[i + 1] {}
    }
  }

  // ---- Where a statement comes from ----

  /** From an envelope to its first statement, and so on, to a statement that is no envelope, or an
      empty one. */
  ghost predicate FirstChain(stmt: Statement, chain: seq<Statement>) {
    && chain != [] && chain[0] == stmt
    && (forall i :: 0 <= i < |chain| - 1 ==>
          chain[i].body.EnvelopeBody? && chain[i].body.stmts != [] && chain[i].body.stmts[0] == chain[i + 1])
    && var last := chain[|chain| - 1].body;
       last.EnvelopeBody? ==> last.stmts == []
  }

  /** The source of a statement is the publisher at the end of the chain of first statements. */
  lemma {:induction false} SourceEndsChain(stmt: Statement, chain: seq<Statement>)
    requires FirstChain(stmt, chain)
    ensures StatementSource(stmt) == chain[|chain| - 1].publisher
    decreases |chain|
  {
    if |chain| > 1 {
      var rest := chain[1..];
      assert rest[|rest| - 1] == chain[|chain| - 1];
      forall i | 0 <= i < |rest| - 1
        ensures rest[i].body.EnvelopeBody? && rest[i].body.stmts != [] && rest[i].body.stmts[0] == rest[i + 1]
      {
        assert rest[i] == chain[i + 1] && rest[i + 1] == chain[i + 2];
      }
      SourceEndsChain(chain[1], rest);
    }
  }

  /** There is such a chain. */
  lemma {:induction false} ChainExists(stmt: Statement) returns (chain: seq<Statement>)
    ensures FirstChain(stmt, chain)
    decreases stmt
  {
    if stmt.body.EnvelopeBody? && stmt.body.stmts != [] {
      var rest := ChainExists(stmt.body.stmts[0]);
      chain := [stmt] + rest;
    } else {
      chain := [stmt];
    }
  }

  lemma SimpleRefsAppend(a: seq<Simple>, b: seq<Simple>)
    ensures SimpleRefs(a + b) == SimpleRefs(a) + SimpleRefs(b)
  {
    forall w ensures w in SimpleRefs(a + b) <==> w in SimpleRefs(a) + SimpleRefs(b) {
      if w in SimpleRefs(a) {
        var s :| s in a && w in s.refs;
        assert s in a + b;
      }
      if w in SimpleRefs(b) {
        var s :| s in b && w in s.refs;
        assert s in a + b;
      }
    }
  }

  lemma KeysOfAppend(a: seq<Simple>, b: seq<Simple>)
    ensures KeysOf(a + b) == KeysOf(a) + KeysOf(b)
  {
    forall k ensures k in KeysOf(a + b) <==> k in KeysOf(a) + KeysOf(b) {
      if k in KeysOf(a) {
        var s :| s in a && k in SimpleKeys(s);
        assert s in a + b;
      }
      if k in KeysOf(b) {
        var s :| s in b && k in SimpleKeys(s);
        assert s in a + b;
      }
    }
  }

  lemma {:induction false} AllSimplesAppend(a: seq<Statement>, b: seq<Statement>)
    ensures AllSimples(a + b) == AllSimples(a) + AllSimples(b)
  {
    if a == [] {
      assert a + b == b;
    } else {
      var x, y, z := Simples(a[0]), AllSimples(a[1..]), AllSimples(b);
      calc {
        AllSimples(a + b);
        { assert (a + b)[0] == a[0] && (a + b)[1..] == a[1..] + b; }
        x + AllSimples(a[1..] + b);
        { AllSimplesAppend(a[1..], b); }
        x + (y + z);
        (x + y) + z;
        AllSimples(a) + z;
      }
    }
  }

  lemma AllSimplesSnoc(stmts: seq<Statement>, i: nat)
    requires i < |stmts|
    ensures AllSimples(stmts[..i + 1]) == AllSimples(stmts[..i]) + Simples(stmts[i])
  {
    AllSimplesAppend(stmts[..i], [stmts[i]]);
    assert stmts[..i + 1] == stmts[..i] + [stmts[i]];
    assert AllSimples([stmts[i]]) == Simples(stmts[i]) + AllSimples([]);
  }

  /** The map from references to `true` that mc/query/stmt.go fills, as a set. */
  class StatementRefSet {
    var refs: set<string>

    constructor ()
      ensures refs == {}
    {
      refs := {};
    }

    method MergeStatement(stmt: Statement)
      modifies this
      ensures refs == old(refs) + Refs(stmt)
      decreases stmt, 1
    {
      match stmt.body {
        case SimpleBody(s) =>
          MergeSimple(s);
        case CompoundBody(parts) =>
          MergeCompound(parts);
        case EnvelopeBody(stmts) =>
          MergeEnvelope(stmts);
        case _ =>
      }
    }

    method MergeSimple(s: Simple)
      modifies this
      ensures refs == old(refs) + SimpleRefs([s])
    {
      for i := 0 to |s.refs|
        invariant refs == old(refs) + set w | w in s.refs[..i]
      {
        refs := refs + {s.refs[i]};
        assert s.refs[..i + 1] == s.refs[..i] + [s.refs[i]];
      }
      assert s.refs[..|s.refs|] == s.refs;
      assert s in [s];
    }

    method MergeCompound(parts: seq<Simple>)
      modifies this
      ensures refs == old(refs) + SimpleRefs(parts)
    {
      for i := 0 to |parts|
        invariant refs == old(refs) + SimpleRefs(parts[..i])
      {
        MergeSimple(parts[i]);
        SimpleRefsAppend(parts[..i], [parts[i]]);
        assert parts[..i + 1] == parts[..i] + [parts[i]];
      }
      assert parts[..|parts|] == parts;
    }

    method MergeEnvelope(stmts: seq<Statement>)
      modifies this
      ensures refs == old(refs) + SimpleRefs(AllSimples(stmts))
      decreases stmts, 0
    {
      for i := 0 to |stmts|
        invariant refs == old(refs) + SimpleRefs(AllSimples(stmts[..i]))
      {
        MergeStatement(stmts[i]);
        AllSimplesSnoc(stmts, i);
        SimpleRefsAppend(AllSimples(stmts[..i]), Simples(stmts[i]));
      }
      assert stmts[..|stmts|] == stmts;
    }

    /** The references in some order, each once. */
    method List() returns (lst: seq<string>)
      ensures Distinct(lst) && Elements(lst) == refs
    {
      lst := [];
      var rest := refs;
      while rest != {}
        invariant rest <= refs
        invariant Distinct(lst) && Elements(lst) == refs - rest
        decreases |rest|
      {
        var wki :| wki in rest;
        assert wki !in Elements(lst);
        assert Elements(lst + [wki]) == Elements(lst) + {wki};
        lst := lst + [wki];
        rest := rest - {wki};
      }
    }
  }

  /** `StatementRefs`: builds the reference set of a statement. */
  method StatementRefs(stmt: Statement) returns (refs: set<string>)
    ensures refs == Refs(stmt)
  {
    var rs := new StatementRefSet();
    rs.MergeStatement(stmt);
    refs := rs.refs;
  }

  /** An independent reading of `Refs`: some simple statement inside names the identifier. */
  lemma RefsOfEnvelope(stmt: Statement, stmts: seq<Statement>, wki: string)
    requires stmt.body == EnvelopeBody(stmts)
    ensures wki in Refs(stmt) <==> exists i :: 0 <= i < |stmts| && wki in Refs(stmts[i])
  {
    AllRefs(stmts, wki);
  }

  lemma {:induction false} AllRefs(stmts: seq<Statement>, wki: string)
    ensures wki in SimpleRefs(AllSimples(stmts)) <==> exists i :: 0 <= i < |stmts| && wki in Refs(stmts[i])
  {
    if stmts != [] {
      AllRefs(stmts[1..], wki);
      SimpleRefsAppend(Simples(stmts[0]), AllSimples(stmts[1..]));
      if i :| 0 <= i < |stmts| && wki in Refs(stmts[i]) {
        if i > 0 { assert stmts[1..][i - 1] == stmts[i]; }
      }
      if i :| 0 <= i < |stmts[1..]| && wki in Refs(stmts[1..][i]) {
        assert stmts[1..][i] == stmts[i + 1];
      }
    }
  }
}
