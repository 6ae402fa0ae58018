/** Inserting and deleting one statement keeps the three tables an exact index. */
module StoreInv {
  import opened Std
  import opened Statements
  import opened Tables
  import opened Batches

  /** The rows one statement adds: its data, its envelope, and its references in some order. */
  ghost predicate Adds(db: Db, s: Statement, db': Db) {
    && db'.stmts == db.stmts + [StmtRow(s.id, s)]
    && db'.envs == db.envs + [EnvelopeOf(s, db.next)]
    && db'.next == db.next + 1
    && AddsRefs(db.refs, s, Refs(s), db'.refs)
  }

  /** `refs'` is `refs` and then one row of `s` for each identifier. */
  ghost predicate AddsRefs(refs: seq<RefRow>, s: Statement, wkis: set<string>, refs': seq<RefRow>) {
    && refs <= refs'
    && Distinct(refs'[|refs|..])
    && forall r :: r in refs'[|refs|..] <==> r.id == s.id && r.wki in wkis
  }

  lemma AddsOneRef(refs: seq<RefRow>, s: Statement, wkis: set<string>, refs': seq<RefRow>, wki: string)
    requires AddsRefs(refs, s, wkis, refs') && wki !in wkis
    ensures AddsRefs(refs, s, wkis + {wki}, refs' + [RefRow(s.id, wki)])
  {
    var row := RefRow(s.id, wki);
    var tail := refs'[|refs|..];
    assert (refs' + [row])[|refs|..] == tail + [row];
    assert row !in tail;
  }

  lemma HasRefAppend(stmts: seq<StmtRow>, row: StmtRow, r: RefRow)
    ensures HasRef(stmts + [row], r) <==> HasRef(stmts, r) || (row.id == r.id && r.wki in Refs(row.data))
  {
    hide Refs;
    var all := stmts + [row];
    if HasRef(stmts, r) {
      var i :| 0 <= i < |stmts| && stmts[i].id == r.id && r.wki in Refs(stmts[i].data);
      assert all[i] == stmts[i];
    }
    if row.id == r.id && r.wki in Refs(row.data) { assert all[|stmts|] == row; }
  }

  lemma {:induction false} RefsStayExact(db: Db, s: Statement, refs': seq<RefRow>)
    requires Inv(db) && AddsRefs(db.refs, s, Refs(s), refs')
    requires forall i :: 0 <= i < |db.stmts| ==> db.stmts[i].id != s.id
    ensures Distinct(refs') && forall r :: r in refs' <==> HasRef(db.stmts + [StmtRow(s.id, s)], r)
  {
    hide Refs, EnvelopesMatch;
    var tail := refs'[|db.refs|..];
    assert refs' == db.refs + tail;
    forall r ensures r in refs' <==> HasRef(db.stmts + [StmtRow(s.id, s)], r) {
      HasRefAppend(db.stmts, StmtRow(s.id, s), r);
    }
    forall i, j | 0 <= i < |db.refs| && 0 <= j < |tail| ensures db.refs[i] != tail[j] {
      assert HasRef(db.stmts, db.refs[i]) && tail[j] in tail;
    }
  }

  /** A new statement's rows keep the invariant, and the contents gain just it. */
  lemma {:induction false} AddKeepsInv(db: Db, s: Statement, db': Db)
    requires Inv(db) && Adds(db, s, db')
    requires forall i :: 0 <= i < |db.stmts| ==> db.stmts[i].id != s.id
    ensures Inv(db') && Contents(db') == Contents(db) + [s]
  {
    RefsStayExact(db, s, db'.refs);
    hide HasRef, AddsRefs, Distinct, Refs;
  }

  lemma {:induction false} ContentsIds(db: Db)
    requires Inv(db)
    ensures DistinctIds(Contents(db))
    ensures forall id :: id in IdsOf(Contents(db)) <==> exists i :: 0 <= i < |db.stmts| && db.stmts[i].id == id
  {
    hide HasRef, Distinct;
    var c := Contents(db);
    forall id ensures id in IdsOf(c) <==> exists i :: 0 <= i < |db.stmts| && db.stmts[i].id == id {
      if id in IdsOf(c) {
        var s :| s in c && s.id == id;
        var i :| 0 <= i < |c| && c[i] == s;
        assert db.stmts[i].id == id;
      }
      if i :| 0 <= i < |db.stmts| && db.stmts[i].id == id { assert c[i] in c; }
    }
  }

  // ---- Deleting an id from each table ----

  function WithoutStmt(stmts: seq<StmtRow>, id: string): seq<StmtRow> {
    if stmts == [] then [] else (if stmts[0].id == id then [] else [stmts[0]]) + WithoutStmt(stmts[1..], id)
  }

  function WithoutEnv(envs: seq<EnvRow>, id: string): seq<EnvRow> {
    if envs == [] then [] else (if envs[0].id == id then [] else [envs[0]]) + WithoutEnv(envs[1..], id)
  }

  function WithoutRefs(refs: seq<RefRow>, id: string): seq<RefRow> {
    if refs == [] then [] else (if refs[0].id == id then [] else [refs[0]]) + WithoutRefs(refs[1..], id)
  }

  function Without(db: Db, id: string): Db {
    db.(stmts := WithoutStmt(db.stmts, id), envs := WithoutEnv(db.envs, id), refs := WithoutRefs(db.refs, id))
  }

  lemma {:induction false} WithoutStmtMembers(stmts: seq<StmtRow>, id: string)
    ensures forall r :: r in WithoutStmt(stmts, id) <==> r in stmts && r.id != id
  {
    if stmts != [] {
      WithoutStmtMembers(stmts[1..], id);
      assert stmts == [stmts[0]] + stmts[1..];
    }
  }

  lemma {:induction false} WithoutEnvMembers(envs: seq<EnvRow>, id: string)
    ensures forall r :: r in WithoutEnv(envs, id) <==> r in envs && r.id != id
  {
    if envs != [] {
      WithoutEnvMembers(envs[1..], id);
      assert envs == [envs[0]] + envs[1..];
    }
  }

  lemma {:induction false} WithoutRefsMembers(refs: seq<RefRow>, id: string)
    ensures forall r :: r in WithoutRefs(refs, id) <==> r in refs && r.id != id
    ensures Distinct(refs) ==> Distinct(WithoutRefs(refs, id))
  {
    if refs != [] {
      var rest := refs[1..];
      WithoutRefsMembers(rest, id);
      assert refs == [refs[0]] + rest;
      if Distinct(refs) {
        assert Distinct(rest);
        assert refs[0] !in rest by {
          forall i | 0 <= i < |rest| ensures rest[i] != refs[0] { assert rest[i] == refs[i + 1]; }
        }
        var kept := WithoutRefs(rest, id);
        forall j | 0 <= j < |kept| ensures kept[j] != refs[0] { assert kept[j] in kept; }
      }
    }
  }

  /** Statement and Envelope lose the same rows. */
  lemma {:induction false} MatchWithout(stmts: seq<StmtRow>, envs: seq<EnvRow>, next: int, id: string)
    requires EnvelopesMatch(stmts, envs, next)
    ensures EnvelopesMatch(WithoutStmt(stmts, id), WithoutEnv(envs, id), next)
    decreases |stmts|
  {
    hide StatementSource;
    if stmts != [] {
      var ss, es := stmts[1..], envs[1..];
      TailMatches(stmts, envs, next);
      MatchWithout(ss, es, next, id);
      assert envs[0] == EnvelopeOf(stmts[0].data, envs[0].counter) && stmts[0].id == envs[0].id;
      hide EnvelopeOf;
      if stmts[0].id != id {
        WithoutStmtMembers(ss, id);
        WithoutEnvMembers(es, id);
        var kept, kept' := WithoutStmt(ss, id), WithoutEnv(es, id);
        forall i | 0 <= i < |kept| ensures kept[i].id != stmts[0].id {
          assert kept[i] in ss;
          var j :| 0 <= j < |ss| && ss[j] == kept[i];
          assert stmts[j + 1] == kept[i];
        }
        forall i | 0 <= i < |kept'| ensures envs[0].counter < kept'[i].counter {
          assert kept'[i] in es;
          var j :| 0 <= j < |es| && es[j] == kept'[i];
          assert envs[j + 1] == kept'[i];
        }
        hide WithoutStmt, WithoutEnv;
        MatchCons(stmts[0], envs[0], kept, kept', next);
      }
    }
  }

  lemma TailMatches(stmts: seq<StmtRow>, envs: seq<EnvRow>, next: int)
    requires EnvelopesMatch(stmts, envs, next) && stmts != []
    ensures EnvelopesMatch(stmts[1..], envs[1..], next)
  {
    hide EnvelopeOf;
  }

  lemma MatchCons(s: StmtRow, e: EnvRow, stmts: seq<StmtRow>, envs: seq<EnvRow>, next: int)
    requires EnvelopesMatch(stmts, envs, next)
    requires s.id == s.data.id && e == EnvelopeOf(s.data, e.counter) && e.counter < next
    requires forall i :: 0 <= i < |stmts| ==> stmts[i].id != s.id
    requires forall i :: 0 <= i < |envs| ==> e.counter < envs[i].counter
    ensures EnvelopesMatch([s] + stmts, [e] + envs, next)
  {
    hide EnvelopeOf;
  }

  lemma {:induction false} DeleteKeepsInv(db: Db, id: string)
    requires Inv(db)
    ensures Inv(Without(db, id)) && Contents(Without(db, id)) == Kept(Contents(db), {id})
  {
    MatchWithout(db.stmts, db.envs, db.next, id);
    WithoutRefsMembers(db.refs, id);
    WithoutContents(db.stmts, id);
    var stmts := WithoutStmt(db.stmts, id);
    forall r ensures r in WithoutRefs(db.refs, id) <==> HasRef(stmts, r) {
      WithoutHasRef(db.stmts, id, r);
    }
    hide EnvelopesMatch, HasRef, WithoutRefs, WithoutEnv, WithoutStmt;
    ContentsAreData(Without(db, id));
    ContentsAreData(db);
  }

  function DataOf(stmts: seq<StmtRow>): seq<Statement> {
    seq(|stmts|, i requires 0 <= i < |stmts| => stmts[i].data)
  }

  lemma ContentsAreData(db: Db)
    ensures Contents(db) == DataOf(db.stmts)
  {
  }

  lemma {:induction false} WithoutContents(stmts: seq<StmtRow>, id: string)
    requires forall i :: 0 <= i < |stmts| ==> stmts[i].id == stmts[i].data.id
    ensures DataOf(WithoutStmt(stmts, id)) == Kept(DataOf(stmts), {id})
  {
    if stmts != [] {
      WithoutContents(stmts[1..], id);
      var rest := WithoutStmt(stmts[1..], id);
      assert DataOf(stmts)[1..] == DataOf(stmts[1..]);
      if stmts[0].id != id {
        assert DataOf([stmts[0]] + rest) == [stmts[0].data] + DataOf(rest);
      } else {
        assert [] + rest == rest;
      }
    }
  }

  lemma {:induction false} WithoutHasRef(stmts: seq<StmtRow>, id: string, r: RefRow)
    ensures HasRef(WithoutStmt(stmts, id), r) <==> HasRef(stmts, r) && r.id != id
  {
    hide Refs, WithoutStmt;
    WithoutStmtMembers(stmts, id);
    var kept := WithoutStmt(stmts, id);
    if HasRef(kept, r) {
      var i :| 0 <= i < |kept| && kept[i].id == r.id && r.wki in Refs(kept[i].data);
      assert kept[i] in kept;
      var j :| 0 <= j < |stmts| && stmts[j] == kept[i];
      assert HasRef(stmts, r);
    }
    if HasRef(stmts, r) && r.id != id {
      var i :| 0 <= i < |stmts| && stmts[i].id == r.id && r.wki in Refs(stmts[i].data);
      assert stmts[i] in kept;
      var j :| 0 <= j < |kept| && kept[j] == stmts[i];
    }
  }

  // ---- Every history of the store ----

  /** What a transaction can do to the tables, row groups at a time: nothing, after a rollback or a
      skipped duplicate; one statement stored under a new id; or the rows of an id deleted. */
  datatype Change = NoChange | Added(s: Statement) | Deleted(id: string)

  ghost predicate Changes(db: Db, change: Change, db': Db) {
    match change
    case NoChange => db' == db
    case Added(s) => s.id !in IdsOf(Contents(db)) && Adds(db, s, db')
    case Deleted(id) => db' == Without(db, id)
  }

  /** From empty tables, whatever is stored, skipped, rolled back and deleted, the three tables
      stay an exact index: the same ids in Statement and Envelope, each envelope the function of
      its statement, Refs exactly the statements' references, and counters growing. */
  lemma {:induction false} EveryHistoryIsExact(dbs: seq<Db>, changes: seq<Change>, i: nat)
    requires |dbs| == |changes| + 1 && i < |dbs|
    requires dbs[0].stmts == [] && dbs[0].envs == [] && dbs[0].refs == []
    requires forall k :: 0 <= k < |changes| ==> Changes(dbs[k], changes[k], dbs[k + 1])
    ensures Inv(dbs[i])
  {
    hide Adds, HasRef, Contents, IdsOf, Without;
    if i == 0 {
      EmptyIsExact(dbs[0]);
    } else {
      EveryHistoryIsExact(dbs, changes, i - 1);
      var db, db' := dbs[i - 1], dbs[i];
      assert Changes(db, changes[i - 1], db');
      ContentsIds(db);
      hide Inv;
      match changes[i - 1] {
        case NoChange =>
        case Added(s) => AddKeepsInv(db, s, db');
        case Deleted(id) => DeleteKeepsInv(db, id);
      }
    }
  }

  lemma EmptyIsExact(db: Db)
    requires db.stmts == [] && db.envs == [] && db.refs == []
    ensures Inv(db)
  {
    forall r ensures r in db.refs <==> HasRef(db.stmts, r) {}
  }
}
