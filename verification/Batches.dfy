/** What batches do to the stored statements, apart from the tables that hold them. */
module Batches {
  import opened Statements
  import opened Tables

  /** The stored statements, in insertion order. */
  function Contents(db: Db): (stored: seq<Statement>)
    ensures |stored| == |db.stmts| && forall i :: 0 <= i < |stored| ==> stored[i] == db.stmts[i].data
  {
    seq(|db.stmts|, i requires 0 <= i < |db.stmts| => db.stmts[i].data)
  }

  function IdsOf(stmts: seq<Statement>): set<string> {
    set s | s in stmts :: s.id
  }

  ghost predicate DistinctIds(stmts: seq<Statement>) {
    forall i, j :: 0 <= i < j < |stmts| ==> stmts[i].id != stmts[j].id
  }

  /** Merging keeps what is stored and appends what is new. */
  function MergeOne(stored: seq<Statement>, s: Statement): seq<Statement> {
    if s.id in IdsOf(stored) then stored else stored + [s]
  }

  function Merged(stored: seq<Statement>, batch: seq<Statement>): seq<Statement>
    decreases |batch|
  {
    if batch == [] then stored else Merged(MergeOne(stored, batch[0]), batch[1..])
  }

  lemma IdsOfAppend(a: seq<Statement>, b: seq<Statement>)
    ensures IdsOf(a + b) == IdsOf(a) + IdsOf(b)
  {
    forall id ensures id in IdsOf(a + b) <==> id in IdsOf(a) + IdsOf(b) {
      if id in IdsOf(a) {
        var s :| s in a && s.id == id;
        assert s in a + b;
      }
      if id in IdsOf(b) {
        var s :| s in b && s.id == id;
        assert s in a + b;
      }
    }
  }

  lemma IdsOfOne(s: Statement)
    ensures IdsOf([s]) == {s.id}
  {
    assert s in [s];
  }

  lemma {:induction false} FirstId(stmts: seq<Statement>)
    requires stmts != []
    ensures IdsOf(stmts) == {stmts[0].id} + IdsOf(stmts[1..])
    ensures DistinctIds(stmts) ==> DistinctIds(stmts[1..]) && stmts[0].id !in IdsOf(stmts[1..])
  {
    var s, rest := stmts[0], stmts[1..];
    assert stmts == [s] + rest;
    IdsOfAppend([s], rest);
    IdsOfOne(s);
    if DistinctIds(stmts) {
      forall r | r in rest ensures r.id != s.id {
        var i :| 0 <= i < |rest| && rest[i] == r;
        assert stmts[i + 1] == r;
      }
    }
  }

  lemma MergeOneIds(stored: seq<Statement>, s: Statement)
    ensures IdsOf(MergeOne(stored, s)) == IdsOf(stored) + {s.id}
    ensures DistinctIds(stored) ==> DistinctIds(MergeOne(stored, s))
  {
    IdsOfAppend(stored, [s]);
    IdsOfOne(s);
    if DistinctIds(stored) && s.id !in IdsOf(stored) {
      forall i | 0 <= i < |stored| ensures stored[i].id != s.id { assert stored[i] in stored; }
    }
  }

  // ---- Laws of merging ----

  /** Merging a concatenation is merging the parts in order. */
  lemma {:induction false} MergedConcat(stored: seq<Statement>, a: seq<Statement>, b: seq<Statement>)
    ensures Merged(stored, a + b) == Merged(Merged(stored, a), b)
    decreases |a|
  {
    if a == [] {
      assert a + b == b;
    } else {
      assert (a + b)[0] == a[0] && (a + b)[1..] == a[1..] + b;
      MergedConcat(MergeOne(stored, a[0]), a[1..], b);
    }
  }

  lemma {:induction false} MergedSnoc(stored: seq<Statement>, batch: seq<Statement>, i: nat)
    requires i < |batch|
    ensures Merged(stored, batch[..i + 1]) == MergeOne(Merged(stored, batch[..i]), batch[i])
  {
    assert batch[..i + 1] == batch[..i] + [batch[i]];
    MergedConcat(stored, batch[..i], [batch[i]]);
    assert [batch[i]][1..] == [];
  }

  /** What is stored stays, in place, and the ids are those of both sides, each once. */
  lemma {:induction false} MergedIds(stored: seq<Statement>, batch: seq<Statement>)
    ensures stored <= Merged(stored, batch)
    ensures IdsOf(Merged(stored, batch)) == IdsOf(stored) + IdsOf(batch)
    ensures DistinctIds(stored) ==> DistinctIds(Merged(stored, batch))
    decreases |batch|
  {
    if batch == [] {
      assert IdsOf(stored) + IdsOf([]) == IdsOf(stored);
    } else {
      hide IdsOf, DistinctIds;
      MergeOneIds(stored, batch[0]);
      MergedIds(MergeOne(stored, batch[0]), batch[1..]);
      FirstId(batch);
    }
  }

  lemma OneMoreId(rest: set<string>, stored: set<string>, id: string)
    ensures |({id} + rest) - stored| == |rest - (stored + {id})| + if id in stored then 0 else 1
  {
    if id in stored {
      assert ({id} + rest) - stored == rest - (stored + {id});
    } else {
      assert ({id} + rest) - stored == (rest - (stored + {id})) + {id};
    }
  }

  /** The number of statements stored by a merge is the number of new ids in the batch. */
  lemma {:induction false} MergedCount(stored: seq<Statement>, batch: seq<Statement>)
    ensures |Merged(stored, batch)| == |stored| + |IdsOf(batch) - IdsOf(stored)|
    decreases |batch|
  {
    if batch == [] {
      assert IdsOf(batch) - IdsOf(stored) == {};
    } else {
      hide IdsOf;
      var s, stored' := batch[0], MergeOne(stored, batch[0]);
      MergedCount(stored', batch[1..]);
      MergeOneIds(stored, s);
      assert batch == [s] + batch[1..];
      IdsOfAppend([s], batch[1..]);
      IdsOfOne(s);
      OneMoreId(IdsOf(batch[1..]), IdsOf(stored), s.id);
    }
  }

  /** Nothing new: merging changes nothing. */
  lemma {:induction false} MergedNothing(stored: seq<Statement>, batch: seq<Statement>)
    requires IdsOf(batch) <= IdsOf(stored)
    ensures Merged(stored, batch) == stored
    decreases |batch|
  {
    if batch != [] {
      assert batch[0] in batch;
      assert IdsOf(batch[1..]) <= IdsOf(batch);
      MergedNothing(stored, batch[1..]);
    }
  }

  /** Merging the same batch again stores nothing. */
  lemma {:induction false} MergedTwice(stored: seq<Statement>, batch: seq<Statement>)
    ensures Merged(Merged(stored, batch), batch) == Merged(stored, batch)
  {
    MergedIds(stored, batch);
    MergedNothing(Merged(stored, batch), batch);
  }

  /** Of the statements of the batch that share a new id, the first is the one stored. */
  lemma {:induction false} FirstWins(stored: seq<Statement>, batch: seq<Statement>, i: nat)
    requires i < |batch| && batch[i].id !in IdsOf(stored)
    requires forall j :: 0 <= j < i ==> batch[j].id != batch[i].id
    ensures batch[i] in Merged(stored, batch)
    decreases i
  {
    if i == 0 {
      MergedIds(MergeOne(stored, batch[0]), batch[1..]);
      assert MergeOne(stored, batch[0])[|stored|] == batch[0];
    } else {
      MergeOneIds(stored, batch[0]);
      FirstWins(MergeOne(stored, batch[0]), batch[1..], i - 1);
    }
  }

  /** A batch of new and different ids is appended whole. */
  lemma {:induction false} MergedFresh(stored: seq<Statement>, batch: seq<Statement>)
    requires DistinctIds(batch) && IdsOf(batch) !! IdsOf(stored)
    ensures Merged(stored, batch) == stored + batch
    decreases |batch|
  {
    hide IdsOf, DistinctIds;
    if batch == [] {
      assert stored + batch == stored;
    } else {
      var s, rest := batch[0], batch[1..];
      MergeOneIds(stored, s);
      FirstId(batch);
      assert IdsOf(rest) !! IdsOf(MergeOne(stored, s));
      MergedFresh(MergeOne(stored, s), rest);
      assert stored + [s] + rest == stored + batch;
    }
  }

  // ---- Deleting ----

  function Kept(stored: seq<Statement>, ids: set<string>): seq<Statement> {
    if stored == [] then []
    else (if stored[0].id in ids then [] else [stored[0]]) + Kept(stored[1..], ids)
  }

  lemma {:induction false} KeptNone(stored: seq<Statement>)
    ensures Kept(stored, {}) == stored
  {
    if stored != [] { KeptNone(stored[1..]); }
  }

  lemma {:induction false} KeptAlso(stored: seq<Statement>, ids: set<string>, id: string)
    ensures Kept(Kept(stored, ids), {id}) == Kept(stored, ids + {id})
  {
    if stored != [] {
      KeptAlso(stored[1..], ids, id);
      if stored[0].id !in ids {
        var k := [stored[0]] + Kept(stored[1..], ids);
        assert k[0] == stored[0] && k[1..] == Kept(stored[1..], ids);
      } else {
        assert [] + Kept(stored[1..], ids) == Kept(stored[1..], ids);
      }
    }
  }

  /** A statement is kept exactly when its id is not deleted. */
  lemma {:induction false} KeptMembers(stored: seq<Statement>, ids: set<string>, s: Statement)
    ensures s in Kept(stored, ids) <==> s in stored && s.id !in ids
  {
    if stored != [] {
      KeptMembers(stored[1..], ids, s);
      assert stored == [stored[0]] + stored[1..];
    }
  }

  /** Deleting ids that are all stored removes one statement for each. */
  lemma {:induction false} KeptCount(stored: seq<Statement>, ids: set<string>)
    requires DistinctIds(stored)
    ensures |stored| - |Kept(stored, ids)| == |ids * IdsOf(stored)|
  {
    if stored == [] {
      assert ids * IdsOf(stored) == {};
    } else {
      hide IdsOf, DistinctIds;
      var s, rest := stored[0], stored[1..];
      KeptCount(rest, ids);
      FirstId(stored);
      if s.id in ids {
        assert ids * IdsOf(stored) == ids * IdsOf(rest) + {s.id};
      } else {
        assert ids * IdsOf(stored) == ids * IdsOf(rest);
      }
    }
  }
}
