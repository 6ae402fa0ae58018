/** Checking statements before they are stored (mcnode/node.go). */
module Verify {
  import opened Std
  import opened Statements
  import opened Tables
  import opened Batches
  import opened Datastore
  import opened Gc
  import opened MergeData
  import D = Decimal
  import Store

  /** Publisher keys and signature checks, which this program only calls: `verify` is given the
      statement without its signature, and fails when it cannot decide. */
  datatype Crypto = Crypto(publisherKey: string -> Option<Bytes>, verify: (Bytes, Statement, seq<bv8>) -> Option<bool>)

  datatype ImportError = BadStatement | BadKey | BadSignature | NotStored(e: Store.StoreError)

  predicate CheckStatement(s: Statement) {
    s.id != "" && s.publisher != "" && s.namespace != "" && s.timestamp > 0 && !s.body.NilBody? && s.signature.Some?
  }

  /** Each field is needed by itself: a statement that passes the check still passes it with another
      id, publisher, namespace, timestamp, body or signature exactly when that one is there. */
  lemma EachFieldNeeded(s: Statement, text: string, ts: int, body: Body, signature: Option<seq<bv8>>)
    requires CheckStatement(s)
    ensures CheckStatement(s.(id := text)) <==> text != ""
    ensures CheckStatement(s.(publisher := text)) <==> text != ""
    ensures CheckStatement(s.(namespace := text)) <==> text != ""
    ensures CheckStatement(s.(timestamp := ts)) <==> ts > 0
    ensures CheckStatement(s.(body := body)) <==> body != NilBody
    ensures CheckStatement(s.(signature := signature)) <==> signature != None
  {
  }

  /** A statement with all of them passes. */
  lemma CompletePasses()
    ensures CheckStatement(Statement("i", "p", "n", UnsetBody, 1, Some([])))
  {
  }

  /** The publisher's key, decoded from its name, accepts the signature over the rest of the statement. */
  ghost predicate SignedByPublisher(c: Crypto, s: Statement) {
    exists key :: c.publisherKey(s.publisher) == Some(key) && s.signature.Some?
      && c.verify(key, s.(signature := None), s.signature.value) == Some(true)
  }

  /** The checks let through exactly complete statements that their publisher signed. */
  lemma CheckedAreSigned(c: Crypto, s: Statement)
    ensures CheckStatement(s) && VerifyStatement(c, s) == Ok(true) <==> CheckStatement(s) && SignedByPublisher(c, s)
  {
  }

  /** The verdict of a key on a statement; no signature is an empty one. */
  function VerifyStatementSig(c: Crypto, key: Bytes, s: Statement): Result<bool, ImportError> {
    match c.verify(key, s.(signature := None), if s.signature.Some? then s.signature.value else [])
    case None => Err(BadSignature)
    case Some(ok) => Ok(ok)
  }

  /** Verification with the key decoded from the publisher name. */
  function VerifyStatement(c: Crypto, s: Statement): Result<bool, ImportError> {
    match c.publisherKey(s.publisher)
    case None => Err(BadKey)
    case Some(key) => VerifyStatementSig(c, key, s)
  }

  /** Every cached key is the one its publisher's name decodes to. */
  predicate CacheAgrees(c: Crypto, pkcache: map<string, Bytes>) {
    forall p :: p in pkcache ==> c.publisherKey(p) == Some(pkcache[p])
  }

  /** Verification through the key cache gives the verdict of direct decoding. */
  method VerifyStatementCacheKeys(c: Crypto, s: Statement, pkcache: map<string, Bytes>)
    returns (r: Result<bool, ImportError>, pkcache': map<string, Bytes>)
    requires CacheAgrees(c, pkcache)
    ensures r == VerifyStatement(c, s) && CacheAgrees(c, pkcache')
    ensures pkcache.Keys <= pkcache'.Keys <= pkcache.Keys + {s.publisher}
  {
    pkcache' := pkcache;
    var key: Bytes;
    if s.publisher in pkcache {
      key := pkcache[s.publisher];
    } else {
      match c.publisherKey(s.publisher) {
        case None => return Err(BadKey), pkcache;
        case Some(k) => key := k;
      }
      pkcache' := pkcache[s.publisher := key];
    }
    r := VerifyStatementSig(c, key, s);
  }

  /** What the checks of a merge let through. */
  predicate Accepts(crypto: Crypto, codec: Codec, s: Statement) {
    && CheckStatement(s) && VerifyStatement(crypto, s) == Ok(true)
    && Clean(s) && Decodes(codec, Keys(s))
  }

  /** The producer's checks of one statement, in its order; an accepted statement's keys, all
      of them, join the map. */
  method CheckAndCollect(crypto: Crypto, codec: Codec, s: Statement, pkcache: map<string, Bytes>, keys: Keys58, ghost texts: set<string>)
    returns (ok: bool, pkcache': map<string, Bytes>, keys': Keys58)
    requires CacheAgrees(crypto, pkcache) && Holds(codec, keys, texts)
    ensures ok <==> Accepts(crypto, codec, s)
    ensures ok <==> CheckStatement(s) && SignedByPublisher(crypto, s) && Clean(s) && Decodes(codec, Keys(s))
    ensures ok ==> Holds(codec, keys', texts + Keys(s))
    ensures CacheAgrees(crypto, pkcache')
  {
    hide Keys, Clean, Collected, SignedByPublisher;
    CheckedAreSigned(crypto, s);
    pkcache', keys' := pkcache, keys;
    if !CheckStatement(s) { return false, pkcache', keys'; }
    var verified: Result<bool, ImportError>;
    verified, pkcache' := VerifyStatementCacheKeys(crypto, s, pkcache);
    if verified.Err? || !verified.value { return false, pkcache', keys'; }
    CollectsExactlyClean(s);
    if Clean(s) { CleanCollects(s); }
    HeldDecode(codec, keys, texts);
    keys', ok := MergeStatementKeys(codec, s, keys, texts);
  }

  lemma HeldDecode(c: Codec, keys: Keys58, texts: set<string>)
    requires Holds(c, keys, texts)
    ensures forall named :: Decodes(c, named) <==> Decodes(c, named - texts)
  {
  }

  /** Imports statements checked one by one: a single bad one, wherever it stands, and nothing
      is stored. */
  method DoImport(c: Crypto, sdb: Store.SqlDb, stmts: seq<Statement>, pkcache: map<string, Bytes>)
    returns (r: Result<nat, ImportError>, pkcache': map<string, Bytes>)
    requires Inv(sdb.db) && CacheAgrees(c, pkcache)
    modifies sdb`db, sdb`calls
    ensures Inv(sdb.db) && CacheAgrees(c, pkcache')
    ensures (exists i :: 0 <= i < |stmts| && !(CheckStatement(stmts[i]) && VerifyStatement(c, stmts[i]) == Ok(true)))
      <==> r == Err(BadStatement) || r == Err(BadKey) || r == Err(BadSignature)
    ensures (forall i :: 0 <= i < |stmts| ==> CheckStatement(stmts[i]) && SignedByPublisher(c, stmts[i]))
      <==> r.Ok? || r.error.NotStored?
    ensures r.Err? ==> sdb.db == old(sdb.db)
    ensures r.Ok? ==> Contents(sdb.db) == Merged(Contents(old(sdb.db)), stmts)
    ensures r.Ok? ==> r.value == |Contents(sdb.db)| - |Contents(old(sdb.db))|
  {
    hide Inv, Contents, Merged, SignedByPublisher, CheckStatement;
    forall i | 0 <= i < |stmts|
      ensures CheckStatement(stmts[i]) && VerifyStatement(c, stmts[i]) == Ok(true) <==> CheckStatement(stmts[i]) && SignedByPublisher(c, stmts[i])
    {
      CheckedAreSigned(c, stmts[i]);
    }
    pkcache' := pkcache;
    for i := 0 to |stmts|
      invariant CacheAgrees(c, pkcache') && sdb.db == old(sdb.db)
      invariant forall j :: 0 <= j < i ==> CheckStatement(stmts[j]) && VerifyStatement(c, stmts[j]) == Ok(true)
    {
      if !CheckStatement(stmts[i]) { return Err(BadStatement), pkcache'; }
      var verified: Result<bool, ImportError>;
      verified, pkcache' := VerifyStatementCacheKeys(c, stmts[i], pkcache');
      if verified.Err? { return Err(verified.error), pkcache'; }
      if !verified.value { return Err(BadStatement), pkcache'; }
    }
    var merged := sdb.MergeBatch(stmts);
    match merged {
      case Err(e) => return Err(NotStored(e)), pkcache';
      case Ok(n) => return Ok(n), pkcache';
    }
  }

  // ---- New statements ----

  function StatementId(pid: string, ts: nat, counter: nat): string {
    pid + (":" + (D.Show(ts) + (":" + D.Show(counter))))
  }

  datatype MakeError = BadStatementBody | NotSigned

  class StatementMaker {
    const pid: string
    var counter: nat

    constructor (pid: string)
      ensures this.pid == pid && counter == 0
    {
      this.pid, counter := pid, 0;
    }

    method StmtCounter() returns (n: nat)
      modifies this`counter
      ensures n == old(counter) && counter == old(counter) + 1
    {
      n := counter;
      counter := counter + 1;
    }

    /** A statement with a fresh counter in its id; the counter is spent as well when the body is
        of no known kind or signing fails. */
    method MakeStatement(namespace: string, body: Body, ts: nat, sign: Statement -> Option<seq<bv8>>) returns (r: Result<Statement, MakeError>)
      modifies this`counter
      ensures counter == old(counter) + 1
      ensures r == Err(BadStatementBody) <==> body.UnsetBody? || body.NilBody?
      ensures r.Ok? ==>
        var s := r.value;
        && s.id == StatementId(pid, ts, old(counter)) && s.publisher == pid && s.namespace == namespace && s.body == body
        && s.timestamp == ts && s.signature.Some? && s.signature == sign(s.(signature := None))
      ensures r == Err(NotSigned) ==> sign(Statement(StatementId(pid, ts, old(counter)), pid, namespace, body, ts, None)).None?
    {
      var n := StmtCounter();
      var s := Statement(StatementId(pid, ts, n), pid, namespace, body, ts, None);
      if body.UnsetBody? || body.NilBody? { return Err(BadStatementBody); }
      match sign(s) {
        case None => return Err(NotSigned);
        case Some(sig) => return Ok(s.(signature := Some(sig)));
      }
    }
  }

  /** A statement made with a key that accepts what it signs passes the checks of every node that
      decodes that key from the publisher's name. */
  lemma MadeStatementsPass(c: Crypto, s: Statement, sign: Statement -> Option<seq<bv8>>, key: Bytes)
    requires s.signature.Some? && s.signature == sign(s.(signature := None))
    requires c.publisherKey(s.publisher) == Some(key)
    requires forall t, sig :: sign(t) == Some(sig) ==> c.verify(key, t, sig) == Some(true)
    requires s.publisher != "" && s.namespace != "" && s.timestamp > 0 && !s.body.NilBody? && s.id != ""
    ensures CheckStatement(s) && VerifyStatement(c, s) == Ok(true) && SignedByPublisher(c, s)
  {
  }

  lemma {:induction false} NoColonAfter(head: string, a: string, p: nat)
    requires D.AllDigits(a) && |head| < p < |head| + 1 + |a|
    ensures (head + (":" + a))[p] != ':'
  {
    assert (head + (":" + a))[p] == a[p - |head| - 1];
    assert D.IsDigit(a[p - |head| - 1]);
  }

  /** The counter starts behind the last colon. */
  lemma {:induction false} LastColon(head: string, a: string, p: nat)
    requires D.AllDigits(a) && p < |head| + 1 + |a| && (head + (":" + a))[p] == ':'
    ensures p <= |head|
  {
    hide D.AllDigits;
    if p > |head| { NoColonAfter(head, a, p); }
  }

  lemma DropHead(head: string, a: string)
    ensures var s := head + (":" + a); s[|head|] == ':' && s[|head| + 1..] == a && |s| == |head| + 1 + |a|
  {
  }

  lemma {:induction false} SameTail(head: string, a: string, head': string, b: string)
    requires head + (":" + a) == head' + (":" + b) && D.AllDigits(a) && D.AllDigits(b)
    ensures a == b
  {
    hide D.AllDigits;
    DropHead(head, a);
    DropHead(head', b);
    LastColon(head, a, |head'|);
    LastColon(head', b, |head|);
  }

  /** An id determines who made the statement, when, and with which counter: so statements made with
      different counters, at different times or by different publishers have different ids. */
  lemma {:induction false} IdsDetermine(pid: string, pid': string, ts: nat, ts': nat, m: nat, n: nat)
    requires StatementId(pid, ts, m) == StatementId(pid', ts', n)
    ensures m == n && ts == ts' && pid == pid'
  {
    hide D.Show, D.AllDigits;
    Split(pid, D.Show(ts), D.Show(m));
    Split(pid', D.Show(ts'), D.Show(n));
    var head, head' := pid + (":" + D.Show(ts)), pid' + (":" + D.Show(ts'));
    SameTail(head, D.Show(m), head', D.Show(n));
    SameHead(head, head', ":" + D.Show(m));
    SameTail(pid, D.Show(ts), pid', D.Show(ts'));
    SameHead(pid, pid', ":" + D.Show(ts));
    D.ReadShow(m);
    D.ReadShow(n);
    D.ReadShow(ts);
    D.ReadShow(ts');
  }

  lemma SameHead(a: string, b: string, tail: string)
    requires a + tail == b + tail
    ensures a == b
  {
    assert |a| == |b|;
    assert (a + tail)[..|a|] == a && (b + tail)[..|b|] == b;
  }

  /** Statements made with different counters have different ids, at whatever times they are made. */
  lemma {:induction false} CountersMakeIdsDiffer(pid: string, ts: nat, ts': nat, m: nat, n: nat)
    requires StatementId(pid, ts, m) == StatementId(pid, ts', n)
    ensures m == n
  {
    IdsDetermine(pid, pid, ts, ts', m, n);
  }

  lemma Split(pid: string, a: string, b: string)
    ensures pid + (":" + (a + (":" + b))) == pid + (":" + a) + (":" + b)
  {
  }
}
