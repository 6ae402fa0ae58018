/** The three tables of mcnode/db.go and the invariant that ties them together. */
module Tables {
  import opened Std
  import opened Statements

  /** CREATE TABLE Statement (id PRIMARY KEY, data); `data` is kept unmarshalled. */
  datatype StmtRow = StmtRow(id: string, data: Statement)

  /** CREATE TABLE Envelope (counter AUTOINCREMENT, id UNIQUE, namespace, publisher, source, timestamp) */
  datatype EnvRow = EnvRow(
    counter: int, id: string, namespace: string, publisher: string, source: string, timestamp: int)

  /** CREATE TABLE Refs (id, wki) */
  datatype RefRow = RefRow(id: string, wki: string)

  /** `next` is the counter AUTOINCREMENT hands out next. */
  datatype Db = Db(stmts: seq<StmtRow>, envs: seq<EnvRow>, refs: seq<RefRow>, next: int)

  /** The Envelope row a statement determines, given its counter. */
  function EnvelopeOf(s: Statement, counter: int): EnvRow {
    EnvRow(counter, s.id, s.namespace, s.publisher, StatementSource(s), s.timestamp)
  }

  ghost predicate HasRef(stmts: seq<StmtRow>, r: RefRow) {
    exists i :: 0 <= i < |stmts| && stmts[i].id == r.id && r.wki in Refs(stmts[i].data)
  }

  /** Statement and Envelope list the same statements, in insertion order. */
  ghost predicate EnvelopesMatch(stmts: seq<StmtRow>, envs: seq<EnvRow>, next: int) {
    && |stmts| == |envs|
    && (forall i :: 0 <= i < |stmts| ==> stmts[i].id == stmts[i].data.id)
    && (forall i :: 0 <= i < |envs| ==> envs[i] == EnvelopeOf(stmts[i].data, envs[i].counter))
    && (forall i, j :: 0 <= i < j < |stmts| ==> stmts[i].id != stmts[j].id)
    && (forall i, j :: 0 <= i < j < |envs| ==> envs[i].counter < envs[j].counter)
    && (forall i :: 0 <= i < |envs| ==> envs[i].counter < next)
  }

  /** The three tables are an exact index of the stored statements. */
  ghost predicate Inv(db: Db) {
    && EnvelopesMatch(db.stmts, db.envs, db.next)
    && Distinct(db.refs)
    && (forall r :: r in db.refs <==> HasRef(db.stmts, r))
  }
}
