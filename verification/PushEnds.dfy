/** The two ends of a push together: what doPush declares and sends, pushHandler reads. */
module PushEnds {
  import opened Std
  import opened Statements
  import opened Push
  import opened PushSession
  import PushQuery

  /** A session that is asked for these namespaces and has read no more than the first of these
      values: the other end of a push that declared and sent them. */
  predicate Faces(s: Session, ls: seq<Move>, declared: seq<string>, sent: seq<PushValue>) {
    s.read <= sent && forall j :: 0 <= j < |ls| && ls[j].Ask? ==> ls[j].nss == declared
  }

  ghost predicate DeclaredOf(s: Session, declared: seq<string>) {
    s.merge.Some? ==> s.declared == Elements(declared)
  }

  lemma {:induction false} DeclaredKept(c: SessionConfig, s: Session, l: Move, s': Session, declared: seq<string>)
    requires DeclaredOf(s, declared) && Moves(c, s, l, s') && (l.Ask? ==> l.nss == declared)
    ensures DeclaredOf(s', declared)
  {
  }

  lemma {:induction false} AlwaysDeclared(c: SessionConfig, ss: seq<Session>, ls: seq<Move>, declared: seq<string>, i: nat)
    requires Sessions(c, ss, ls) && i < |ss| && forall j :: 0 <= j < |ls| && ls[j].Ask? ==> ls[j].nss == declared
    ensures DeclaredOf(ss[i], declared)
  {
    hide Moves;
    if i > 0 {
      AlwaysDeclared(c, ss, ls, declared, i - 1);
      DeclaredKept(c, ss[i - 1], ls[i - 1], ss[i], declared);
    }
  }

  lemma {:induction false} ReadsOnlyMore(c: SessionConfig, ss: seq<Session>, ls: seq<Move>, i: nat)
    requires Sessions(c, ss, ls) && i < |ss|
    ensures ss[i].read <= ss[|ls|].read
    decreases |ss| - i
  {
    hide Moves;
    if i < |ls| {
      ReadsOnlyMore(c, ss, ls, i + 1);
      ReadGrows(c, ss[i], ls[i], ss[i + 1]);
    }
  }

  /** Only a value that is not a statement of a declared namespace makes the handler fail while it
      reads: a push whose statements lie in what it declared never does. */
  lemma {:induction false} ReadStaysGood(c: SessionConfig, s: Session, v: PushValue, declared: seq<string>, sent: seq<PushValue>)
    requires SessionInv(c, s) && DeclaredOf(s, declared) && s.at.Next? && s.read + [v] <= sent
    requires PushQuery.Orderly(sent) && PushQuery.Within(declared, sent)
    ensures !AfterRead(s, v).bad
  {
    assert (s.read + [v])[|s.read|] == v && sent[|s.read|] == v;
  }

  /** With the values of a push that stays within what it declared, as doPush promises without LIMIT
      or when no namespace is overtaken, the session at the other end fails only by a read failure:
      never by a statement outside the declared namespaces or a value it does not know. */
  lemma {:induction false} PushesMeet(c: SessionConfig, ss: seq<Session>, ls: seq<Move>, declared: seq<string>, sent: seq<PushValue>, i: nat)
    requires Sessions(c, ss, ls) && Faces(ss[|ls|], ls, declared, sent) && i < |ss|
    requires PushQuery.Orderly(sent) && PushQuery.Within(declared, sent)
    ensures ss[i].bad ==> exists j :: 0 <= j < i && ls[j].ReadFails?
  {
    hide Moves, SessionInv, DeclaredOf;
    if i > 0 {
      PushesMeet(c, ss, ls, declared, sent, i - 1);
      EverySession(c, ss, ls, i - 1);
      AlwaysDeclared(c, ss, ls, declared, i - 1);
      ReadsOnlyMore(c, ss, ls, i);
      if ss[i].bad && !ss[i - 1].bad {
        BecomesBad(c, ss[i - 1], ls[i - 1], ss[i]);
        if ls[i - 1].Read? { ReadStaysGood(c, ss[i - 1], ls[i - 1].v, declared, sent); }
      }
    }
  }

  lemma {:induction false} BecomesBad(c: SessionConfig, s: Session, l: Move, s': Session)
    requires Moves(c, s, l, s') && s'.bad && !s.bad
    ensures l.ReadFails? || (l.Read? && s.at.Next? && s' == AfterRead(s, l.v) && s'.read == s.read + [l.v])
  {
    hide AfterRead;
    if l.Read? { ReadGrows(c, s, l, s'); }
  }

  /** Then the end message reports an error only when the merge failed. */
  lemma {:induction false} EndFollowsMerge(c: SessionConfig, ss: seq<Session>, ls: seq<Move>, declared: seq<string>, sent: seq<PushValue>)
    requires Sessions(c, ss, ls) && Faces(ss[|ls|], ls, declared, sent)
    requires PushQuery.Orderly(sent) && PushQuery.Within(declared, sent)
    requires ss[|ls|].mres.Some? && !ss[|ls|].mres.value.failed && forall j :: 0 <= j < |ls| ==> !ls[j].ReadFails?
    ensures !EndOf(ss[|ls|]).failed
  {
    PushesMeet(c, ss, ls, declared, sent, |ls|);
  }
}
