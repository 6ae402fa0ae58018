/** Who may push what (mcnode/node.go), and the messages of a push session (mcnode/proto.go). */
module Push {
  import opened Std
  import opened Statements

  datatype PushValue = StmtValue(stmt: Option<Statement>) | EndValue | OtherValue

  datatype ServerMsg = AcceptMsg | RejectMsg | EndMsg(statements: nat, objects: nat, failed: bool)

  // ---- Authorization ----

  /** One rule lets a namespace through: any, those with a prefix, or that one. */
  predicate RuleAllows(rule: string, ns: string) {
    || rule == "*"
    || (|rule| >= 2 && rule[|rule| - 2..] == ".*" && rule[..|rule| - 2] <= ns)
    || rule == ns
  }

  /** "*" allows every namespace; a rule that is neither "*" nor a wildcard allows its own name alone. */
  lemma PlainRuleAdmits(rule: string, ns: string)
    ensures RuleAllows("*", ns)
    ensures rule != "*" && (forall part :: rule != part + ".*") ==> (RuleAllows(rule, ns) <==> rule == ns)
  {
    if |rule| >= 2 && rule[|rule| - 2..] == ".*" { assert rule == rule[..|rule| - 2] + ".*"; }
  }

  /** A wildcard rule allows exactly the names that begin with what stands before its dot: not only
      the parts below it, but every name that goes on after it in any way. */
  lemma WildcardAdmits(part: string, ns: string)
    ensures RuleAllows(part + ".*", ns) <==> part <= ns
    ensures RuleAllows(part + ".*", ns) && !Under(part, ns) <==> part < ns && ns[|part|] != '.'
  {
    var rule := part + ".*";
    assert |rule| == |part| + 2 && rule[|rule| - 2..] == ".*" && rule[..|rule| - 2] == part;
    assert rule[|part|] == '.' && rule[|part| + 1] == '*';
    if part < ns && ns[|part|] == '.' { assert ns[..|part| + 1] == part + "."; }
    if part + "." <= ns { assert ns[|part|] == '.'; }
  }

  /** The namespace itself, or one under it. */
  predicate Under(part: string, ns: string) {
    ns == part || part + "." <= ns
  }

  /** So `a.*` lets a peer push to `ab`. */
  lemma WildcardAdmitsMore()
    ensures RuleAllows("a.*", "ab") && !Under("a", "ab")
  {
    assert "a" + ".*" == "a.*" && "ab"[1] != '.';
    WildcardAdmits("a", "ab");
  }

  predicate Allowed(rules: seq<string>, ns: string) {
    exists i :: 0 <= i < |rules| && RuleAllows(rules[i], ns)
  }

  /** A peer with these rules may push to these namespaces. */
  predicate Admitted(rules: seq<string>, nss: seq<string>) {
    nss != [] && forall i :: 0 <= i < |nss| ==> Allowed(rules, nss[i])
  }

  class PeerAuth {
    var peers: map<string, seq<string>>

    constructor ()
      ensures peers == map[]
    {
      peers := map[];
    }

    /** The rules of a peer; one that is not known has none. */
    function RulesOf(pid: string): seq<string>
      reads this
    {
      if pid in peers then peers[pid] else []
    }

    /** From now on this peer is let in by the new rules alone, and every other peer as before. */
    method SetRules(pid: string, rules: seq<string>)
      modifies this
      ensures forall p, nss :: Admitted(RulesOf(p), nss) <==> if p == pid then Admitted(rules, nss) else old(Admitted(RulesOf(p), nss))
    {
      peers := peers[pid := rules];
      assert forall p :: RulesOf(p) == if p == pid then rules else old(RulesOf(p));
    }

    method AuthorizeAllow(rules: seq<string>, ns: string) returns (ok: bool)
      ensures ok <==> Allowed(rules, ns)
    {
      for i := 0 to |rules|
        invariant forall j :: 0 <= j < i ==> !RuleAllows(rules[j], ns)
      {
        var rule := rules[i];
        if rule == "*" {
          assert RuleAllows(rules[i], ns);
          return true;
        } else if |rule| >= 2 && rule[|rule| - 2..] == ".*" {
          if rule[..|rule| - 2] <= ns {
            assert RuleAllows(rules[i], ns);
            return true;
          }
          assert rule[..|rule| - 2] <= rule;
        } else if rule == ns {
          assert RuleAllows(rules[i], ns);
          return true;
        }
      }
      return false;
    }

    /** Lets a peer push exactly when it names namespaces, and its rules allow each of them. */
    method Authorize(pid: string, nss: seq<string>) returns (ok: bool)
      ensures ok <==> Admitted(RulesOf(pid), nss)
    {
      if |nss| == 0 { return false; }
      if pid !in peers || |peers[pid]| == 0 {
        assert !Allowed(RulesOf(pid), nss[0]);
        return false;
      }
      for i := 0 to |nss|
        invariant forall j :: 0 <= j < i ==> Allowed(peers[pid], nss[j])
      {
        var allowed := AuthorizeAllow(peers[pid], nss[i]);
        if !allowed { return false; }
      }
      return true;
    }
  }
}
