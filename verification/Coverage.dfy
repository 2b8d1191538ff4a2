/** Who reaches a tool, as the review page tells it (internal/admin/review.go,
    CallableBy, ClearableBy, ReachableBy and grantReason). */
module Coverage {
  import opened Access
  import opened Sorting

  datatype Reason = ByTools | ByWildcard(backend: string) | ByName(backend: string) | Granted

  datatype RoleCoverage = RoleCoverage(role: string, how: Reason, nonRead: bool)

  /** The line of the file a reader is shown is one that decides. */
  predicate Explains(how: Reason, r: Role, name: string) {
    match how
    case ByTools => name in r.tools
    case ByWildcard(b) =>
      name !in r.tools && b in r.grants && Cuts(name, b) && Rest(name, b) != "" && GRANT_ALL in r.grants[b]
    case ByName(b) =>
      name !in r.tools && b in r.grants && Cuts(name, b) && Rest(name, b) != "" && GRANT_ALL !in r.grants[b]
      && Rest(name, b) in r.grants[b]
    case Granted => false
  }

  /** What explains a grant grants it. */
  lemma ExplainedIsAllowed(how: Reason, r: Role, name: string)
    requires Explains(how, r, name)
    ensures Allows(r, name)
  { }

  /** A role allows a name exactly when some line of it can be shown as the
      reason. */
  lemma AllowedIffExplained(r: Role, name: string)
    ensures Allows(r, name) <==> exists how :: Explains(how, r, name)
  {
    if Allows(r, name) {
      if name in r.tools {
        assert Explains(ByTools, r, name);
      } else {
        var b :| b in r.grants.Keys && Cuts(name, b) && Rest(name, b) != "" && Covers(r.grants[b], Rest(name, b));
        assert Explains(if GRANT_ALL in r.grants[b] then ByWildcard(b) else ByName(b), r, name);
      }
    }
    forall how | Explains(how, r, name) ensures Allows(r, name) { ExplainedIsAllowed(how, r, name); }
  }

  /** Of a validated role only one line explains a grant, so the wildcard
      warning does not depend on the order a map is walked in. */
  lemma OneExplanation(h: Reason, k: Reason, r: Role, name: string)
    requires WellFormed(r) && Explains(h, r, name) && Explains(k, r, name)
    ensures h == k
  {
    if h != ByTools {
      var b, c := h.backend, k.backend;
      assert GoodGrant(b, r.grants[b]) && GoodGrant(c, r.grants[c]);
      assert name[|b|] == SEPARATOR && name[|b|] in name;
      FirstSegmentIsTheOnlyCut(name, b);
      FirstSegmentIsTheOnlyCut(name, c);
    }
  }

  /** grantReason: a line that decides, or "granted" -- which is never said of
      a role that allows the name. */
  method GrantReason(r: Role, name: string) returns (how: Reason)
    ensures Allows(r, name) ==> Explains(how, r, name)
    ensures !Allows(r, name) ==> how == Granted
  {
    if name in r.tools { return ByTools; }
    var rest := r.grants.Keys;
    while rest != {}
      invariant rest <= r.grants.Keys
      invariant forall b <- r.grants.Keys - rest :: !(Cuts(name, b) && Rest(name, b) != ""
                                                      && Covers(r.grants[b], Rest(name, b)))
      decreases rest
    {
      var backend :| backend in rest;
      rest := rest - {backend};
      if Cuts(name, backend) && Rest(name, backend) != "" {
        if GRANT_ALL in r.grants[backend] { return ByWildcard(backend); }
        if Rest(name, backend) in r.grants[backend] { return ByName(backend); }
      }
    }
    assert forall b <- r.grants.Keys :: b in r.grants.Keys - rest;
    return Granted;
  }

  predicate Clears(r: Role, name: string) { r.nonRead && AllowsExplicitly(r, name) }

  predicate Reaches(r: Role, sensitive: bool, name: string) {
    if sensitive then Clears(r, name) else Allows(r, name)
  }

  /** Exactly these roles, in the file's order. */
  function Reaching(roles: seq<Role>, sensitive: bool, name: string): seq<Role> {
    if roles == [] then []
    else (if Reaches(roles[0], sensitive, name) then [roles[0]] else []) + Reaching(roles[1..], sensitive, name)
  }

  /** A page entry for each of these roles, with a reason that decides. */
  predicate Covered(out: seq<RoleCoverage>, rs: seq<Role>, name: string) {
    |out| == |rs| && forall k :: 0 <= k < |out| ==>
      out[k].role == rs[k].name && out[k].nonRead == rs[k].nonRead && Explains(out[k].how, rs[k], name)
  }

  lemma ReachingStep(found: seq<Role>, roles: seq<Role>, i: nat, sensitive: bool, name: string)
    requires i < |roles|
    ensures found + Reaching(roles[i..], sensitive, name) ==
            (if Reaches(roles[i], sensitive, name) then found + [roles[i]] else found)
            + Reaching(roles[i + 1..], sensitive, name)
  {
    assert roles[i..][1..] == roles[i + 1..] && roles[i..][0] == roles[i];
  }

  lemma CoveredMore(out: seq<RoleCoverage>, rs: seq<Role>, name: string, c: RoleCoverage, r: Role)
    requires Covered(out, rs, name) && c.role == r.name && c.nonRead == r.nonRead && Explains(c.how, r, name)
    ensures Covered(out + [c], rs + [r], name)
  { }

  method CallableBy(roles: seq<Role>, server: string, tool: string) returns (out: seq<RoleCoverage>)
    ensures Covered(out, Reaching(roles, false, Namespaced(server, tool)), Namespaced(server, tool))
  {
    var name := Namespaced(server, tool);
    out := [];
    ghost var found: seq<Role> := [];
    var i := 0;
    assert roles[0..] == roles;
    while i < |roles|
      invariant 0 <= i <= |roles|
      invariant found + Reaching(roles[i..], false, name) == Reaching(roles, false, name)
      invariant Covered(out, found, name)
    {
      var r := roles[i];
      ReachingStep(found, roles, i, false, name);
      if Allows(r, name) {
        var how := GrantReason(r, name);
        CoveredMore(out, found, name, RoleCoverage(r.name, how, r.nonRead), r);
        out := out + [RoleCoverage(r.name, how, r.nonRead)];
        found := found + [r];
      }
      i := i + 1;
    }
    assert found == Reaching(roles, false, name);
  }

  method ClearableBy(roles: seq<Role>, server: string, tool: string) returns (out: seq<RoleCoverage>)
    ensures Covered(out, Reaching(roles, true, Namespaced(server, tool)), Namespaced(server, tool))
    ensures forall c <- out :: c.how == ByTools && c.nonRead
  {
    var name := Namespaced(server, tool);
    out := [];
    ghost var found: seq<Role> := [];
    var i := 0;
    assert roles[0..] == roles;
    while i < |roles|
      invariant 0 <= i <= |roles|
      invariant found + Reaching(roles[i..], true, name) == Reaching(roles, true, name)
      invariant Covered(out, found, name)
      invariant forall c <- out :: c.how == ByTools && c.nonRead
    {
      var r := roles[i];
      ReachingStep(found, roles, i, true, name);
      if r.nonRead && AllowsExplicitly(r, name) {
        CoveredMore(out, found, name, RoleCoverage(r.name, ByTools, true), r);
        out := out + [RoleCoverage(r.name, ByTools, true)];
        found := found + [r];
      }
      i := i + 1;
    }
    assert found == Reaching(roles, true, name);
  }

  /** ReachableBy: the honest list for a tool, by its class. */
  method ReachableBy(roles: seq<Role>, server: string, tool: string, sensitive: bool) returns (out: seq<RoleCoverage>)
    ensures Covered(out, Reaching(roles, sensitive, Namespaced(server, tool)), Namespaced(server, tool))
    ensures sensitive ==> forall c <- out :: !c.how.ByWildcard?
  {
    if sensitive { out := ClearableBy(roles, server, tool); } else { out := CallableBy(roles, server, tool); }
  }

  /** What a sensitive tool is reachable through is always among what it is
      callable through, whatever the roles. */
  lemma {:induction false} ClearableIsCallable(roles: seq<Role>, name: string)
    ensures forall r <- Reaching(roles, true, name) :: r in Reaching(roles, false, name)
    ensures forall r :: r in Reaching(roles, true, name) <==> r in roles && Clears(r, name)
    ensures forall r :: r in Reaching(roles, false, name) <==> r in roles && Allows(r, name)
  {
    if roles != [] { ClearableIsCallable(roles[1..], name); }
  }
}
