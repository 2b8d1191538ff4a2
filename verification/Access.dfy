/** Roles and what they reach (internal/access/access.go), and the start-up
    diagnostic that asks the same question of a grant and a registered upstream
    (cmd/mcp-gateway/serve.go, grantReaches). */
module Access {
  import opened GoText
  import opened Sorting

  const SEPARATOR: char := '.'
  const GRANT_ALL: string := "*"

  /** A role by its value; see PolicyHeap for the slices and maps behind it. */
  datatype Role = Role(name: string, tools: seq<string>, grants: map<string, seq<string>>, nonRead: bool)

  function Namespaced(upstream: string, tool: string): string { upstream + [SEPARATOR] + tool }

  // ---- The gate ---------------------------------------------------------------

  predicate AllowsExplicitly(r: Role, tool: string) { tool in r.tools }

  /** strings.CutPrefix(name, backend + "."), when it cuts. */
  predicate Cuts(name: string, backend: string) {
    |name| > |backend| && name[..|backend|] == backend && name[|backend|] == SEPARATOR
  }

  function Rest(name: string, backend: string): string
    requires Cuts(name, backend)
  {
    name[|backend| + 1..]
  }

  predicate Covers(ids: seq<string>, rest: string) { GRANT_ALL in ids || rest in ids }

  predicate Allows(r: Role, tool: string) {
    tool in r.tools
    || exists backend <- r.grants.Keys :: Cuts(tool, backend) && Rest(tool, backend) != ""
                                          && Covers(r.grants[backend], Rest(tool, backend))
  }

  // ---- Well-formed roles ---------------------------------------------------------

  function TrimLeft(s: string): string { if s != "" && IsSpace(s[0] as int) then TrimLeft(s[1..]) else s }

  function TrimRight(s: string): string {
    if s != "" && IsSpace(s[|s| - 1] as int) then TrimRight(s[..|s| - 1]) else s
  }

  function TrimSpace(s: string): string { TrimRight(TrimLeft(s)) }

  const HASH_PREFIX := "sha256:"

  /** A manifest or fingerprint as an operator passed it: white space and the
      prefix dropped. */
  function Given(reviewed: string): string {
    var r := TrimSpace(reviewed);
    if HASH_PREFIX <= r then r[|HASH_PREFIX|..] else r
  }

  /** A name that is not empty and has no white space around it. */
  predicate Plain(s: string) { s != "" && TrimSpace(s) == s }

  predicate GoodKey(backend: string) { Plain(backend) && backend != GRANT_ALL && SEPARATOR !in backend }

  predicate GoodId(id: string) { Plain(id) && (id == GRANT_ALL || SEPARATOR !in id) }

  predicate NoRepeats(ids: seq<string>) { forall i, j :: 0 <= i < j < |ids| ==> ids[i] != ids[j] }

  predicate GoodIds(ids: seq<string>) {
    && (GRANT_ALL in ids ==> |ids| == 1)
    && (forall id <- ids :: GoodId(id))
    && NoRepeats(ids)
  }

  predicate GoodGrant(backend: string, ids: seq<string>) { GoodKey(backend) && GoodIds(ids) }

  /** What ValidateRole promises. */
  predicate WellFormed(r: Role) {
    && Plain(r.name)
    && (forall t <- r.tools :: Plain(t))
    && (forall backend <- r.grants.Keys :: GoodGrant(backend, r.grants[backend]))
  }

  // ---- Isolation between upstreams -------------------------------------------------

  lemma CutsOwn(upstream: string, tool: string)
    ensures Cuts(Namespaced(upstream, tool), upstream) && Rest(Namespaced(upstream, tool), upstream) == tool
  {
    var name := Namespaced(upstream, tool);
    assert name[..|upstream|] == upstream && name[|upstream| + 1..] == tool;
  }

  /** A key without a separator cuts only the name of its own upstream, when
      the upstream's name has no separator either. */
  lemma CutsOnlyOwn(upstream: string, tool: string, backend: string)
    requires SEPARATOR !in upstream && SEPARATOR !in backend && Cuts(Namespaced(upstream, tool), backend)
    ensures backend == upstream
  {
    var name := Namespaced(upstream, tool);
    assert name[|upstream|] == SEPARATOR && name[|backend|] == SEPARATOR;
    assert forall k :: 0 <= k < |backend| ==> name[k] == backend[k] && backend[k] in backend;
    assert forall k :: 0 <= k < |upstream| ==> name[k] == upstream[k] && upstream[k] in upstream;
    assert |backend| == |upstream|;
    assert name[..|upstream|] == upstream;
  }

  /** For a validated role and an upstream named without a separator: a tool
      is reachable exactly when the flat list names it, or that very
      upstream's grant holds the tool or the wildcard. */
  lemma GrantsAreIsolated(r: Role, upstream: string, tool: string)
    requires WellFormed(r) && SEPARATOR !in upstream
    ensures Allows(r, Namespaced(upstream, tool)) <==>
              || Namespaced(upstream, tool) in r.tools
              || (tool != "" && upstream in r.grants && Covers(r.grants[upstream], tool))
  {
    var name := Namespaced(upstream, tool);
    CutsOwn(upstream, tool);
    forall backend <- r.grants.Keys | Cuts(name, backend) ensures backend == upstream {
      assert GoodGrant(backend, r.grants[backend]);
      CutsOnlyOwn(upstream, tool, backend);
    }
  }

  lemma NoIdHasSeparator(ids: seq<string>, rest: string)
    requires GoodIds(ids) && SEPARATOR in rest
    ensures rest !in ids
  {
    assert rest in ids ==> GoodId(rest);
  }

  /** The text before the first separator. */
  function FirstSegment(name: string): (k: string)
    requires SEPARATOR in name
    ensures Cuts(name, k) && SEPARATOR !in k
  {
    if name[0] == SEPARATOR then "" else [name[0]] + FirstSegment(name[1..])
  }

  lemma {:induction false} FirstSegmentIsTheOnlyCut(name: string, backend: string)
    requires SEPARATOR in name && SEPARATOR !in backend && Cuts(name, backend)
    ensures backend == FirstSegment(name)
  {
    var k := FirstSegment(name);
    assert forall i :: 0 <= i < |backend| ==> name[i] == backend[i] && backend[i] in backend;
    assert forall i :: 0 <= i < |k| ==> name[i] == k[i] && k[i] in k;
    assert |k| == |backend|;
    assert name[..|k|] == k && name[..|k|] == backend;
  }

  /** An upstream whose name holds a separator is never reached through a
      grant of its own -- no valid key names it -- but always through a
      wildcard on its first segment, whatever backend that is. So isolation
      needs both rules: none in a key, none in an upstream's name. */
  lemma SeparatorsBreakIsolation(r: Role, upstream: string, tool: string)
    requires WellFormed(r) && SEPARATOR in upstream
    ensures upstream !in r.grants
    ensures Allows(r, Namespaced(upstream, tool)) <==>
              || Namespaced(upstream, tool) in r.tools
              || (FirstSegment(upstream) in r.grants && GRANT_ALL in r.grants[FirstSegment(upstream)])
  {
    assert upstream in r.grants.Keys ==> GoodGrant(upstream, r.grants[upstream]);
    var name, k := Namespaced(upstream, tool), FirstSegment(upstream);
    assert name[..|k|] == upstream[..|k|] && name[|k|] == upstream[|k|];
    var rest := Rest(name, k);
    assert rest == Rest(upstream, k) + [SEPARATOR] + tool;
    assert rest[|Rest(upstream, k)|] == SEPARATOR;
    assert upstream[|k|] == SEPARATOR && name[|k|] == SEPARATOR && name[|k|] in name;
    forall backend <- r.grants.Keys | Cuts(name, backend) ensures backend == k {
      assert GoodGrant(backend, r.grants[backend]);
      FirstSegmentIsTheOnlyCut(name, backend);
      FirstSegmentIsTheOnlyCut(name, k);
    }
    if k in r.grants {
      assert GoodGrant(k, r.grants[k]);
      NoIdHasSeparator(r.grants[k], rest);
    }
  }

  /** One such role: the wildcard on threatintel reaches an upstream named
      threatintel.staging, which no valid grant names. */
  lemma AWildcardReachesAnotherUpstream()
    ensures var r := Role("analyst", [], map["threatintel" := [GRANT_ALL]], false);
            && WellFormed(r)
            && "threatintel.staging" !in r.grants && Allows(r, Namespaced("threatintel.staging", "lookup_ip"))
  {
    var r := Role("analyst", [], map["threatintel" := [GRANT_ALL]], false);
    var name := Namespaced("threatintel.staging", "lookup_ip");
    assert name[..11] == "threatintel" && name[11] == SEPARATOR && |name| == 29;
    assert Cuts(name, "threatintel") && |Rest(name, "threatintel")| == 17;
    TrimOuter("analyst");
    TrimOuter("threatintel");
    TrimOuter(GRANT_ALL);
    assert "threatintel" in r.grants.Keys;
  }

  /** A name with no white space at either end is as it is trimmed. */
  lemma TrimOuter(s: string)
    requires s != "" && !IsSpace(s[0] as int) && !IsSpace(s[|s| - 1] as int)
    ensures TrimSpace(s) == s
  { }

  // ---- grantReaches ------------------------------------------------------------------

  function Probe(backend: string, ids: seq<string>): Role { Role("", [], map[backend := ids], false) }

  predicate GrantReaches(backend: string, ids: seq<string>, entry: string) {
    entry == backend || exists id <- ids :: Allows(Probe(backend, ids), Namespaced(entry, id))
  }

  /** Finitely many probes decide whether a grant addresses any tool at all an
      upstream may ever advertise. */
  lemma GrantReachesIsExact(backend: string, ids: seq<string>, entry: string)
    requires GoodGrant(backend, ids)
    ensures GrantReaches(backend, ids, entry) <==>
              entry == backend || exists tool :: tool != "" && Allows(Probe(backend, ids), Namespaced(entry, tool))
  {
    var p := Probe(backend, ids);
    if entry != backend {
      if exists tool :: tool != "" && Allows(p, Namespaced(entry, tool)) {
        var tool :| tool != "" && Allows(p, Namespaced(entry, tool));
        ProbeFinds(backend, ids, entry, tool);
      }
      forall id <- ids ensures id != "" { assert GoodId(id); }
    }
  }

  /** Beyond its own name a grant reaches an entry only by its wildcard, and
      then the wildcard itself, taken as a tool, shows it. */
  lemma ProbeFinds(backend: string, ids: seq<string>, entry: string, tool: string)
    requires GoodGrant(backend, ids) && entry != backend
    requires Allows(Probe(backend, ids), Namespaced(entry, tool))
    ensures GRANT_ALL in ids && Allows(Probe(backend, ids), Namespaced(entry, GRANT_ALL))
  {
    var name, star := Namespaced(entry, tool), Namespaced(entry, GRANT_ALL);
    assert Cuts(name, backend);
    if SEPARATOR !in entry {
      CutsOnlyOwn(entry, tool, backend);
    } else {
      var k := FirstSegment(entry);
      assert name[..|k|] == entry[..|k|] && name[|k|] == entry[|k|] && name[|k|] in name;
      FirstSegmentIsTheOnlyCut(name, backend);
      FirstSegmentIsTheOnlyCut(name, k);
      assert star[..|k|] == entry[..|k|] && star[|k|] == entry[|k|];
      var rest := Rest(name, k);
      assert rest[|entry| - |k| - 1] == SEPARATOR;
      NoIdHasSeparator(ids, rest);
      assert Rest(star, k) != "" && backend in Probe(backend, ids).grants.Keys;
    }
  }

  // ---- ValidateRole --------------------------------------------------------------------

  datatype RoleError =
    | NameHasSpace | NameEmpty | ToolHasSpace(tool: string) | ToolEmpty
    | BackendEmpty | BackendHasSpace(backend: string) | BackendIsWildcard | BackendHasSeparator(backend: string)
    | WildcardNotAlone(backend: string) | IdEmpty(backend: string) | IdHasSpace(backend: string, id: string)
    | IdHasSeparator(backend: string, id: string) | IdRepeated(backend: string, id: string)

  lemma TrimEmpty()
    ensures TrimSpace("") == ""
  { }

  method ValidateIds(backend: string, ids: seq<string>) returns (errs: seq<RoleError>)
    ensures errs == [] <==> GoodIds(ids)
  {
    TrimEmpty();
    errs := [];
    if GRANT_ALL in ids && |ids| > 1 { errs := errs + [WildcardNotAlone(backend)]; }
    ghost var alone := errs == [];
    var seen: set<string> := {};
    var i := 0;
    while i < |ids|
      invariant 0 <= i <= |ids|
      invariant forall k :: 0 <= k < i ==> ids[k] in seen || ids[k] == GRANT_ALL || !GoodId(ids[k])
      invariant seen <= set k | 0 <= k < i :: ids[k]
      invariant GRANT_ALL !in seen
      invariant errs == [] <==> alone && (forall k :: 0 <= k < i ==> GoodId(ids[k]))
                                && (forall j, k :: 0 <= j < k < i && ids[j] == ids[k] ==> ids[j] == GRANT_ALL)
    {
      var id := ids[i];
      if TrimSpace(id) == "" { errs := errs + [IdEmpty(backend)]; }
      else if id != TrimSpace(id) { errs := errs + [IdHasSpace(backend, id)]; }
      else if id == GRANT_ALL { }
      else if SEPARATOR in id { errs := errs + [IdHasSeparator(backend, id)]; }
      else {
        if id in seen { errs := errs + [IdRepeated(backend, id)]; }
        seen := seen + {id};
      }
      i := i + 1;
    }
  }

  method ValidateGrants(r: Role) returns (errs: seq<RoleError>)
    ensures errs == [] <==> forall backend <- r.grants.Keys :: GoodGrant(backend, r.grants[backend])
  {
    TrimEmpty();
    errs := [];
    var backends := SortedKeys(r.grants.Keys);
    var i := 0;
    while i < |backends|
      invariant 0 <= i <= |backends|
      invariant errs == [] <==> forall k :: 0 <= k < i ==> GoodGrant(backends[k], r.grants[backends[k]])
    {
      var backend := backends[i];
      if TrimSpace(backend) == "" { errs := errs + [BackendEmpty]; }
      else if backend != TrimSpace(backend) { errs := errs + [BackendHasSpace(backend)]; }
      else if backend == GRANT_ALL { errs := errs + [BackendIsWildcard]; }
      else if SEPARATOR in backend { errs := errs + [BackendHasSeparator(backend)]; }
      var more := ValidateIds(backend, r.grants[backend]);
      errs := errs + more;
      i := i + 1;
    }
    assert forall backend <- r.grants.Keys :: backend in backends;
  }

  /** ValidateRole: no error exactly for a well-formed role. */
  method ValidateRole(r: Role) returns (errs: seq<RoleError>)
    ensures errs == [] <==> WellFormed(r)
  {
    TrimEmpty();
    errs := [];
    if r.name != TrimSpace(r.name) { errs := errs + [NameHasSpace]; }
    if TrimSpace(r.name) == "" { errs := errs + [NameEmpty]; }
    var i := 0;
    while i < |r.tools|
      invariant 0 <= i <= |r.tools|
      invariant errs == [] <==> Plain(r.name) && forall k :: 0 <= k < i ==> Plain(r.tools[k])
    {
      var tool := r.tools[i];
      if tool != TrimSpace(tool) { errs := errs + [ToolHasSpace(tool)]; }
      if TrimSpace(tool) == "" { errs := errs + [ToolEmpty]; }
      i := i + 1;
    }
    var more := ValidateGrants(r);
    errs := errs + more;
  }

  // ---- unregisteredGrants ------------------------------------------------------------------

  datatype Gap = Gap(role: string, backend: string)

  /** No registered upstream has, or could ever advertise, a tool this grant
      addresses, and none has its name. */
  ghost predicate AddressesNothing(backend: string, ids: seq<string>, entries: seq<string>) {
    forall e <- entries :: e != backend && forall tool :: tool != "" ==>
      !Allows(Probe(backend, ids), Namespaced(e, tool))
  }

  method AnyReached(backend: string, ids: seq<string>, entries: seq<string>) returns (reaches: bool)
    requires GoodGrant(backend, ids)
    ensures reaches <==> !AddressesNothing(backend, ids, entries)
  {
    var i := 0;
    while i < |entries|
      invariant 0 <= i <= |entries|
      invariant forall k :: 0 <= k < i ==> !GrantReaches(backend, ids, entries[k])
    {
      if GrantReaches(backend, ids, entries[i]) {
        GrantReachesIsExact(backend, ids, entries[i]);
        assert entries[i] in entries;
        return true;
      }
      i := i + 1;
    }
    forall e <- entries
      ensures e != backend && forall tool :: tool != "" ==> !Allows(Probe(backend, ids), Namespaced(e, tool))
    {
      GrantReachesIsExact(backend, ids, e);
    }
    return false;
  }

  ghost predicate GapsByRole(parts: seq<seq<Gap>>, gaps: seq<Gap>, roles: seq<Role>, entries: seq<string>) {
    && |parts| == |roles| && gaps == Concat(parts)
    && forall k :: 0 <= k < |roles| ==> GapsOf(roles[k], entries, parts[k])
  }

  ghost predicate AllGaps(gaps: seq<Gap>, roles: seq<Role>, entries: seq<string>) {
    exists parts: seq<seq<Gap>> :: GapsByRole(parts, gaps, roles, entries)
  }

  /** The gaps a configuration is warned of are exactly its grants that address
      nothing registered, role by role in the file's order. */
  method UnregisteredGrants(roles: seq<Role>, entries: seq<string>) returns (gaps: seq<Gap>)
    requires forall r <- roles :: WellFormed(r)
    ensures AllGaps(gaps, roles, entries)
  {
    gaps := [];
    ghost var parts: seq<seq<Gap>> := [];
    var i := 0;
    while i < |roles|
      invariant 0 <= i <= |roles| && |parts| == i && gaps == Concat(parts)
      invariant forall k :: 0 <= k < i ==> GapsOf(roles[k], entries, parts[k])
    {
      var more := RoleGaps(roles[i], entries);
      ConcatSnoc(parts, more);
      gaps, parts := gaps + more, parts + [more];
      i := i + 1;
    }
    assert GapsByRole(parts, gaps, roles, entries);
  }

  function Concat(parts: seq<seq<Gap>>): seq<Gap> {
    if parts == [] then [] else Concat(parts[..|parts| - 1]) + parts[|parts| - 1]
  }

  lemma ConcatSnoc(parts: seq<seq<Gap>>, part: seq<Gap>)
    ensures Concat(parts + [part]) == Concat(parts) + part
  {
    assert (parts + [part])[..|parts|] == parts;
  }

  /** One role's gaps: each grant that addresses nothing, once, by backend. */
  ghost predicate GapsOf(r: Role, entries: seq<string>, gaps: seq<Gap>) {
    && (forall k :: 0 <= k < |gaps| ==> gaps[k].role == r.name)
    && (forall j, k :: 0 <= j < k < |gaps| ==> Less(gaps[j].backend, gaps[k].backend))
    && (forall b :: Gap(r.name, b) in gaps <==> b in r.grants && AddressesNothing(b, r.grants[b], entries))
  }

  predicate GapsSorted(gaps: seq<Gap>) {
    forall j, k :: 0 <= j < k < |gaps| ==> Less(gaps[j].backend, gaps[k].backend)
  }

  /** The gaps among these of its grants. */
  ghost predicate GapsIn(r: Role, entries: seq<string>, backends: seq<string>, gaps: seq<Gap>) {
    && (forall b <- backends :: b in r.grants)
    && (forall k :: 0 <= k < |gaps| ==> gaps[k].role == r.name && gaps[k].backend in backends)
    && (forall b <- backends :: Gap(r.name, b) in gaps <==> AddressesNothing(b, r.grants[b], entries))
  }

  lemma AllBefore(backends: seq<string>, i: nat)
    requires StrictlySorted(backends) && i < |backends|
    ensures backends[i] !in backends[..i] && forall b <- backends[..i] :: Less(b, backends[i])
  {
    forall b <- backends[..i] ensures Less(b, backends[i]) {
      var j :| 0 <= j < i && backends[j] == b;
    }
    LessIrreflexive(backends[i]);
  }

  lemma SortedOn(before: seq<string>, gaps: seq<Gap>, last: Gap)
    requires GapsSorted(gaps) && forall k :: 0 <= k < |gaps| ==> gaps[k].backend in before
    requires forall b <- before :: Less(b, last.backend)
    ensures GapsSorted(gaps + [last])
  { }

  lemma GapOn(r: Role, entries: seq<string>, before: seq<string>, b: string, gaps: seq<Gap>, reaches: bool, c: string)
    requires GapsIn(r, entries, before, gaps) && b !in before && b in r.grants && c in before + [b]
    requires reaches <==> !AddressesNothing(b, r.grants[b], entries)
    ensures c in r.grants
    ensures Gap(r.name, c) in (if reaches then gaps else gaps + [Gap(r.name, b)]) <==>
              AddressesNothing(c, r.grants[c], entries)
  {
    if c != b {
      assert c in before;
    } else {
      assert forall k :: 0 <= k < |gaps| ==> gaps[k].backend in before;
    }
  }

  lemma GapsOn(r: Role, entries: seq<string>, before: seq<string>, b: string, gaps: seq<Gap>, reaches: bool)
    requires GapsIn(r, entries, before, gaps) && b !in before && b in r.grants
    requires reaches <==> !AddressesNothing(b, r.grants[b], entries)
    ensures GapsIn(r, entries, before + [b], if reaches then gaps else gaps + [Gap(r.name, b)])
  {
    var after := if reaches then gaps else gaps + [Gap(r.name, b)];
    forall c | c in before + [b]
      ensures c in r.grants && (Gap(r.name, c) in after <==> AddressesNothing(c, r.grants[c], entries))
    {
      GapOn(r, entries, before, b, gaps, reaches, c);
    }
  }

  lemma GapTurn(r: Role, entries: seq<string>, backends: seq<string>, i: nat, gaps: seq<Gap>, reaches: bool)
    requires StrictlySorted(backends) && i < |backends| && backends[i] in r.grants
    requires GapsIn(r, entries, backends[..i], gaps) && GapsSorted(gaps)
    requires reaches <==> !AddressesNothing(backends[i], r.grants[backends[i]], entries)
    ensures var more := if reaches then gaps else gaps + [Gap(r.name, backends[i])];
            GapsIn(r, entries, backends[..i + 1], more) && GapsSorted(more)
  {
    AllBefore(backends, i);
    assert backends[..i + 1] == backends[..i] + [backends[i]];
    GapsOn(r, entries, backends[..i], backends[i], gaps, reaches);
    SortedOn(backends[..i], gaps, Gap(r.name, backends[i]));
  }

  lemma AllIn(r: Role, entries: seq<string>, backends: seq<string>, gaps: seq<Gap>)
    requires GapsIn(r, entries, backends, gaps) && GapsSorted(gaps) && forall b <- r.grants.Keys :: b in backends
    ensures GapsOf(r, entries, gaps)
  {
    forall b ensures Gap(r.name, b) in gaps <==> b in r.grants && AddressesNothing(b, r.grants[b], entries) {
      if Gap(r.name, b) in gaps {
        var k :| 0 <= k < |gaps| && gaps[k] == Gap(r.name, b);
        assert gaps[k].backend in backends;
      } else if b in r.grants {
        assert b in r.grants.Keys;
      }
    }
  }

  method RoleGaps(r: Role, entries: seq<string>) returns (gaps: seq<Gap>)
    requires WellFormed(r)
    ensures GapsOf(r, entries, gaps)
  {
    gaps := [];
    var backends := SortedKeys(r.grants.Keys);
    var i := 0;
    while i < |backends|
      invariant 0 <= i <= |backends|
      invariant GapsIn(r, entries, backends[..i], gaps) && GapsSorted(gaps)
    {
      var backend := backends[i];
      assert GoodGrant(backend, r.grants[backend]);
      var reaches := AnyReached(backend, r.grants[backend], entries);
      GapTurn(r, entries, backends, i, gaps, reaches);
      if !reaches { gaps := gaps + [Gap(r.name, backend)]; }
      i := i + 1;
    }
    assert backends[..i] == backends;
    AllIn(r, entries, backends, gaps);
  }
}
