/** The policy as the heap holds it (internal/access/access.go, NewPolicy to
    AllowedTools): slices and maps are references, a policy copies every one
    that crosses its boundary, and so nothing a caller keeps can change what
    it authorizes. A Go slice is an array, a Go map an object with a map in it,
    and nil is null. */
module PolicyHeap {
  import opened GoText
  import opened Sorting
  import opened Access

  /** map[string][]string */
  class GrantMap {
    var m: map<string, array?<string>>
    constructor (m: map<string, array?<string>>)
      ensures this.m == m
    { this.m := m; }
  }

  /** map[string]string */
  class GroupMap {
    var m: map<string, string>
    constructor (m: map<string, string>)
      ensures this.m == m
    { this.m := m; }
  }

  /** A Role as Go passes it: a value holding references. */
  datatype RoleRef = RoleRef(name: string, tools: array?<string>, grants: GrantMap?, nonRead: bool)

  datatype Identity = Identity(subject: string, groups: seq<string>)

  // ---- What the references hold ----------------------------------------------------

  function Slice(a: array?<string>): seq<string>
    reads a
  {
    if a == null then [] else a[..]
  }

  function ListObjects(g: GrantMap?): set<object>
    reads g
  {
    if g == null then {} else set k | k in g.m.Keys && g.m[k] != null :: g.m[k] as object
  }

  function GrantObjects(g: GrantMap?): set<object>
    reads g
  {
    if g == null then {} else {g} + ListObjects(g)
  }

  function Grants(g: GrantMap?): map<string, seq<string>>
    reads g, ListObjects(g)
  {
    if g == null then map[] else map k <- g.m.Keys :: Slice(g.m[k])
  }

  function RoleObjects(r: RoleRef): set<object>
    reads r.grants
  {
    (if r.tools == null then {} else {r.tools}) + GrantObjects(r.grants)
  }

  function View(r: RoleRef): Role
    reads r.tools, r.grants, ListObjects(r.grants)
  {
    Role(r.name, Slice(r.tools), Grants(r.grants), r.nonRead)
  }

  // ---- The policy by its value --------------------------------------------------------

  datatype PolicyView = PolicyView(roles: map<string, Role>, groupToRole: map<string, string>)

  predicate Sound(p: PolicyView) {
    && (forall n <- p.roles.Keys :: p.roles[n].name == n && WellFormed(p.roles[n]))
    && (forall g <- p.groupToRole.Keys :: p.groupToRole[g] in p.roles)
  }

  /** The roles an identity holds: those its groups are mapped to. */
  function RoleNames(p: PolicyView, groups: set<string>): set<string> {
    set g | g in groups && g in p.groupToRole :: p.groupToRole[g]
  }

  function Groups(id: Identity): set<string> { set g | g in id.groups }

  ghost predicate Authorized(p: PolicyView, id: Identity, tool: string) {
    exists n <- RoleNames(p, Groups(id)) :: n in p.roles && Allows(p.roles[n], tool)
  }

  ghost predicate AuthorizedNonRead(p: PolicyView, id: Identity, tool: string) {
    exists n <- RoleNames(p, Groups(id)) :: n in p.roles && p.roles[n].nonRead && AllowsExplicitly(p.roles[n], tool)
  }

  /** The narrower question is never answered yes when the wider one is not. */
  lemma NonReadIsNarrower(p: PolicyView, id: Identity, tool: string)
    requires AuthorizedNonRead(p, id, tool)
    ensures Authorized(p, id, tool)
  { }

  /** Order and repetition of groups do not matter, and more groups never take
      a tool away. */
  lemma GroupsOnlyAdd(p: PolicyView, id: Identity, more: Identity, tool: string)
    requires Groups(id) <= Groups(more)
    ensures RoleNames(p, Groups(id)) <= RoleNames(p, Groups(more))
    ensures Authorized(p, id, tool) ==> Authorized(p, more, tool)
    ensures AuthorizedNonRead(p, id, tool) ==> AuthorizedNonRead(p, more, tool)
    ensures Groups(id) == Groups(more) ==> (Authorized(p, id, tool) <==> Authorized(p, more, tool))
  {
    if Authorized(p, id, tool) {
      var n :| n in RoleNames(p, Groups(id)) && n in p.roles && Allows(p.roles[n], tool);
      assert n in RoleNames(p, Groups(more));
    }
    if AuthorizedNonRead(p, id, tool) {
      var n :| n in RoleNames(p, Groups(id)) && n in p.roles && p.roles[n].nonRead
               && AllowsExplicitly(p.roles[n], tool);
      assert n in RoleNames(p, Groups(more));
    }
  }

  // ---- Copies -------------------------------------------------------------------------

  /** slices.Clone. */
  method CloneSlice(a: array?<string>) returns (c: array?<string>)
    ensures a == null <==> c == null
    ensures c != null ==> fresh(c) && c[..] == a[..]
  {
    if a == null { return null; }
    var copy := new string[a.Length](i requires 0 <= i < a.Length reads a => a[i]);
    c := copy;
  }

  /** The lists copied so far, each of them one of these objects. */
  ghost predicate CopiesOf(copied: map<string, array?<string>>, g: GrantMap, own: set<object>)
    reads g, ListObjects(g), own
  {
    forall k <- copied.Keys ::
      && k in g.m
      && (copied[k] != null ==> copied[k] in own) && Slice(copied[k]) == Slice(g.m[k])
  }

  /** One grant's list, added to those copied so far. */
  method CloneInto(copied: map<string, array?<string>>, k: string, g: GrantMap, ghost own: set<object>)
    returns (more: map<string, array?<string>>, ghost now: set<object>)
    requires CopiesOf(copied, g, own) && k in g.m
    ensures more.Keys == copied.Keys + {k} && CopiesOf(more, g, now)
    ensures own <= now && fresh(now - own)
  {
    var copy := CloneSlice(g.m[k]);
    more := copied[k := copy];
    now := own + if copy == null then {} else {copy};
  }

  /** cloneGrants: both levels. */
  method CloneGrants(g: GrantMap?) returns (c: GrantMap?)
    ensures g == null <==> c == null
    ensures fresh(GrantObjects(c))
    ensures Grants(c) == Grants(g)
  {
    if g == null { return null; }
    var copied, _ := CloneLists(g);
    c := new GrantMap(copied);
  }

  method CloneLists(g: GrantMap) returns (copied: map<string, array?<string>>, ghost own: set<object>)
    ensures copied.Keys == g.m.Keys && CopiesOf(copied, g, own) && fresh(own)
  {
    copied, own := map[], {};
    var rest := g.m.Keys;
    while rest != {}
      invariant rest <= g.m.Keys && copied.Keys == g.m.Keys - rest
      invariant CopiesOf(copied, g, own) && fresh(own)
      decreases rest
    {
      var k :| k in rest;
      copied, own := CloneInto(copied, k, g, own);
      rest := rest - {k};
    }
  }

  method CloneRole(r: RoleRef) returns (c: RoleRef)
    ensures fresh(RoleObjects(c))
    ensures View(c) == View(r)
  {
    var tools := CloneSlice(r.tools);
    var grants := CloneGrants(r.grants);
    c := RoleRef(r.name, tools, grants, r.nonRead);
  }

  // ---- NewPolicy -----------------------------------------------------------------------

  function GroupEntries(g: GroupMap?): map<string, string>
    reads g
  {
    if g == null then map[] else g.m
  }

  predicate Distinct(vs: seq<Role>) { forall i, j :: 0 <= i < j < |vs| ==> vs[i].name != vs[j].name }

  predicate GoodRoles(vs: seq<Role>) { (forall v <- vs :: WellFormed(v)) && Distinct(vs) }

  predicate GoodGroups(groups: map<string, string>, names: set<string>) {
    forall g <- groups.Keys :: Plain(g) && groups[g] in names
  }

  function Names(vs: seq<Role>): set<string> { set i | 0 <= i < |vs| :: vs[i].name }

  /** p holds these roles, by name, and these groups. */
  ghost predicate Holds(p: PolicyView, vs: seq<Role>, groups: map<string, string>) {
    && p.groupToRole == groups
    && p.roles.Keys == Names(vs)
    && (forall i :: 0 <= i < |vs| ==> p.roles[vs[i].name] == vs[i])
  }

  /** A role all of whose references are among these objects. */
  ghost predicate Inside(r: RoleRef, parts: set<object>)
    reads parts
  {
    (r.grants != null ==> r.grants in parts) && RoleObjects(r) <= parts
  }

  ghost function ViewIn(r: RoleRef, parts: set<object>): Role
    requires Inside(r, parts)
    reads parts
  {
    View(r)
  }

  ghost predicate Shows(r: RoleRef, parts: set<object>, v: Role)
    reads parts
  {
    Inside(r, parts) && ViewIn(r, parts) == v
  }

  class Policy {
    var roles: map<string, RoleRef>
    var groupToRole: map<string, string>
    ghost var Repr: set<object>

    ghost predicate Valid()
      reads this, Repr
    {
      this in Repr && forall n <- roles.Keys :: Inside(roles[n], Repr)
    }

    ghost function PolicyOf(): PolicyView
      requires Valid()
      reads this, Repr
    {
      PolicyView(map n | n in roles.Keys :: ViewIn(roles[n], Repr), groupToRole)
    }

    /** The policy, by its value, is v. */
    ghost predicate Is(v: PolicyView)
      reads this, Repr
    {
      Valid() && PolicyOf() == v
    }

    constructor (roles: map<string, RoleRef>, groupToRole: map<string, string>, ghost parts: set<object>)
      requires forall n <- roles.Keys :: Inside(roles[n], parts)
      ensures Valid() && Repr == {this} + parts
      ensures this.roles == roles && this.groupToRole == groupToRole
    {
      this.roles := roles;
      this.groupToRole := groupToRole;
      Repr := {this} + parts;
    }
  }

  lemma GoodSnoc(vs: seq<Role>, i: nat)
    requires i < |vs|
    ensures GoodRoles(vs[..i + 1]) <==> GoodRoles(vs[..i]) && WellFormed(vs[i]) && vs[i].name !in Names(vs[..i])
    ensures Names(vs[..i + 1]) == Names(vs[..i]) + {vs[i].name}
  {
    var a, b := vs[..i], vs[..i + 1];
    assert b == a + [vs[i]];
    assert forall v <- b :: v in a || v == vs[i];
    assert forall k :: 0 <= k < i ==> a[k] == b[k];
    assert b[i] == vs[i] && b[i] in b;
    assert forall v <- a :: v in b;
  }

  lemma GoodPrefix(vs: seq<Role>, i: nat)
    requires i <= |vs| && GoodRoles(vs)
    ensures GoodRoles(vs[..i])
  { }

  /** The roles of a new policy, copied; None when one is refused. */
  method StoreRoles(roles: seq<RoleRef>, ghost vs: seq<Role>, ghost given: set<object>)
    returns (byName: Option<map<string, RoleRef>>, ghost parts: set<object>)
    requires |vs| == |roles| && forall k :: 0 <= k < |roles| ==> Shows(roles[k], given, vs[k])
    ensures byName.Some? <==> GoodRoles(vs)
    ensures fresh(parts)
    ensures byName.Some? ==> Stored(byName.value, parts, vs, |roles|)
  {
    var stored: map<string, RoleRef> := map[];
    parts := {};
    var i := 0;
    while i < |roles|
      invariant 0 <= i <= |roles| && fresh(parts)
      invariant forall k :: 0 <= k < |roles| ==> Shows(roles[k], given, vs[k])
      invariant GoodRoles(vs[..i])
      invariant Stored(stored, parts, vs, i)
    {
      var next;
      next, parts := StoreNext(roles[i], stored, vs, i, given, parts);
      if next.None? {
        if GoodRoles(vs) { GoodPrefix(vs, i + 1); }
        return None, parts;
      }
      stored := next.value;
      i := i + 1;
    }
    assert vs[..i] == vs;
    byName := Some(stored);
  }

  /** One role: validated, new, and copied. */
  method StoreNext(r: RoleRef, stored: map<string, RoleRef>, ghost vs: seq<Role>, ghost i: nat,
                   ghost given: set<object>, ghost parts: set<object>)
    returns (next: Option<map<string, RoleRef>>, ghost more: set<object>)
    requires i < |vs| && Shows(r, given, vs[i]) && GoodRoles(vs[..i]) && Stored(stored, parts, vs, i)
    ensures next.Some? <==> GoodRoles(vs[..i + 1])
    ensures next.Some? ==> Stored(next.value, more, vs, i + 1)
    ensures forall o :: o in more ==> o in parts || fresh(o)
  {
    GoodSnoc(vs, i);
    var errs := ValidateRole(View(r));
    if errs != [] || r.name in stored { return None, parts; }
    var copy := CloneRole(r);
    assert Stored(stored, parts, vs, i) && Shows(r, given, vs[i]);
    StoreOne(stored, parts, vs, i, copy);
    next, more := Some(stored[r.name := copy]), parts + RoleObjects(copy);
  }

  /** The first i roles are stored, each in objects of `parts`. */
  ghost predicate Stored(stored: map<string, RoleRef>, parts: set<object>, vs: seq<Role>, i: nat)
    requires i <= |vs|
    reads parts
  {
    && stored.Keys == Names(vs[..i])
    && (forall n <- stored.Keys :: Inside(stored[n], parts))
    && (forall k :: 0 <= k < i ==> vs[k].name in stored.Keys && ViewIn(stored[vs[k].name], parts) == vs[k])
  }

  lemma StoreOne(stored: map<string, RoleRef>, parts: set<object>, vs: seq<Role>, i: nat, copy: RoleRef)
    requires i < |vs| && Stored(stored, parts, vs, i)
    requires View(copy) == vs[i] && vs[i].name !in stored.Keys && Names(vs[..i + 1]) == Names(vs[..i]) + {vs[i].name}
    ensures Stored(stored[vs[i].name := copy], parts + RoleObjects(copy), vs, i + 1)
  {
    var stored', parts' := stored[vs[i].name := copy], parts + RoleObjects(copy);
    forall k | 0 <= k < i ensures vs[k].name in stored'.Keys && ViewIn(stored'[vs[k].name], parts') == vs[k] {
      assert vs[k].name in stored.Keys && ViewIn(stored[vs[k].name], parts) == vs[k];
    }
  }

  /** The groups of a new policy, copied; None when one is refused. */
  method StoreGroups(groupToRole: GroupMap?, names: set<string>) returns (mapping: Option<map<string, string>>)
    ensures mapping.Some? <==> GoodGroups(GroupEntries(groupToRole), names)
    ensures mapping.Some? ==> mapping.value == GroupEntries(groupToRole)
  {
    var copied: map<string, string> := map[];
    if groupToRole == null { return Some(copied); }
    TrimEmpty();
    var rest := groupToRole.m.Keys;
    while rest != {}
      invariant rest <= groupToRole.m.Keys && copied.Keys == groupToRole.m.Keys - rest
      invariant forall g <- copied.Keys :: copied[g] == groupToRole.m[g] && Plain(g) && copied[g] in names
      decreases rest
    {
      var group :| group in rest;
      if !Plain(group) || groupToRole.m[group] !in names { return None; }
      copied := copied[group := groupToRole.m[group]];
      rest := rest - {group};
    }
    mapping := Some(copied);
  }

  lemma StoredHolds(stored: map<string, RoleRef>, parts: set<object>, vs: seq<Role>, groups: map<string, string>,
                    v: PolicyView)
    requires GoodRoles(vs) && Stored(stored, parts, vs, |vs|) && GoodGroups(groups, Names(vs))
    requires v.groupToRole == groups && v.roles.Keys == stored.Keys
    requires forall n <- stored.Keys :: Shows(stored[n], parts, v.roles[n])
    ensures Holds(v, vs, groups) && Sound(v)
  {
    assert vs[..|vs|] == vs;
    forall i | 0 <= i < |vs| ensures v.roles[vs[i].name] == vs[i] {
      assert vs[i].name in stored.Keys && Shows(stored[vs[i].name], parts, v.roles[vs[i].name]);
    }
    forall n <- v.roles.Keys ensures v.roles[n].name == n && WellFormed(v.roles[n]) {
      var i :| 0 <= i < |vs| && vs[i].name == n;
      assert vs[i] in vs;
    }
  }

  /** NewPolicy, given roles that show vs: refused exactly for ill-formed or
      repeated roles, bad group names and unknown roles; otherwise a policy
      that holds them and shares no object with what it was given. */
  method NewPolicy(roles: seq<RoleRef>, groupToRole: GroupMap?, ghost vs: seq<Role>, ghost given: set<object>)
    returns (p: Policy?)
    requires |vs| == |roles| && forall k :: 0 <= k < |roles| ==> Shows(roles[k], given, vs[k])
    ensures p != null <==> GoodRoles(vs) && GoodGroups(GroupEntries(groupToRole), Names(vs))
    ensures p != null ==> p.Valid() && fresh(p.Repr)
    ensures p != null ==> Holds(p.PolicyOf(), vs, GroupEntries(groupToRole)) && Sound(p.PolicyOf())
  {
    var byName, parts := StoreRoles(roles, vs, given);
    if byName.None? { return null; }
    assert vs[..|vs|] == vs;
    var mapping := StoreGroups(groupToRole, byName.value.Keys);
    if mapping.None? { return null; }
    p := new Policy(byName.value, mapping.value, parts);
    ghost var v := p.PolicyOf();
    forall n <- byName.value.Keys ensures Shows(byName.value[n], parts, v.roles[n]) { }
    StoredHolds(byName.value, parts, vs, mapping.value, v);
  }

  // ---- What the request path asks ----------------------------------------------------------

  /** The roles of an identity by value: sorted by name, each as the policy
      has it, exactly those its groups are mapped to. */
  ghost predicate Resolved(rs: seq<Role>, v: PolicyView, groups: set<string>) {
    && (forall i, j :: 0 <= i < j < |rs| ==> Less(rs[i].name, rs[j].name))
    && (forall i :: 0 <= i < |rs| ==>
          rs[i].name in RoleNames(v, groups) && rs[i].name in v.roles && rs[i] == v.roles[rs[i].name])
    && (forall n <- RoleNames(v, groups) :: exists i :: 0 <= i < |rs| && rs[i].name == n)
  }

  function NamesOf(rs: seq<Role>): seq<string> { seq(|rs|, i requires 0 <= i < |rs| => rs[i].name) }

  lemma NamesAre(rs: seq<Role>, v: PolicyView, groups: set<string>, n: string)
    requires Resolved(rs, v, groups)
    ensures n in NamesOf(rs) <==> n in RoleNames(v, groups)
  {
    if n in RoleNames(v, groups) {
      var i :| 0 <= i < |rs| && rs[i].name == n;
      assert NamesOf(rs)[i] == n;
    }
  }

  lemma NamesSorted(rs: seq<Role>, v: PolicyView, groups: set<string>)
    requires Resolved(rs, v, groups)
    ensures StrictlySorted(NamesOf(rs))
  { }

  lemma SameNames(rs: seq<Role>, qs: seq<Role>, v: PolicyView, groups: set<string>)
    requires Resolved(rs, v, groups) && Resolved(qs, v, groups) && NamesOf(rs) == NamesOf(qs)
    ensures rs == qs
  {
    assert |rs| == |NamesOf(rs)| == |qs|;
    forall i | 0 <= i < |rs| ensures rs[i] == qs[i] {
      assert NamesOf(rs)[i] == rs[i].name && NamesOf(qs)[i] == qs[i].name;
    }
  }

  /** The roles found depend on the set of groups alone. */
  lemma ResolvedIsUnique(rs: seq<Role>, qs: seq<Role>, v: PolicyView, groups: set<string>)
    requires Resolved(rs, v, groups) && Resolved(qs, v, groups)
    ensures rs == qs
  {
    forall n ensures n in NamesOf(rs) <==> n in NamesOf(qs) {
      NamesAre(rs, v, groups, n);
      NamesAre(qs, v, groups, n);
    }
    NamesSorted(rs, v, groups);
    NamesSorted(qs, v, groups);
    SortedIsUnique(NamesOf(rs), NamesOf(qs));
    SameNames(rs, qs, v, groups);
  }

  lemma ResolvedDecides(rs: seq<Role>, v: PolicyView, id: Identity, tool: string)
    requires Resolved(rs, v, Groups(id))
    ensures Authorized(v, id, tool) <==> exists i :: 0 <= i < |rs| && Allows(rs[i], tool)
    ensures AuthorizedNonRead(v, id, tool) <==>
              exists i :: 0 <= i < |rs| && rs[i].nonRead && AllowsExplicitly(rs[i], tool)
  {
    if Authorized(v, id, tool) {
      var n :| n in RoleNames(v, Groups(id)) && n in v.roles && Allows(v.roles[n], tool);
      var i :| 0 <= i < |rs| && rs[i].name == n;
    }
    if AuthorizedNonRead(v, id, tool) {
      var n :| n in RoleNames(v, Groups(id)) && n in v.roles && v.roles[n].nonRead
               && AllowsExplicitly(v.roles[n], tool);
      var i :| 0 <= i < |rs| && rs[i].name == n;
    }
  }

  method NamesFor(groupToRole: map<string, string>, groups: seq<string>) returns (names: seq<string>)
    ensures forall n :: n in names <==>
              exists k :: 0 <= k < |groups| && groups[k] in groupToRole && groupToRole[groups[k]] == n
    ensures forall i, j :: 0 <= i < j < |names| ==> names[i] != names[j]
  {
    names := [];
    var i := 0;
    while i < |groups|
      invariant 0 <= i <= |groups|
      invariant forall n :: n in names <==>
                  exists k :: 0 <= k < i && groups[k] in groupToRole && groupToRole[groups[k]] == n
      invariant forall j, k :: 0 <= j < k < |names| ==> names[j] != names[k]
    {
      var g := groups[i];
      if g in groupToRole && groupToRole[g] !in names { names := names + [groupToRole[g]]; }
      i := i + 1;
    }
  }

  /** The sorted names of the roles an identity holds. */
  method SortedNames(groupToRole: map<string, string>, id: Identity, ghost v: PolicyView) returns (sorted: seq<string>)
    requires v.groupToRole == groupToRole
    ensures StrictlySorted(sorted) && forall n :: n in sorted <==> n in RoleNames(v, Groups(id))
  {
    var names := NamesFor(groupToRole, id.groups);
    sorted := Sort(names);
    forall n ensures n in names <==> n in RoleNames(v, Groups(id)) {
      if n in RoleNames(v, Groups(id)) {
        var g :| g in Groups(id) && g in v.groupToRole && v.groupToRole[g] == n;
        var k :| 0 <= k < |id.groups| && id.groups[k] == g;
        assert groupToRole[id.groups[k]] == n;
      }
    }
  }

  /** A stored role, copied. */
  method CopyStored(p: Policy, n: string, ghost v: PolicyView) returns (copy: RoleRef)
    requires p.Is(v) && n in v.roles
    ensures fresh(RoleObjects(copy)) && View(copy) == v.roles[n]
  {
    assert Shows(p.roles[n], p.Repr, v.roles[n]);
    copy := CloneRole(p.roles[n]);
    assert Shows(p.roles[n], p.Repr, v.roles[n]);
  }

  ghost predicate ShowAll(out: seq<RoleRef>, rs: seq<Role>, parts: set<object>)
    reads parts
  {
    |out| == |rs| && forall k :: 0 <= k < |out| ==> Shows(out[k], parts, rs[k])
  }

  lemma OneMore(out: seq<RoleRef>, rs: seq<Role>, parts: set<object>, copy: RoleRef, r: Role)
    requires ShowAll(out, rs, parts) && View(copy) == r
    ensures ShowAll(out + [copy], rs + [r], parts + RoleObjects(copy))
  {
    var parts' := parts + RoleObjects(copy);
    forall k | 0 <= k < |out| ensures Shows(out[k], parts', rs[k]) { assert Shows(out[k], parts, rs[k]); }
  }

  /** RolesFor: copied again on the way out, so what the caller gets shares no
      object with the policy. */
  method RolesFor(p: Policy, id: Identity, ghost v: PolicyView)
    returns (out: seq<RoleRef>, ghost rs: seq<Role>, ghost parts: set<object>)
    requires p.Is(v) && Sound(v)
    ensures fresh(parts) && ShowAll(out, rs, parts)
    ensures Resolved(rs, v, Groups(id))
  {
    var names := SortedNames(p.groupToRole, id, v);
    forall n <- names ensures n in v.roles { NameIsStored(v, id, n); }
    out, rs, parts := CopyAll(p, names, v);
    AreResolved(rs, v, names, Groups(id));
  }

  method CopyAll(p: Policy, names: seq<string>, ghost v: PolicyView)
    returns (out: seq<RoleRef>, ghost rs: seq<Role>, ghost parts: set<object>)
    requires p.Is(v) && forall n <- names :: n in v.roles
    ensures fresh(parts) && ShowAll(out, rs, parts) && NamedRoles(rs, v, names, |names|)
  {
    out, rs, parts := [], [], {};
    var i := 0;
    while i < |names|
      invariant 0 <= i <= |names| && NamedRoles(rs, v, names, i)
      invariant fresh(parts) && ShowAll(out, rs, parts)
    {
      out, rs, parts := AddCopy(p, names, i, v, out, rs, parts);
      i := i + 1;
    }
  }

  /** The roles the first i names name. */
  predicate NamedRoles(rs: seq<Role>, v: PolicyView, names: seq<string>, i: nat) {
    |rs| == i <= |names| && forall k :: 0 <= k < i ==> names[k] in v.roles && rs[k] == v.roles[names[k]]
  }

  method AddCopy(p: Policy, names: seq<string>, i: nat, ghost v: PolicyView, out: seq<RoleRef>, ghost rs: seq<Role>,
                 ghost parts: set<object>)
    returns (more: seq<RoleRef>, ghost rs': seq<Role>, ghost parts': set<object>)
    requires p.Is(v) && i < |names| && names[i] in v.roles && NamedRoles(rs, v, names, i) && ShowAll(out, rs, parts)
    ensures NamedRoles(rs', v, names, i + 1) && ShowAll(more, rs', parts')
    ensures parts <= parts' && fresh(parts' - parts)
  {
    var copy := CopyStored(p, names[i], v);
    OneMore(out, rs, parts, copy, v.roles[names[i]]);
    more, rs', parts' := out + [copy], rs + [v.roles[names[i]]], parts + RoleObjects(copy);
  }

  lemma NameIsStored(v: PolicyView, id: Identity, n: string)
    requires Sound(v) && n in RoleNames(v, Groups(id))
    ensures n in v.roles
  { }

  lemma AreResolved(rs: seq<Role>, v: PolicyView, names: seq<string>, groups: set<string>)
    requires Sound(v) && |rs| == |names| && StrictlySorted(names)
             && (forall n :: n in names <==> n in RoleNames(v, groups))
    requires NamedRoles(rs, v, names, |names|)
    ensures Resolved(rs, v, groups)
  {
    forall k | 0 <= k < |rs| ensures rs[k].name == names[k] { assert names[k] in names; }
    forall n <- RoleNames(v, groups) ensures exists i :: 0 <= i < |rs| && rs[i].name == n {
      var i :| 0 <= i < |names| && names[i] == n;
      assert rs[i].name == n;
    }
  }

  /** Some role of the list allows the tool. */
  method AnyAllows(roles: seq<RoleRef>, tool: string, ghost rs: seq<Role>, ghost parts: set<object>) returns (ok: bool)
    requires ShowAll(roles, rs, parts)
    ensures ok <==> exists i :: 0 <= i < |rs| && Allows(rs[i], tool)
  {
    var i := 0;
    while i < |roles|
      invariant 0 <= i <= |roles|
      invariant forall k :: 0 <= k < i ==> !Allows(rs[k], tool)
    {
      assert Shows(roles[i], parts, rs[i]);
      if Allows(View(roles[i]), tool) { return true; }
      i := i + 1;
    }
    return false;
  }

  /** Some role of the list is marked non_read and names the tool. */
  method AnyMarked(roles: seq<RoleRef>, tool: string, ghost rs: seq<Role>, ghost parts: set<object>) returns (ok: bool)
    requires ShowAll(roles, rs, parts)
    ensures ok <==> exists i :: 0 <= i < |rs| && rs[i].nonRead && AllowsExplicitly(rs[i], tool)
  {
    var i := 0;
    while i < |roles|
      invariant 0 <= i <= |roles|
      invariant forall k :: 0 <= k < i ==> !(rs[k].nonRead && AllowsExplicitly(rs[k], tool))
    {
      assert Shows(roles[i], parts, rs[i]);
      if roles[i].nonRead && AllowsExplicitly(View(roles[i]), tool) { return true; }
      i := i + 1;
    }
    return false;
  }

  method Authorize(p: Policy, id: Identity, tool: string, ghost v: PolicyView) returns (ok: bool)
    requires p.Is(v) && Sound(v)
    ensures ok <==> Authorized(v, id, tool)
  {
    var roles, rs, parts := RolesFor(p, id, v);
    ok := AnyAllows(roles, tool, rs, parts);
    ResolvedDecides(rs, v, id, tool);
  }

  method AuthorizeNonRead(p: Policy, id: Identity, tool: string, ghost v: PolicyView) returns (ok: bool)
    requires p.Is(v) && Sound(v)
    ensures ok <==> AuthorizedNonRead(v, id, tool)
  {
    var roles, rs, parts := RolesFor(p, id, v);
    ok := AnyMarked(roles, tool, rs, parts);
    ResolvedDecides(rs, v, id, tool);
  }

  /** One advertised tool, decided by the roles already resolved. */
  method Decide(roles: seq<RoleRef>, id: Identity, tool: string, ghost rs: seq<Role>, ghost parts: set<object>,
                ghost v: PolicyView) returns (ok: bool)
    requires ShowAll(roles, rs, parts) && Resolved(rs, v, Groups(id))
    ensures ok <==> Authorized(v, id, tool)
  {
    ok := AnyAllows(roles, tool, rs, parts);
    ResolvedDecides(rs, v, id, tool);
  }

  /** AllowedTools: sorted, without repetitions, exactly the advertised tools
      Authorize accepts. */
  method AllowedTools(p: Policy, id: Identity, advertised: seq<string>, ghost v: PolicyView) returns (out: seq<string>)
    requires p.Is(v) && Sound(v)
    ensures StrictlySorted(out)
    ensures forall t :: t in out <==> t in advertised && Authorized(v, id, t)
  {
    var roles, rs, parts := RolesFor(p, id, v);
    var kept := Filter(roles, id, advertised, rs, parts, v);
    out := Sort(kept);
  }

  method Filter(roles: seq<RoleRef>, id: Identity, advertised: seq<string>, ghost rs: seq<Role>,
                ghost parts: set<object>,
                ghost v: PolicyView) returns (kept: seq<string>)
    requires ShowAll(roles, rs, parts) && Resolved(rs, v, Groups(id))
    ensures forall t :: t in kept <==> t in advertised && Authorized(v, id, t)
  {
    kept := [];
    var i := 0;
    while i < |advertised|
      invariant 0 <= i <= |advertised|
      invariant forall t :: t in kept <==> t in advertised[..i] && Authorized(v, id, t)
    {
      var tool := advertised[i];
      assert advertised[..i + 1] == advertised[..i] + [tool];
      if tool !in kept {
        var allowed := Decide(roles, id, tool, rs, parts, v);
        if allowed { kept := kept + [tool]; }
      }
      i := i + 1;
    }
    assert advertised[..i] == advertised;
  }

  // ---- Nothing a caller keeps reaches the policy --------------------------------------------

  datatype Act =
    | WriteSlice(i: nat, text: string)
    | PutGrant(backend: string)
    | DropGrant(backend: string)
    | PutGroup(group: string, role: string)
    | DropGroup(group: string)
    | AskRoles(id: Identity)

  /** What a caller holds: everything it gave to NewPolicy, and everything
      RolesFor has returned to it. */
  class Caller {
    var slices: set<array<string>>
    var grantMaps: set<GrantMap>
    var groupMaps: set<GroupMap>

    ghost predicate Apart(p: Policy)
      reads this, p
    {
      && p as object != this && this !in p.Repr
      && (forall a <- slices :: a !in p.Repr)
      && (forall g <- grantMaps :: g !in p.Repr)
      && (forall g <- groupMaps :: g !in p.Repr)
    }

    constructor (slices: set<array<string>>, grantMaps: set<GrantMap>, groupMaps: set<GroupMap>)
      ensures this.slices == slices && this.grantMaps == grantMaps && this.groupMaps == groupMaps
    {
      this.slices, this.grantMaps, this.groupMaps := slices, grantMaps, groupMaps;
    }

    /** Any write to anything held: which object is left open. */
    method Write(act: Act, p: Policy, ghost v: PolicyView)
      requires p.Is(v) && Apart(p)
      modifies slices, grantMaps, groupMaps
      ensures p.Is(v) && Apart(p)
      ensures slices == old(slices) && grantMaps == old(grantMaps) && groupMaps == old(groupMaps)
    {
      match act
      case WriteSlice(i, text) =>
        if slices != {} {
          var a :| a in slices;
          if i < a.Length { a[i] := text; }
        }
      case PutGrant(backend) =>
        if grantMaps != {} && slices != {} {
          var g :| g in grantMaps;
          var a :| a in slices;
          g.m := g.m[backend := a];
        }
      case DropGrant(backend) =>
        if grantMaps != {} {
          var g :| g in grantMaps;
          g.m := map k | k in g.m && k != backend :: g.m[k];
        }
      case PutGroup(group, role) =>
        if groupMaps != {} {
          var g :| g in groupMaps;
          g.m := g.m[group := role];
        }
      case DropGroup(group) =>
        if groupMaps != {} {
          var g :| g in groupMaps;
          g.m := map k | k in g.m && k != group :: g.m[k];
        }
      case AskRoles(_) =>
    }

    /** RolesFor, and everything it returned kept to write to later. */
    method Ask(id: Identity, p: Policy, ghost v: PolicyView)
      requires p.Is(v) && Sound(v) && Apart(p)
      modifies this
      ensures p.Is(v) && Apart(p)
      ensures groupMaps == old(groupMaps)
      ensures forall a <- slices :: a in old(slices) || fresh(a)
      ensures forall g <- grantMaps :: g in old(grantMaps) || fresh(g)
    {
      var out, rs, parts := RolesFor(p, id, v);
      KeepAll(out, p, rs, parts);
    }

    method KeepAll(out: seq<RoleRef>, p: Policy, ghost rs: seq<Role>, ghost parts: set<object>)
      requires ShowAll(out, rs, parts) && parts !! p.Repr && this !in parts && Apart(p)
      modifies this
      ensures Apart(p) && groupMaps == old(groupMaps)
      ensures forall a <- slices :: a in old(slices) || a in parts
      ensures forall g <- grantMaps :: g in old(grantMaps) || g in parts
    {
      var i := 0;
      while i < |out|
        invariant 0 <= i <= |out|
        invariant ShowAll(out, rs, parts) && Apart(p) && groupMaps == old(groupMaps)
        invariant forall a <- slices :: a in old(slices) || a in parts
        invariant forall g <- grantMaps :: g in old(grantMaps) || g in parts
      {
        assert Shows(out[i], parts, rs[i]);
        Keep(out[i], p, parts);
        i := i + 1;
      }
    }

    method Keep(r: RoleRef, p: Policy, ghost parts: set<object>)
      requires Inside(r, parts) && parts !! p.Repr && this !in parts && Apart(p)
      modifies this
      ensures Apart(p) && groupMaps == old(groupMaps)
      ensures forall a <- slices :: a in old(slices) || a in parts
      ensures forall g <- grantMaps :: g in old(grantMaps) || g in parts
    {
      if r.tools != null { slices := slices + {r.tools}; }
      if r.grants != null {
        grantMaps := grantMaps + {r.grants};
        slices := slices + set k | k in r.grants.m.Keys && r.grants.m[k] != null :: r.grants.m[k];
      }
    }
  }

  /** Whatever a caller writes to what it holds, however often it asks for
      roles and writes to those, the policy is by its value what it was: no
      answer of Authorize, AuthorizeNonRead or AllowedTools changes. */
  method NoWriteReachesThePolicy(c: Caller, p: Policy, script: seq<Act>, ghost v: PolicyView)
    requires p.Is(v) && Sound(v) && c.Apart(p)
    modifies c, c.slices, c.grantMaps, c.groupMaps
    ensures p.Is(v)
  {
    var i := 0;
    while i < |script|
      invariant 0 <= i <= |script|
      invariant p.Is(v) && c.Apart(p)
      invariant c.groupMaps == old(c.groupMaps)
      invariant forall a <- c.slices :: a in old(c.slices) || fresh(a)
      invariant forall g <- c.grantMaps :: g in old(c.grantMaps) || fresh(g)
    {
      if script[i].AskRoles? {
        c.Ask(script[i].id, p, v);
      } else {
        c.Write(script[i], p, v);
      }
      i := i + 1;
    }
  }

  datatype Answers = Refused | Answers(authorized: bool, nonRead: bool, allowed: seq<string>)

  method AskAll(p: Policy, id: Identity, tool: string, advertised: seq<string>, ghost v: PolicyView)
    returns (a: Answers)
    requires p.Is(v) && Sound(v)
    ensures a.Answers? && StrictlySorted(a.allowed)
    ensures a.authorized <==> Authorized(v, id, tool)
    ensures a.nonRead <==> AuthorizedNonRead(v, id, tool)
    ensures forall t :: t in a.allowed <==> t in advertised && Authorized(v, id, t)
  {
    var ok := Authorize(p, id, tool, v);
    var nonRead := AuthorizeNonRead(p, id, tool, v);
    var allowed := AllowedTools(p, id, advertised, v);
    a := Answers(ok, nonRead, allowed);
  }

  /** What a policy of these roles and groups answers. */
  ghost predicate AnswersOf(a: Answers, vs: seq<Role>, groups: map<string, string>, id: Identity, tool: string,
                            advertised: seq<string>)
    requires a.Answers?
  {
    exists v: PolicyView ::
      && Holds(v, vs, groups) && a.authorized == Authorized(v, id, tool)
      && a.nonRead == AuthorizedNonRead(v, id, tool) && StrictlySorted(a.allowed)
      && forall t :: t in a.allowed <==> t in advertised && Authorized(v, id, t)
  }

  /** Build a policy; let the caller, who holds whatever it likes of what was
      given, write and ask as the script says; ask the same questions again:
      the answers are the same, and those of the roles and groups as given. */
  method AnswersDoNotChange(roles: seq<RoleRef>, groups: GroupMap?, c: Caller, script: seq<Act>,
                            id: Identity, tool: string, advertised: seq<string>,
                            ghost vs: seq<Role>, ghost given: set<object>)
    returns (before: Answers, after: Answers)
    requires |vs| == |roles| && forall k :: 0 <= k < |roles| ==> Shows(roles[k], given, vs[k])
    modifies c, c.slices, c.grantMaps, c.groupMaps
    ensures before == after
    ensures before.Answers? <==> GoodRoles(vs) && GoodGroups(old(GroupEntries(groups)), Names(vs))
    ensures before.Answers? ==> AnswersOf(before, vs, old(GroupEntries(groups)), id, tool, advertised)
  {
    var p := NewPolicy(roles, groups, vs, given);
    if p == null { return Refused, Refused; }
    ghost var v := p.PolicyOf();
    before := AskAll(p, id, tool, advertised, v);
    NoWriteReachesThePolicy(c, p, script, v);
    after := AskAll(p, id, tool, advertised, v);
    SortedIsUnique(before.allowed, after.allowed);
  }
}
