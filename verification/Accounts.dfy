/** The identity provider's accounts as operators change them: which accounts
    are in reach, which groups may be given, and the actions
    (internal/admin/accounts.go; DeleteAccount in internal/admin/offboard.go).
    mapped is the set of groups [group_to_role] names. */
module Accounts {
  import opened GoText
  import opened Blocks
  import opened Service
  import opened Sorting
  import A = Access

  type Directory = map<string, Account>

  /** Gatte manages the account: it has a group, and every group is mapped. */
  predicate Managed(mapped: set<string>, acct: Account) {
    acct.groups != [] && forall g <- acct.groups :: g in mapped
  }

  /** inReach. */
  predicate Reaches(a: Actor, mapped: set<string>, acct: Account) { a.root || Managed(mapped, acct) }

  // ---- What any action may do to the users file --------------------------------------

  /** Every account but those in the actor's reach is as it was, and no account
      has an unmapped group it did not have. */
  ghost predicate Permitted(a: Actor, mapped: set<string>, d: Directory, e: Directory) {
    && (forall u <- d :: (u in e && e[u] == d[u]) || Reaches(a, mapped, d[u]))
    && (forall u <- e, g <- e[u].groups :: g in mapped || (u in d && g in d[u].groups))
  }

  lemma NothingIsPermitted(a: Actor, mapped: set<string>, d: Directory)
    ensures Permitted(a, mapped, d, d)
  { }

  /** A history of the users file: each state comes from the one before by an
      action of the actor beside it. */
  ghost predicate History(actors: seq<Actor>, mapped: set<string>, states: seq<Directory>) {
    && |states| == |actors| + 1
    && forall k :: 0 <= k < |actors| ==> Permitted(actors[k], mapped, states[k], states[k + 1])
  }

  /** An account Gatte does not manage is frozen from that moment on: no run of
      actions by anyone but root edits, disables, resets, overwrites or deletes
      it. */
  lemma {:induction false} UnmanagedAreFrozen(actors: seq<Actor>, mapped: set<string>, states: seq<Directory>, i: nat,
                                              j: nat, u: string)
    requires History(actors, mapped, states) && i <= j < |states|
    requires forall k :: i <= k < j ==> !actors[k].root
    requires u in states[i] && !Managed(mapped, states[i][u])
    ensures u in states[j] && states[j][u] == states[i][u]
    decreases j
  {
    if i < j {
      UnmanagedAreFrozen(actors, mapped, states, i, j - 1, u);
      assert Permitted(actors[j - 1], mapped, states[j - 1], states[j - 1 + 1]);
    }
  }

  /** No account ever gains an unmapped group, by anyone's hand, root's
      included: what is unmapped now was there at the start. */
  lemma {:induction false} NoUnmappedGroupIsGained(actors: seq<Actor>, mapped: set<string>, states: seq<Directory>,
                                                   j: nat, u: string, g: string)
    requires History(actors, mapped, states) && j < |states|
    requires u in states[j] && g in states[j][u].groups && g !in mapped
    ensures u in states[0] && g in states[0][u].groups
    decreases j
  {
    if j > 0 {
      assert Permitted(actors[j - 1], mapped, states[j - 1], states[j - 1 + 1]);
      NoUnmappedGroupIsGained(actors, mapped, states, j - 1, u, g);
    }
  }

  // ---- Group lists ---------------------------------------------------------------------

  /** mappedGroups: sorted and without repetition, or refused. */
  method MappedGroups(mapped: set<string>, groups: seq<string>) returns (out: Option<seq<string>>)
    ensures out.Some? <==> forall g <- groups :: g in mapped
    ensures out.Some? ==> StrictlySorted(out.value) && forall g :: g in out.value <==> g in groups
  {
    var kept: seq<string> := [];
    var seen: set<string> := {};
    var i := 0;
    while i < |groups|
      invariant 0 <= i <= |groups|
      invariant forall k :: 0 <= k < i ==> groups[k] in mapped
      invariant forall g :: g in kept <==> g in groups[..i]
      invariant forall g :: g in seen <==> g in kept
    {
      var g := groups[i];
      if g !in mapped { return None; }
      if g !in seen {
        seen := seen + {g};
        kept := kept + [g];
      }
      i := i + 1;
    }
    assert groups[..i] == groups;
    var sorted := Sort(kept);
    out := Some(sorted);
  }

  const NUL: char := '\0'

  /** strings.Join(parts, "\x00"). */
  function Joined(parts: seq<string>): string {
    if parts == [] then "" else if |parts| == 1 then parts[0] else parts[0] + [NUL] + Joined(parts[1..])
  }

  predicate NulFree(parts: seq<string>) { forall p <- parts :: p != "" && NUL !in p }

  /** s up to its first NUL. */
  function Head(s: string): string { if s == "" || s[0] == NUL then "" else [s[0]] + Head(s[1..]) }

  lemma {:induction false} HeadStops(p: string, rest: string)
    requires NUL !in p && (rest == "" || rest[0] == NUL)
    ensures Head(p + rest) == p
  {
    if p == "" {
      assert p + rest == rest;
    } else {
      HeadStops(p[1..], rest);
      assert (p + rest)[1..] == p[1..] + rest;
    }
  }

  /** What follows the first part: nothing, or a NUL and the other parts. */
  function Tail(x: seq<string>): string
    requires x != []
  {
    if |x| == 1 then "" else [NUL] + Joined(x[1..])
  }

  lemma JoinedSplits(x: seq<string>)
    requires x != [] && NulFree(x)
    ensures Joined(x) == x[0] + Tail(x) && Head(Joined(x)) == x[0] && Joined(x) != ""
  {
    assert x[0] in x;
    assert Joined(x) == x[0] + Tail(x);
    HeadStops(x[0], Tail(x));
  }

  /** Joining plain names loses nothing, so comparing joined lists compares the
      lists. */
  lemma {:induction false} JoinedIsInjective(x: seq<string>, y: seq<string>)
    requires NulFree(x) && NulFree(y) && Joined(x) == Joined(y)
    ensures x == y
    decreases |x|
  {
    if x != [] { JoinedSplits(x); }
    if y != [] { JoinedSplits(y); }
    if x != [] && y != [] {
      TailsAgree(x, y);
      if |x| > 1 { JoinedIsInjective(x[1..], y[1..]); }
      assert x == [x[0]] + x[1..] && y == [y[0]] + y[1..];
    }
  }

  lemma TailsAgree(x: seq<string>, y: seq<string>)
    requires x != [] && y != [] && NulFree(x) && NulFree(y) && Joined(x) == Joined(y)
    ensures x[0] == y[0] && (|x| == 1 <==> |y| == 1) && Joined(x[1..]) == Joined(y[1..])
    ensures NulFree(x[1..]) && NulFree(y[1..])
  {
    JoinedSplits(x);
    JoinedSplits(y);
    assert Tail(x) == (x[0] + Tail(x))[|x[0]|..] && Tail(y) == (y[0] + Tail(y))[|x[0]|..];
    AfterNul(x);
    AfterNul(y);
    forall p <- x[1..] ensures p in x { }
    forall p <- y[1..] ensures p in y { }
  }

  lemma AfterNul(x: seq<string>)
    requires x != []
    ensures if |x| == 1 then Tail(x) == "" && Joined(x[1..]) == "" else Tail(x) != "" && Joined(x[1..]) == Tail(x)[1..]
  { }

  // ---- The actions ------------------------------------------------------------------------

  /** directory: the configuration, then the account store it names. */
  method OpenDirectory(s: Service) returns (err: Option<Code>)
    modifies s`step
    ensures s.step > old(s.step)
    ensures err.None? || err == Some(ConfigUnavailable)
    ensures old(s.Healthy()) ==> err.None?
  {
    var config := s.Port();
    if config != Fine { return Some(ConfigUnavailable); }
    var store := s.Port();
    err := if store == Fine then None else Some(ConfigUnavailable);
  }

  method FindAccount(s: Service, username: string) returns (acct: Option<Account>, err: Code)
    modifies s`step
    ensures s.step > old(s.step)
    ensures acct.Some? ==> username in s.accounts && acct.value == s.accounts[username]
    ensures acct.None? ==> err == Internal || (err == NotFound && username !in s.accounts)
    ensures old(s.Healthy()) ==> (acct.Some? <==> username in s.accounts)
  {
    var f := s.Port();
    if f != Fine { return None, Internal; }
    if username !in s.accounts { return None, NotFound; }
    acct, err := Some(s.accounts[username]), Internal;
  }

  /** The account an action may change: found and in reach. */
  method Reachable(s: Service, a: Actor, mapped: set<string>, username: string)
    returns (acct: Option<Account>, err: Code)
    modifies s`step
    ensures s.step > old(s.step)
    ensures acct.Some? ==> username in s.accounts && acct.value == s.accounts[username]
                           && Reaches(a, mapped, acct.value)
    ensures acct.None? ==> err == Internal || (err == NotFound && username !in s.accounts)
                           || (err == AccountNotManaged && username in s.accounts
                               && !Reaches(a, mapped, s.accounts[username]))
    ensures old(s.Healthy()) ==> (acct.Some? <==> username in s.accounts && Reaches(a, mapped, s.accounts[username]))
  {
    acct, err := FindAccount(s, username);
    if acct.Some? && !Reaches(a, mapped, acct.value) { return None, AccountNotManaged; }
  }

  function AccountRow(a: Actor, tool: Tool, username: string, groups: Option<seq<string>>, at: Time): Row {
    OperatorRow(a, tool, OfAccount(username, groups, Tag(a)), at)
  }

  /** An answer is all or nothing: changed, with the users file as the target
      says and the row on the trail exactly when the answer says recorded; or
      nothing changed and nothing written. */
  predicate ChangeOutcome(a: Actor, tool: Tool, username: string, groups: Option<seq<string>>, target: Directory,
                          d: Directory, e: Directory, trail0: seq<Row>, trail1: seq<Row>,
                          res: ActionResult, err: Option<Code>) {
    if res.changed then
      && err.None? && e == target
      && (if res.recorded then
            res.audit.Some? && trail1 == trail0 + [res.audit.value]
            && res.audit.value == AccountRow(a, tool, username, groups, res.audit.value.at)
               && res.warnings == [IdpReload]
          else
            res.audit.None? && trail1 == trail0 && res.warnings == [IdpReload, AuditWriteFailed])
    else
      e == d && trail1 == trail0 && res == NEW_RESULT
  }

  /** accountChange, once the change took effect: record it. */
  method RecordChange(s: Service, a: Actor, tool: Tool, username: string, groups: Option<seq<string>>,
                      ghost d: Directory)
    returns (res: ActionResult)
    requires s.Valid()
    modifies s`clock, s`step, s`trail
    ensures s.Valid() && res.changed
    ensures ChangeOutcome(a, tool, username, groups, s.accounts, d, s.accounts, old(s.trail), s.trail, res, None)
    ensures old(s.Healthy()) ==> res.recorded
  {
    var at := s.Now();
    res := s.Record(ActionResult(true, false, None, [IdpReload]), AccountRow(a, tool, username, groups, at));
  }

  function WithGroups(d: Directory, u: string, groups: seq<string>): Directory
    requires u in d
  {
    d[u := d[u].(groups := groups)]
  }

  function WithDisabled(d: Directory, u: string, disabled: bool): Directory
    requires u in d
  {
    d[u := d[u].(disabled := disabled)]
  }

  function WithHash(d: Directory, u: string, hash: string): Directory
    requires u in d
  {
    d[u := d[u].(hash := hash)]
  }

  datatype NewAccount = NewAccount(username: string, displayName: string, email: string, groups: seq<string>)

  function Trimmed(n: NewAccount, groups: seq<string>, hash: string): Account {
    Account(A.TrimSpace(n.displayName), A.TrimSpace(n.email), groups, false, hash)
  }

  /** Add on the users file: refused when the name is taken. */
  method AddEntry(s: Service, u: string, acct: Account) returns (err: Option<Code>)
    modifies s`step, s`accounts
    ensures s.step > old(s.step)
    ensures err.Some? ==> s.accounts == old(s.accounts)
    ensures err.None? ==> u !in old(s.accounts) && s.accounts == old(s.accounts)[u := acct]
    ensures err == Some(AccountExists) ==> u in old(s.accounts)
    ensures old(s.Healthy()) && u !in old(s.accounts) ==> err.None?
  {
    var f := s.Port();
    if f != Fine { return Some(Internal); }
    if u in s.accounts { return Some(AccountExists); }
    s.accounts := s.accounts[u := acct];
    err := None;
  }

  /** AddAccount: a new name, mapped groups only. The one-time password is
      handed over exactly when the account was created with its hash. */
  method AddAccount(s: Service, mapped: set<string>, a: Actor, n: NewAccount, generated: string,
                    hash: string -> string, valid: NewAccount -> bool)
    returns (res: ActionResult, err: Option<Code>, password: Option<string>)
    requires s.Valid()
    modifies s`clock, s`step, s`accounts, s`trail
    ensures s.Valid() && Permitted(a, mapped, old(s.accounts), s.accounts)
    ensures var u := A.TrimSpace(n.username);
            && (res.changed ==> u !in old(s.accounts) && u in s.accounts && StrictlySorted(s.accounts[u].groups)
                                && s.accounts[u] == Trimmed(n, s.accounts[u].groups, hash(generated))
                                && (forall g :: g in s.accounts[u].groups <==> g in n.groups))
            && ChangeOutcome(a, AccountAdd, u, if res.changed then Some(s.accounts[u].groups) else None,
                             if res.changed then old(s.accounts)[u := s.accounts[u]] else old(s.accounts),
                             old(s.accounts), s.accounts, old(s.trail), s.trail, res, err)
            && password == (if res.changed then Some(generated) else None)
    ensures res.changed <==> err.None?
    ensures err == Some(AccountExists) ==> A.TrimSpace(n.username) in old(s.accounts)
    ensures old(s.Healthy()) ==>
              (err.None? <==> Attributable(a) && (forall g <- n.groups :: g in mapped) && valid(n)
                              && A.TrimSpace(n.username) !in old(s.accounts))
  {
    res, password := NEW_RESULT, None;
    NothingIsPermitted(a, mapped, s.accounts);
    if !Attributable(a) { return NEW_RESULT, Some(PeerUnattributable), None; }
    err := OpenDirectory(s);
    if err.Some? { return; }
    var u := A.TrimSpace(n.username);
    var groups := MappedGroups(mapped, n.groups);
    if groups.None? { return NEW_RESULT, Some(GroupNotMapped), None; }
    if !valid(n) { return NEW_RESULT, Some(InvalidArgument), None; }
    var cur, _ := FindAccount(s, u);
    if cur.Some? { return NEW_RESULT, Some(AccountExists), None; }
    var random := s.Port();
    if random != Fine { return NEW_RESULT, Some(Internal), None; }
    err := AddEntry(s, u, Trimmed(n, groups.value, hash(generated)));
    if err.Some? { return; }
    res := RecordChange(s, a, AccountAdd, u, groups, old(s.accounts));
    password := Some(generated);
  }

  /** SetAccountGroups' test that nothing would change: the sorted lists joined
      are the same string. For plain names it means the same groups, as often. */
  method SameGroups(have: seq<string>, groups: seq<string>) returns (same: bool)
    requires StrictlySorted(groups)
    ensures NulFree(have) && NulFree(groups) ==> (same <==> multiset(have) == multiset(groups))
  {
    var sorted := SortStrings(have);
    same := Joined(sorted) == Joined(groups);
    forall i, j | 0 <= i < j < |groups| ensures !Less(groups[j], groups[i]) { LessIsTotal(groups[i], groups[j]); }
    forall g <- sorted ensures g in have { assert g in multiset(sorted); }
    if NulFree(have) && NulFree(groups) {
      if same { JoinedIsInjective(sorted, groups); }
      if multiset(have) == multiset(groups) { SortedIsTheOnlyOne(sorted, groups); }
    }
  }

  /** The start every edit shares: the actor, the directory, the account in
      reach. */
  method Begin(s: Service, a: Actor, mapped: set<string>, username: string)
    returns (cur: Option<Account>, err: Option<Code>)
    modifies s`step
    ensures s.step >= old(s.step) && (cur.Some? <==> err.None?)
    ensures cur.Some? ==> Attributable(a) && username in s.accounts && cur.value == s.accounts[username]
                          && Reaches(a, mapped, cur.value)
    ensures err == Some(AccountNotManaged) ==> username in s.accounts && !Reaches(a, mapped, s.accounts[username])
    ensures old(CanEdit(s, a, mapped, username)) ==> err.None?
  {
    cur := None;
    if !Attributable(a) { return None, Some(PeerUnattributable); }
    err := OpenDirectory(s);
    if err.Some? { return; }
    var code;
    cur, code := Reachable(s, a, mapped, username);
    if cur.None? { err := Some(code); }
  }

  /** One edit of an account that is there. */
  method Store(s: Service, username: string, acct: Account) returns (err: Option<Code>)
    requires username in s.accounts
    modifies s`step, s`accounts
    ensures s.step > old(s.step)
    ensures s.accounts == if err.None? then old(s.accounts)[username := acct] else old(s.accounts)
    ensures old(s.Healthy()) ==> err.None?
  {
    var f := s.Port();
    if f != Fine { return Some(Internal); }
    s.accounts := s.accounts[username := acct];
    err := None;
  }

  /** Someone in reach of the account can have the edit made. */
  ghost predicate CanEdit(s: Service, a: Actor, mapped: set<string>, username: string)
    reads s
  {
    s.Healthy() && Attributable(a) && username in s.accounts && Reaches(a, mapped, s.accounts[username])
  }

  method SetAccountGroups(s: Service, mapped: set<string>, a: Actor, username: string, groups: seq<string>)
    returns (res: ActionResult, err: Option<Code>)
    requires s.Valid()
    modifies s`clock, s`step, s`accounts, s`trail
    ensures s.Valid() && Permitted(a, mapped, old(s.accounts), s.accounts)
    ensures res.changed ==> && username in old(s.accounts) && username in s.accounts
                            && StrictlySorted(s.accounts[username].groups)
                            && (forall g :: g in s.accounts[username].groups <==> g in groups)
    ensures ChangeOutcome(a, AccountGroups, username, if res.changed then Some(s.accounts[username].groups) else None,
                          if res.changed then WithGroups(old(s.accounts), username, s.accounts[username].groups)
                          else old(s.accounts),
                          old(s.accounts), s.accounts, old(s.trail), s.trail, res, err)
    ensures old(CanEdit(s, a, mapped, username)) && (forall g <- groups :: g in mapped) ==> err.None?
    ensures err.None? && !res.changed && username in s.accounts && NulFree(s.accounts[username].groups)
            && NulFree(groups) ==>
              forall g :: g in s.accounts[username].groups <==> g in groups
    ensures err.None? ==> username in s.accounts && forall g <- groups :: g in mapped
  {
    res := NEW_RESULT;
    NothingIsPermitted(a, mapped, s.accounts);
    var cur;
    cur, err := Begin(s, a, mapped, username);
    if err.Some? { return; }
    var sorted := MappedGroups(mapped, groups);
    if sorted.None? { return NEW_RESULT, Some(GroupNotMapped); }
    var same := SameGroups(cur.value.groups, sorted.value);
    if same {
      SameSets(cur.value.groups, sorted.value, groups);
      return NEW_RESULT, None;
    }
    err := Store(s, username, cur.value.(groups := sorted.value));
    if err.Some? { return; }
    res := RecordChange(s, a, AccountGroups, username, sorted, old(s.accounts));
  }

  lemma SameSets(have: seq<string>, sorted: seq<string>, groups: seq<string>)
    requires forall g :: g in sorted <==> g in groups
    requires NulFree(have) && NulFree(sorted) ==> multiset(have) == multiset(sorted)
    ensures NulFree(have) && NulFree(groups) ==> forall g :: g in have <==> g in groups
  {
    if NulFree(have) && NulFree(groups) {
      forall g ensures g in have <==> g in groups {
        assert g in have <==> g in multiset(have);
        assert g in sorted <==> g in multiset(sorted);
      }
    }
  }

  method SetAccountDisabled(s: Service, mapped: set<string>, a: Actor, username: string, disabled: bool)
    returns (res: ActionResult, err: Option<Code>)
    requires s.Valid()
    modifies s`clock, s`step, s`accounts, s`trail
    ensures s.Valid() && Permitted(a, mapped, old(s.accounts), s.accounts)
    ensures res.changed ==> username in old(s.accounts) && old(s.accounts)[username].disabled != disabled
    ensures ChangeOutcome(a, if disabled then AccountDisable else AccountEnable, username, None,
                          if res.changed then WithDisabled(old(s.accounts), username, disabled) else old(s.accounts),
                          old(s.accounts), s.accounts, old(s.trail), s.trail, res, err)
    ensures err.None? ==> username in s.accounts && s.accounts[username].disabled == disabled
    ensures old(CanEdit(s, a, mapped, username)) ==> err.None?
  {
    res := NEW_RESULT;
    NothingIsPermitted(a, mapped, s.accounts);
    var cur;
    cur, err := Begin(s, a, mapped, username);
    if err.Some? || cur.value.disabled == disabled { return; }
    err := Store(s, username, cur.value.(disabled := disabled));
    if err.Some? { return; }
    res := RecordChange(s, a, if disabled then AccountDisable else AccountEnable, username, None, old(s.accounts));
  }

  method ResetAccountPassword(s: Service, mapped: set<string>, a: Actor, username: string, generated: string,
                              hash: string -> string)
    returns (res: ActionResult, err: Option<Code>, password: Option<string>)
    requires s.Valid()
    modifies s`clock, s`step, s`accounts, s`trail
    ensures s.Valid() && Permitted(a, mapped, old(s.accounts), s.accounts)
    ensures res.changed <==> err.None?
    ensures res.changed ==> username in old(s.accounts)
    ensures ChangeOutcome(a, AccountReset, username, None,
                          if res.changed then WithHash(old(s.accounts), username, hash(generated)) else old(s.accounts),
                          old(s.accounts), s.accounts, old(s.trail), s.trail, res, err)
    ensures password == if res.changed then Some(generated) else None
    ensures old(CanEdit(s, a, mapped, username)) ==> err.None?
  {
    res, password := NEW_RESULT, None;
    NothingIsPermitted(a, mapped, s.accounts);
    var cur;
    cur, err := Begin(s, a, mapped, username);
    if err.Some? { return; }
    var random := s.Port();
    if random != Fine { return NEW_RESULT, Some(Internal), None; }
    err := Store(s, username, cur.value.(hash := hash(generated)));
    if err.Some? { return; }
    res := RecordChange(s, a, AccountReset, username, None, old(s.accounts));
    password := Some(generated);
  }

  method DeleteAccount(s: Service, mapped: set<string>, a: Actor, username: string)
    returns (res: ActionResult, err: Option<Code>)
    requires s.Valid()
    modifies s`clock, s`step, s`accounts, s`trail
    ensures s.Valid() && Permitted(a, mapped, old(s.accounts), s.accounts)
    ensures res.changed <==> err.None?
    ensures res.changed ==> username in old(s.accounts)
    ensures ChangeOutcome(a, AccountDelete, username,
                          if res.changed then Some(old(s.accounts)[username].groups) else None,
                          if res.changed then old(s.accounts) - {username} else old(s.accounts),
                          old(s.accounts), s.accounts, old(s.trail), s.trail, res, err)
    ensures old(CanEdit(s, a, mapped, username)) ==> err.None?
  {
    res := NEW_RESULT;
    NothingIsPermitted(a, mapped, s.accounts);
    var cur;
    cur, err := Begin(s, a, mapped, username);
    if err.Some? { return; }
    var f := s.Port();
    if f != Fine { return NEW_RESULT, Some(Internal); }
    s.accounts := s.accounts - {username};
    res := RecordChange(s, a, AccountDelete, username, Some(cur.value.groups), old(s.accounts));
  }
}
