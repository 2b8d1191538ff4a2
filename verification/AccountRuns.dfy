/** Any script of account actions, in one service: what UnmanagedAreFrozen and
    NoUnmappedGroupIsGained say of histories holds of its runs. */
module AccountRuns {
  import opened Service
  import opened Accounts
  import O = Offboard

  datatype Act =
    | Add(account: NewAccount, generated: string)
    | SetGroups(username: string, groups: seq<string>)
    | SetDisabled(username: string, disabled: bool)
    | Reset(username: string, generated: string)
    | Delete(username: string)
    | OffboardPerson(username: string, request: O.Request)

  method Perform(s: Service, mapped: set<string>, a: Actor, act: Act, hash: string -> string, valid: NewAccount -> bool)
    requires s.Valid()
    modifies s`clock, s`step, s`blocks, s`accounts, s`trail
    ensures s.Valid() && Permitted(a, mapped, old(s.accounts), s.accounts)
  {
    match act
    case Add(n, generated) => var _, _, _ := AddAccount(s, mapped, a, n, generated, hash, valid);
    case SetGroups(u, groups) => var _, _ := SetAccountGroups(s, mapped, a, u, groups);
    case SetDisabled(u, disabled) => var _, _ := SetAccountDisabled(s, mapped, a, u, disabled);
    case Reset(u, generated) => var _, _, _ := ResetAccountPassword(s, mapped, a, u, generated, hash);
    case Delete(u) => var _, _ := DeleteAccount(s, mapped, a, u);
    case OffboardPerson(u, req) => var _, _, _ := O.Offboard(s, mapped, a, u, req);
  }

  function ActorsOf(script: seq<(Actor, Act)>): seq<Actor> {
    seq(|script|, k requires 0 <= k < |script| => script[k].0)
  }

  lemma HistorySnoc(actors: seq<Actor>, a: Actor, mapped: set<string>, states: seq<Directory>, d: Directory)
    requires History(actors, mapped, states) && Permitted(a, mapped, states[|states| - 1], d)
    ensures History(actors + [a], mapped, states + [d])
  {
    var more, all := states + [d], actors + [a];
    forall k | 0 <= k < |all| ensures Permitted(all[k], mapped, more[k], more[k + 1]) {
      if k < |actors| { assert more[k] == states[k] && more[k + 1] == states[k + 1] && all[k] == actors[k]; }
    }
  }

  /** By actors none of whom is root: what Gatte did not manage when the run
      began is as it was, and no account ends with an unmapped group it did not
      have. */
  method RunScript(s: Service, mapped: set<string>, script: seq<(Actor, Act)>, hash: string -> string,
                   valid: NewAccount -> bool)
    requires s.Valid()
    modifies s`clock, s`step, s`blocks, s`accounts, s`trail
    ensures s.Valid()
    ensures (forall k :: 0 <= k < |script| ==> !script[k].0.root) ==>
              forall u <- old(s.accounts) :: !Managed(mapped, old(s.accounts)[u]) ==>
                u in s.accounts && s.accounts[u] == old(s.accounts)[u]
    ensures forall u <- s.accounts, g <- s.accounts[u].groups ::
              g in mapped || (u in old(s.accounts) && g in old(s.accounts)[u].groups)
  {
    ghost var states := [s.accounts];
    var i := 0;
    while i < |script|
      invariant 0 <= i <= |script| && s.Valid()
      invariant History(ActorsOf(script[..i]), mapped, states) && states[0] == old(s.accounts)
                && states[i] == s.accounts
    {
      Perform(s, mapped, script[i].0, script[i].1, hash, valid);
      HistorySnoc(ActorsOf(script[..i]), script[i].0, mapped, states, s.accounts);
      assert ActorsOf(script[..i]) + [script[i].0] == ActorsOf(script[..i + 1]);
      states := states + [s.accounts];
      i := i + 1;
    }
    assert script[..i] == script;
    Ends(script, mapped, states);
  }

  lemma Ends(script: seq<(Actor, Act)>, mapped: set<string>, states: seq<Directory>)
    requires History(ActorsOf(script), mapped, states)
    ensures var d, e := states[0], states[|script|];
            && ((forall k :: 0 <= k < |script| ==> !script[k].0.root) ==>
                  forall u <- d :: !Managed(mapped, d[u]) ==> u in e && e[u] == d[u])
            && (forall u <- e, g <- e[u].groups :: g in mapped || (u in d && g in d[u].groups))
  {
    var d, e := states[0], states[|script|];
    if forall k :: 0 <= k < |script| ==> !script[k].0.root {
      forall u <- d | !Managed(mapped, d[u]) ensures u in e && e[u] == d[u] {
        UnmanagedAreFrozen(ActorsOf(script), mapped, states, 0, |script|, u);
      }
    }
    forall u <- e, g <- e[u].groups | g !in mapped ensures u in d && g in d[u].groups {
      NoUnmappedGroupIsGained(ActorsOf(script), mapped, states, |script|, u, g);
    }
  }
}
