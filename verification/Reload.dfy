/** Reloading the configuration of a running gateway: all of its reloadable part
    or none of it (cmd/mcp-gateway/serve_control.go, reloadConfig; serve.go and
    internal/config/load.go for what a policy and a gate are built from). */
module Reload {
  import opened GoText
  import opened Access
  import P = PolicyHeap

  /** A part of the file by its text. */
  datatype Section = Section(text: string)

  /** The file: the four reloadable keys, and every other key. */
  datatype Config = Config(roles: seq<Role>, groups: map<string, string>, quota: Section, rolesFile: string,
                           rest: map<string, Section>)

  /** A quota gate: the plan it holds, over the counters every gate shares. */
  datatype Gate = Gate(plan: Section)

  /** ApplyPolicy: both at once, or neither. */
  datatype Application = Took | QuotaMisconfigured | RegistryUnavailable | OtherFailure

  /** One reload: what the file says now (None: it does not load, or there is
      no path to it) and how the gateway takes it. */
  datatype Event = Event(file: Option<Config>, apply: Application)

  datatype Refusal = InvalidConfig | QuotaMismatch | RegistryDown

  // ---- What is built from a configuration ------------------------------------------

  function ByName(vs: seq<Role>): map<string, Role> {
    if vs == [] then map[] else ByName(vs[..|vs| - 1])[vs[|vs| - 1].name := vs[|vs| - 1]]
  }

  predicate GoodPolicy(cfg: Config) { P.GoodRoles(cfg.roles) && P.GoodGroups(cfg.groups, P.Names(cfg.roles)) }

  function PolicyOf(cfg: Config): P.PolicyView { P.PolicyView(ByName(cfg.roles), cfg.groups) }

  lemma {:induction false} ByNameHolds(vs: seq<Role>)
    requires P.GoodRoles(vs)
    ensures ByName(vs).Keys == P.Names(vs) && forall i :: 0 <= i < |vs| ==> ByName(vs)[vs[i].name] == vs[i]
  {
    if vs != [] {
      var n := |vs| - 1;
      P.GoodPrefix(vs, n);
      P.GoodSnoc(vs, n);
      assert vs[..n + 1] == vs;
      ByNameHolds(vs[..n]);
      forall i | 0 <= i < |vs| ensures ByName(vs)[vs[i].name] == vs[i] {
        if i < n { assert vs[..n][i] == vs[i]; }
      }
    }
  }

  /** The policy built is the one NewPolicy builds: these roles, these groups. */
  lemma PolicyIsBuilt(cfg: Config)
    requires GoodPolicy(cfg)
    ensures P.Holds(PolicyOf(cfg), cfg.roles, cfg.groups) && P.Sound(PolicyOf(cfg))
  {
    ByNameHolds(cfg.roles);
    var p := PolicyOf(cfg);
    forall n <- p.roles.Keys ensures p.roles[n].name == n && WellFormed(p.roles[n]) {
      assert n in P.Names(cfg.roles);
      var i :| 0 <= i < |cfg.roles| && cfg.roles[i].name == n;
      assert cfg.roles[i] in cfg.roles;
    }
  }

  // ---- A reload by its effect ---------------------------------------------------------

  function Judge(planOk: Section -> bool, e: Event): Option<Refusal> {
    if e.file.None? || !GoodPolicy(e.file.value) || !planOk(e.file.value.quota) then Some(InvalidConfig)
    else match e.apply
      case Took => None
      case QuotaMisconfigured => Some(QuotaMismatch)
      case RegistryUnavailable => Some(RegistryDown)
      case OtherFailure => Some(InvalidConfig)
  }

  /** The file the process started with, with the reloadable part of another. */
  function Merge(cfg: Config, next: Config): Config {
    cfg.(roles := next.roles, groups := next.groups, quota := next.quota, rolesFile := next.rolesFile)
  }

  function After(planOk: Section -> bool, cfg: Config, e: Event): Config {
    if Judge(planOk, e).None? then Merge(cfg, e.file.value) else cfg
  }

  /** The configuration held after a run of reloads. */
  function Held(planOk: Section -> bool, boot: Config, events: seq<Event>): Config {
    if events == [] then boot else After(planOk, Held(planOk, boot, events[..|events| - 1]), events[|events| - 1])
  }

  /** Over any run of reloads: every key that is not reloadable is as it was at
      boot, and the reloadable part is, all four keys together, that of the last
      reload that was applied -- at boot's if none was. */
  lemma {:induction false} HeldIsTheLastApplied(planOk: Section -> bool, boot: Config, events: seq<Event>)
    returns (k: int)
    ensures -1 <= k < |events|
    ensures forall j :: k < j < |events| ==> Judge(planOk, events[j]).Some?
    ensures k >= 0 ==> Judge(planOk, events[k]).None? && events[k].file.Some?
    ensures Held(planOk, boot, events) == if k < 0 then boot else Merge(boot, events[k].file.value)
  {
    k := |events| - 1;
    if events != [] && Judge(planOk, events[k]).Some? {
      k := HeldIsTheLastApplied(planOk, boot, events[..k]);
    } else if events != [] {
      var front := events[..k];
      var j := HeldIsTheLastApplied(planOk, boot, front);
    }
  }

  // ---- serve's state ------------------------------------------------------------------

  class Stack {
    const planOk: Section -> bool
    /** What serve holds, and what the gateway enforces. */
    var cfg: Config
    var policy: P.PolicyView
    var gate: Gate

    constructor (planOk: Section -> bool, boot: Config)
      requires GoodPolicy(boot) && planOk(boot.quota)
      ensures this.planOk == planOk && cfg == boot && InForce()
    {
      this.planOk, this.cfg, this.policy, this.gate := planOk, boot, PolicyOf(boot), Gate(boot.quota);
    }

    /** The policy and the gate in force are those built from the configuration
        held, which is a good one. */
    predicate InForce()
      reads this
    {
      GoodPolicy(cfg) && planOk(cfg.quota) && policy == PolicyOf(cfg) && gate == Gate(cfg.quota)
    }

    method ApplyPolicy(p: P.PolicyView, g: Gate, how: Application) returns (ok: bool)
      modifies this`policy, this`gate
      ensures ok <==> how == Took
      ensures if ok then policy == p && gate == g else policy == old(policy) && gate == old(gate)
    {
      ok := how == Took;
      if ok { policy, gate := p, g; }
    }

    /** reloadConfig. */
    method ReloadConfig(e: Event) returns (refusal: Option<Refusal>)
      requires InForce()
      modifies this
      ensures InForce()
      ensures refusal == Judge(planOk, e) && cfg == After(planOk, old(cfg), e)
      ensures refusal.Some? ==> cfg == old(cfg) && policy == old(policy) && gate == old(gate)
    {
      if e.file.None? { return Some(InvalidConfig); }
      var next := e.file.value;
      if !GoodPolicy(next) { return Some(InvalidConfig); }
      if !planOk(next.quota) { return Some(InvalidConfig); }
      var ok := ApplyPolicy(PolicyOf(next), Gate(next.quota), e.apply);
      if !ok {
        return if e.apply == QuotaMisconfigured then Some(QuotaMismatch)
               else if e.apply == RegistryUnavailable then Some(RegistryDown) else Some(InvalidConfig);
      }
      var applied := cfg.(roles := next.roles, groups := next.groups, quota := next.quota);
      applied := applied.(rolesFile := next.rolesFile);
      cfg := applied;
      refusal := None;
    }

    /** Any run of reloads, applied and refused. */
    method ReloadAll(events: seq<Event>)
      requires InForce()
      modifies this
      ensures InForce() && cfg == Held(planOk, old(cfg), events) && cfg.rest == old(cfg).rest
      ensures P.Holds(policy, cfg.roles, cfg.groups)
    {
      var i := 0;
      while i < |events|
        invariant 0 <= i <= |events| && InForce()
        invariant cfg == Held(planOk, old(cfg), events[..i])
      {
        assert events[..i + 1][..i] == events[..i];
        var _ := ReloadConfig(events[i]);
        i := i + 1;
      }
      assert events[..i] == events;
      ghost var last := HeldIsTheLastApplied(planOk, old(cfg), events);
      PolicyIsBuilt(cfg);
    }
  }
}
