/** The heartbeat and the round it rides (cmd/mcp-gateway/serve.go): every
    round beats, except that a suspension beats when it starts and then at the
    normal cadence, however fast the loop retries. */
module Heartbeat {
  import opened Blocks

  /** One call: whether the fleet is suspended, the clock when the cadence is
      checked, and the clock when the beat is stamped. */
  datatype Tick = Tick(suspended: bool, check: Time, stamp: Time)

  /** What is remembered between calls. */
  datatype Pulse = Pulse(last: Time, suspended: bool)

  predicate Skips(every: nat, p: Pulse, t: Tick) { t.suspended && p.suspended && t.check - p.last < every }

  function Next(every: nat, p: Pulse, t: Tick): Pulse { if Skips(every, p, t) then p else Pulse(t.stamp, t.suspended) }

  /** registryRetryEvery, in nanoseconds. */
  const RETRY_EVERY: nat := 5_000_000_000

  datatype Reconciled = InOrder | Closed | RegistryUnavailable | QuotaMisconfigured | InPart
  datatype Refreshed = Observed | ClosedMeanwhile | ObservedInPart

  class Serve {
    const refreshEvery: nat
    var lastBeat: Time
    var beatSuspended: bool

    constructor (every: nat, zero: Time)
      ensures refreshEvery == every && Remembered() == Pulse(zero, false)
    {
      refreshEvery, lastBeat, beatSuspended := every, zero, false;
    }

    function Remembered(): Pulse
      reads this
    {
      Pulse(lastBeat, beatSuspended)
    }

    method Beat(t: Tick) returns (sent: bool)
      modifies this
      ensures sent == !Skips(refreshEvery, old(Remembered()), t)
      ensures Remembered() == Next(refreshEvery, old(Remembered()), t)
    {
      if t.suspended && beatSuspended && t.check - lastBeat < refreshEvery { return false; }
      lastBeat, beatSuspended := t.stamp, t.suspended;
      sent := true;
    }

    /** A run of calls sends exactly the beats the run theorems count. */
    method BeatThrough(ticks: seq<Tick>) returns (sent: nat)
      modifies this
      ensures sent == Count(refreshEvery, old(Remembered()), ticks, 0, |ticks|)
      ensures Remembered() == At(refreshEvery, old(Remembered()), ticks, |ticks|)
      ensures ticks != [] && refreshEvery > 0 && WellTimed(ticks) && SuspendedThrough(ticks, 0, |ticks|) ==>
                sent <= 1 + (ticks[|ticks| - 1].check - ticks[0].check) / refreshEvery
    {
      sent := 0;
      var i := 0;
      while i < |ticks|
        invariant 0 <= i <= |ticks| && sent == Count(refreshEvery, old(Remembered()), ticks, 0, i)
        invariant Remembered() == At(refreshEvery, old(Remembered()), ticks, i)
      {
        var beat := Beat(ticks[i]);
        if beat { sent := sent + 1; }
        i := i + 1;
      }
      if ticks != [] && refreshEvery > 0 && WellTimed(ticks) && SuspendedThrough(ticks, 0, |ticks|) {
        SuspensionsDoNotFlood(refreshEvery, old(Remembered()), ticks, 0, |ticks|);
      }
    }

    /** A round reaches the heartbeat unless the gateway closed under it, and
        rests for the short retry only when the registry was unreadable. */
    method Round(reconciled: Reconciled, refreshed: Refreshed, t: Tick) returns (next: nat, stop: bool, sent: bool)
      modifies this
      ensures stop <==> reconciled == Closed || (reconciled != RegistryUnavailable && refreshed == ClosedMeanwhile)
      ensures stop ==> next == 0 && !sent && Remembered() == old(Remembered())
      ensures !stop ==> sent == !Skips(refreshEvery, old(Remembered()), t)
                        && Remembered() == Next(refreshEvery, old(Remembered()), t)
                        && next == if reconciled == RegistryUnavailable then RETRY_EVERY else refreshEvery
    {
      if reconciled == Closed { return 0, true, false; }
      if reconciled == RegistryUnavailable {
        sent := Beat(t);
        return RETRY_EVERY, false, sent;
      }
      if refreshed == ClosedMeanwhile { return 0, true, false; }
      sent := Beat(t);
      next, stop := refreshEvery, false;
    }
  }

  // ---- Whole runs ---------------------------------------------------------------

  /** What is remembered before tick k of a run. */
  function At(every: nat, p: Pulse, ticks: seq<Tick>, k: nat): Pulse
    requires k <= |ticks|
  {
    if k == 0 then p else Next(every, At(every, p, ticks, k - 1), ticks[k - 1])
  }

  predicate Beats(every: nat, p: Pulse, ticks: seq<Tick>, k: nat)
    requires k < |ticks|
  {
    !Skips(every, At(every, p, ticks, k), ticks[k])
  }

  /** Time does not run backwards, within a tick or between two. */
  predicate WellTimed(ticks: seq<Tick>) {
    && (forall k :: 0 <= k < |ticks| ==> ticks[k].check <= ticks[k].stamp)
    && (forall j, k :: 0 <= j < k < |ticks| ==> ticks[j].stamp <= ticks[k].check)
  }

  lemma {:induction false} RemembersTheTickBefore(every: nat, p: Pulse, ticks: seq<Tick>, k: nat)
    requires 0 < k <= |ticks|
    ensures At(every, p, ticks, k).suspended == ticks[k - 1].suspended
  { }

  /** Every tick outside a suspension beats, and so does the first of each. */
  lemma SuspensionsAreAnnounced(every: nat, p: Pulse, ticks: seq<Tick>, k: nat)
    requires k < |ticks|
    requires !ticks[k].suspended || (if k == 0 then !p.suspended else !ticks[k - 1].suspended)
    ensures Beats(every, p, ticks, k)
  {
    if k > 0 { RemembersTheTickBefore(every, p, ticks, k); }
  }

  /** No beat in [i, j). */
  predicate Silent(every: nat, p: Pulse, ticks: seq<Tick>, i: nat, j: nat)
    requires j <= |ticks|
  {
    forall k :: i <= k < j ==> !Beats(every, p, ticks, k)
  }

  lemma {:induction false} RemembersTheLastBeat(every: nat, p: Pulse, ticks: seq<Tick>, a: nat, k: nat)
    requires a < k <= |ticks| && Beats(every, p, ticks, a) && Silent(every, p, ticks, a + 1, k)
    ensures At(every, p, ticks, k) == Pulse(ticks[a].stamp, ticks[a].suspended)
    decreases k
  {
    if a + 1 < k {
      RemembersTheLastBeat(every, p, ticks, a, k - 1);
      assert !Beats(every, p, ticks, k - 1);
    }
  }

  /** The silence the alert waits for: however long nothing beats, less than
      one cadence has passed since the last beat. */
  lemma SilenceIsShort(every: nat, p: Pulse, ticks: seq<Tick>, a: nat, k: nat)
    requires a < k < |ticks| && Beats(every, p, ticks, a) && Silent(every, p, ticks, a + 1, k + 1)
    ensures ticks[k].check - ticks[a].stamp < every
  {
    assert Silent(every, p, ticks, a + 1, k);
    RemembersTheLastBeat(every, p, ticks, a, k);
    assert !Beats(every, p, ticks, k);
  }

  /** When a tick's stamp comes at most `apart` after the check of the one
      before, two consecutive beats are less than a cadence and `apart` apart. */
  lemma ConsecutiveBeatsAreClose(every: nat, p: Pulse, ticks: seq<Tick>, a: nat, b: nat, apart: nat)
    requires a < b < |ticks| && every > 0 && WellTimed(ticks)
    requires Beats(every, p, ticks, a) && Beats(every, p, ticks, b) && Silent(every, p, ticks, a + 1, b)
    requires forall k :: 0 < k < |ticks| ==> ticks[k].stamp - ticks[k - 1].check <= apart
    ensures ticks[b].stamp - ticks[a].stamp < every + apart
  {
    if a + 1 < b { SilenceIsShort(every, p, ticks, a, b - 1); }
  }

  function Count(every: nat, p: Pulse, ticks: seq<Tick>, i: nat, j: nat): nat
    requires i <= j <= |ticks|
    decreases j
  {
    if i == j then 0 else Count(every, p, ticks, i, j - 1) + (if Beats(every, p, ticks, j - 1) then 1 else 0)
  }

  predicate SuspendedThrough(ticks: seq<Tick>, i: nat, j: nat)
    requires j <= |ticks|
  {
    forall k :: i <= k < j ==> ticks[k].suspended
  }

  /** The beats of a suspension are a cadence apart: m is the last of them. */
  lemma {:induction false} BeatsAreSpread(every: nat, p: Pulse, ticks: seq<Tick>, i: nat, j: nat) returns (m: nat)
    requires i < j <= |ticks| && SuspendedThrough(ticks, i, j) && WellTimed(ticks)
    requires Count(every, p, ticks, i, j) > 0
    ensures i <= m < j && Beats(every, p, ticks, m) && Silent(every, p, ticks, m + 1, j)
    ensures ticks[i].check + Cadences(Count(every, p, ticks, i, j) - 1, every) <= ticks[m].check
    decreases j
  {
    var before := Count(every, p, ticks, i, j - 1);
    if !Beats(every, p, ticks, j - 1) {
      m := BeatsAreSpread(every, p, ticks, i, j - 1);
    } else {
      m := j - 1;
      if before > 0 {
        var a := BeatsAreSpread(every, p, ticks, i, j - 1);
        RemembersTheLastBeat(every, p, ticks, a, j - 1);
      }
    }
  }

  /** The time n cadences take. */
  function Cadences(n: nat, every: nat): nat { if n == 0 then 0 else Cadences(n - 1, every) + every }

  lemma {:induction false} CadencesMultiply(n: nat, every: nat)
    ensures Cadences(n, every) == n * every
  {
    if n > 0 {
      CadencesMultiply(n - 1, every);
      assert n * every == (n - 1) * every + every;
    }
  }

  lemma AtMost(n: nat, every: nat, d: nat)
    requires every > 0 && n * every <= d
    ensures n <= d / every
  {
    var q := d / every;
    assert d == q * every + d % every;
    Cancel(n, q + 1, every);
  }

  lemma Cancel(n: nat, q: nat, every: nat)
    requires every > 0 && n * every < q * every
    ensures n < q
  {
    if n >= q { Scale(n, q, every); }
  }

  lemma Scale(n: nat, q: nat, every: nat)
    requires n >= q
    ensures n * every >= q * every
  { }

  /** A suspension that lasts D, from its first tick to its last, emits at most
      1 + D / refreshEvery beats, whatever the retry cadence. */
  lemma SuspensionsDoNotFlood(every: nat, p: Pulse, ticks: seq<Tick>, i: nat, j: nat)
    requires i < j <= |ticks| && every > 0 && SuspendedThrough(ticks, i, j) && WellTimed(ticks)
    ensures Count(every, p, ticks, i, j) <= 1 + (ticks[j - 1].check - ticks[i].check) / every
  {
    var n := Count(every, p, ticks, i, j);
    var d := ticks[j - 1].check - ticks[i].check;
    if n > 0 {
      var m := BeatsAreSpread(every, p, ticks, i, j);
      CadencesMultiply(n - 1, every);
      AtMost(n - 1, every, d);
    }
  }
}
