/**
  Retry deadlines of failing hosts.  A change of polling interval or jitter
  moves a deadline to where it would have been under the new policy, counted
  from the same failure.
 */
module Backoff {
  import opened Common

  const MAX_FAILURE_BACKOFF_SECONDS := 60.0

  datatype Policy = Policy(interval: real, jitterPct: real)

  function Power(n: nat): real {
    if n == 0 then 1.0 else 2.0 * Power(n - 1)
  }

  function Base(interval: real, failures: nat): real
    requires failures >= 1
  {
    var grown := interval * Power(Min(failures - 1, 10));
    if grown < MAX_FAILURE_BACKOFF_SECONDS then grown else MAX_FAILURE_BACKOFF_SECONDS
  }

  /** `unit` is the jitter drawn for this host and failure count, between 0 and 1. */
  function Delay(p: Policy, failures: nat, unit: real): real
    requires failures >= 1
  {
    var base := Base(p.interval, failures);
    if p.jitterPct <= 0.0 then base else base * (1.0 - p.jitterPct / 100.0 * unit)
  }

  lemma PowerGrows(n: nat, m: nat)
    requires n <= m
    ensures 1.0 <= Power(n) <= Power(m)
  {
  }

  /** Never negative, never beyond the cap, and without jitter never shorter after one more failure. */
  lemma DelayBounds(p: Policy, failures: nat, unit: real)
    requires failures >= 1 && p.interval >= 0.0 && p.jitterPct <= 100.0 && 0.0 <= unit <= 1.0
    ensures 0.0 <= Delay(p, failures, unit) <= MAX_FAILURE_BACKOFF_SECONDS
    ensures Base(p.interval, failures) <= Base(p.interval, failures + 1)
  {
    PowerGrows(Min(failures - 1, 10), Min(failures, 10));
    Scale(p.interval, Power(Min(failures - 1, 10)), Power(Min(failures, 10)));
    var base := Base(p.interval, failures);
    if p.jitterPct > 0.0 {
      var share := p.jitterPct / 100.0 * unit;
      Scale(p.jitterPct / 100.0, unit, 1.0);
      assert 0.0 <= share <= 1.0;
      Scale(base, 1.0 - share, 1.0);
    }
  }

  lemma Scale(k: real, a: real, b: real)
    requires 0.0 <= k && 0.0 <= a <= b
    ensures 0.0 <= k * a <= k * b
  {
  }

  /** The jitter of every host and failure count. */
  type Jitter = (string, nat) -> real

  /** What is kept of a failing host. */
  datatype Retry = Retry(failures: nat, deadline: Option<real>, policy: Option<Policy>)

  /** One host's deadline under a new policy. */
  function Rebase(r: Retry, current: Policy, unit: real): Retry
    requires r.failures >= 1
  {
    var previous := r.policy.GetOr(current);
    if r.deadline.None? || current == previous then r
    else
      var failedAt := r.deadline.value - Delay(previous, r.failures, unit);
      Retry(r.failures, Some(failedAt + Delay(current, r.failures, unit)), Some(current))
  }

  function RebaseChain(r: Retry, policies: seq<Policy>, unit: real): (n: Retry)
    requires r.failures >= 1
    ensures n.failures == r.failures
  {
    if policies == [] then r
    else Rebase(RebaseChain(r, policies[..|policies| - 1], unit), policies[|policies| - 1], unit)
  }

  /** The record of a failure at `failedAt` under a policy. */
  predicate FailedAt(r: Retry, failedAt: real, p: Policy, unit: real) {
    r.failures >= 1 && r.policy == Some(p) && r.deadline == Some(failedAt + Delay(p, r.failures, unit))
  }

  /** However often the policy changes, the deadline is the failure instant plus the delay of the last policy. */
  lemma {:induction false} ChainDependsOnLast(
    r: Retry, policies: seq<Policy>, unit: real, failedAt: real, first: Policy)
    requires FailedAt(r, failedAt, first, unit)
    ensures FailedAt(RebaseChain(r, policies, unit), failedAt,
                     if policies == [] then first else policies[|policies| - 1], unit)
  {
    hide Delay;
    if policies != [] {
      ChainDependsOnLast(r, policies[..|policies| - 1], unit, failedAt, first);
    }
  }

  // ---- one round ---------------------------------------------------------

  /** When the last successful probe started, and the interval its deadline was set with. */
  datatype Healthy = Healthy(startedAt: real, interval: real)

  datatype Schedule = Schedule(retry: Retry, healthy: Option<Healthy>)

  /** What a round of the loop sees of one host; a host that is being probed is busy. */
  datatype Round = Round(current: Policy, requested: bool, busy: bool)

  function Zeroed(r: Retry, round: Round): Retry {
    if round.requested && !round.busy then r.(deadline := Some(0.0)) else r
  }

  /** A failing host is rebased, a requested one made due, then a healthy one moved to its new interval. */
  function Pass(s: Schedule, round: Round, unit: real): (n: Schedule)
    ensures n.retry.failures == s.retry.failures
  {
    var r := Zeroed(if s.retry.failures >= 1 then Rebase(s.retry, round.current, unit) else s.retry, round);
    Refreshed(Schedule(r, s.healthy), round.current, round.busy)
  }

  /** A healthy host whose interval changed is due one new interval after its last probe started. */
  function Refreshed(s: Schedule, current: Policy, busy: bool): Schedule {
    if s.retry.failures == 0 && !busy && s.healthy.Some? && s.healthy.value.interval != current.interval then
      var h := Healthy(s.healthy.value.startedAt, current.interval);
      Schedule(s.retry.(deadline := Some(h.startedAt + h.interval)), Some(h))
    else s
  }

  function PassAll(s: Schedule, rounds: seq<Round>, unit: real): (n: Schedule)
    ensures n.retry.failures == s.retry.failures
  {
    if rounds == [] then s else Pass(PassAll(s, rounds[..|rounds| - 1], unit), rounds[|rounds| - 1], unit)
  }

  function LastPolicy(rounds: seq<Round>, first: Policy): Policy {
    if rounds == [] then first else rounds[|rounds| - 1].current
  }

  /** The instant deadlines are counted from: the failure, until a request puts the deadline to 0. */
  function Origin(rounds: seq<Round>, failedAt: real, failures: nat, unit: real): real
    requires failures >= 1
  {
    if rounds == [] then failedAt
    else
      var last := rounds[|rounds| - 1];
      if last.requested && !last.busy then -Delay(last.current, failures, unit)
      else Origin(rounds[..|rounds| - 1], failedAt, failures, unit)
  }

  /** Whatever the policies and requests of the rounds, the deadline is the origin plus the delay of the last policy. */
  lemma {:induction false} RoundsDependOnLast(
    s: Schedule, rounds: seq<Round>, unit: real, failedAt: real, first: Policy)
    requires FailedAt(s.retry, failedAt, first, unit)
    ensures FailedAt(PassAll(s, rounds, unit).retry, Origin(rounds, failedAt, s.retry.failures, unit),
                     LastPolicy(rounds, first), unit)
  {
    hide Delay;
    if rounds != [] {
      RoundsDependOnLast(s, rounds[..|rounds| - 1], unit, failedAt, first);
    }
  }

  /** Without a request since the failure the origin is the failure. */
  lemma {:induction false} UnrequestedOrigin(rounds: seq<Round>, failedAt: real, failures: nat, unit: real)
    requires failures >= 1
    requires forall i :: 0 <= i < |rounds| ==> rounds[i].busy || !rounds[i].requested
    ensures Origin(rounds, failedAt, failures, unit) == failedAt
  {
    if rounds != [] {
      UnrequestedOrigin(rounds[..|rounds| - 1], failedAt, failures, unit);
    }
  }

  /** A host without a deadline is due at any time. */
  predicate Due(s: Schedule, now: real) {
    s.retry.deadline.None? || s.retry.deadline.value <= now
  }

  /** A failing host with a failure on record: after any rounds it is due exactly from the origin plus the last delay
      on, which is the failure instant plus that delay when nobody asked for it, and at once when the last round did. */
  lemma FailingHostDue(s: Schedule, rounds: seq<Round>, unit: real, failedAt: real, first: Policy, now: real)
    requires FailedAt(s.retry, failedAt, first, unit) && now >= 0.0
    ensures
      var failures := s.retry.failures;
      var due := Due(PassAll(s, rounds, unit), now);
      && (due <==> Origin(rounds, failedAt, failures, unit) + Delay(LastPolicy(rounds, first), failures, unit) <= now)
      && ((forall i :: 0 <= i < |rounds| ==> rounds[i].busy || !rounds[i].requested) ==>
            (due <==> failedAt + Delay(LastPolicy(rounds, first), failures, unit) <= now))
      && (rounds != [] && rounds[|rounds| - 1].requested && !rounds[|rounds| - 1].busy ==> due)
  {
    hide Delay, PassAll;
    RoundsDependOnLast(s, rounds, unit, failedAt, first);
    if forall i :: 0 <= i < |rounds| ==> rounds[i].busy || !rounds[i].requested {
      UnrequestedOrigin(rounds, failedAt, s.retry.failures, unit);
    }
  }

  /** The interval a healthy host's deadline counts with: that of the last round it was not being probed in. */
  function LastInterval(rounds: seq<Round>, first: real): real {
    if rounds == [] then first
    else if rounds[|rounds| - 1].busy then LastInterval(rounds[..|rounds| - 1], first)
    else rounds[|rounds| - 1].current.interval
  }

  lemma {:induction false} HealthyAfter(s: Schedule, rounds: seq<Round>, unit: real)
    ensures
      PassAll(s, rounds, unit).healthy ==
      if s.healthy.None? || s.retry.failures >= 1 then s.healthy
      else Some(Healthy(s.healthy.value.startedAt, LastInterval(rounds, s.healthy.value.interval)))
  {
    hide Rebase;
    if rounds != [] {
      HealthyAfter(s, rounds[..|rounds| - 1], unit);
    }
  }

  /** A requested idle host is due after a round, whatever rounds came before, unless it is healthy, that round gave it
      another interval, and the new one has not passed since its last success started. */
  lemma RequestDueIff(s: Schedule, rounds: seq<Round>, unit: real, now: real)
    requires rounds != [] && rounds[|rounds| - 1].requested && !rounds[|rounds| - 1].busy && now >= 0.0
    ensures
      var current := rounds[|rounds| - 1].current.interval;
      Due(PassAll(s, rounds, unit), now) <==>
        || s.retry.failures >= 1 || s.healthy.None?
        || LastInterval(rounds[..|rounds| - 1], s.healthy.value.interval) == current
        || s.healthy.value.startedAt + current <= now
  {
    hide Rebase;
    HealthyAfter(s, rounds[..|rounds| - 1], unit);
  }

  /** A host healthy since 100 with interval 10 is requested; intervals of 20 and 30 in two rounds keep putting it
      off, although 15 seconds have passed. */
  lemma RequestPutOffTwice()
    ensures
      var s := Schedule(Retry(0, Some(110.0), None), Some(Healthy(100.0, 10.0)));
      var first, second := Round(Policy(20.0, 0.0), true, false), Round(Policy(30.0, 0.0), true, false);
      !Due(PassAll(s, [first], 0.0), 115.0) && !Due(PassAll(s, [first, second], 0.0), 115.0)
  {
    var s := Schedule(Retry(0, Some(110.0), None), Some(Healthy(100.0, 10.0)));
    var first, second := Round(Policy(20.0, 0.0), true, false), Round(Policy(30.0, 0.0), true, false);
    RequestDueIff(s, [first], 0.0, 115.0);
    assert [first, second][..1] == [first] && [first][..0] == [];
    RequestDueIff(s, [first, second], 0.0, 115.0);
  }

  // ---- the schedule ------------------------------------------------------

  class RetrySchedule {
    var failureCounts: map<string, nat>
    var nextProbeAt: map<string, real>
    var backoffPolicies: map<string, Policy>
    var healthyStartedAt: map<string, real>
    var healthyIntervals: map<string, real>

    ghost predicate Valid()
      reads this
    {
      && (forall h :: h in failureCounts ==> failureCounts[h] >= 1)
      && healthyStartedAt.Keys == healthyIntervals.Keys
    }

    function RetryOf(host: string): Retry
      reads this
    {
      Retry(if host in failureCounts then failureCounts[host] else 0,
            if host in nextProbeAt then Some(nextProbeAt[host]) else None,
            if host in backoffPolicies then Some(backoffPolicies[host]) else None)
    }

    function HealthyOf(host: string): Option<Healthy>
      reads this
      requires Valid()
    {
      if host in healthyStartedAt then Some(Healthy(healthyStartedAt[host], healthyIntervals[host])) else None
    }

    function Of(host: string): Schedule
      reads this
      requires Valid()
    {
      Schedule(RetryOf(host), HealthyOf(host))
    }

    constructor ()
      ensures Valid() && forall h :: Of(h) == Schedule(Retry(0, None, None), None)
    {
      failureCounts, nextProbeAt, backoffPolicies := map[], map[], map[];
      healthyStartedAt, healthyIntervals := map[], map[];
    }

    method RecordFailure(host: string, completedAt: real, policy: Policy, jitter: Jitter) returns (delay: real)
      requires Valid()
      modifies this
      ensures Valid()
      ensures FailedAt(Of(host).retry, completedAt, policy, jitter(host, Of(host).retry.failures))
      ensures Of(host).retry.failures == old(Of(host)).retry.failures + 1 && Of(host).healthy.None?
      ensures forall o :: o != host ==> Of(o) == old(Of(o))
    {
      healthyStartedAt, healthyIntervals := healthyStartedAt - {host}, healthyIntervals - {host};
      var failures := (if host in failureCounts then failureCounts[host] else 0) + 1;
      failureCounts := failureCounts[host := failures];
      delay := Delay(policy, failures, jitter(host, failures));
      nextProbeAt := nextProbeAt[host := completedAt + delay];
      backoffPolicies := backoffPolicies[host := policy];
    }

    /** A successful probe forgets the failures; the next one is an interval after it started, but not in the past. */
    method RecordSuccess(host: string, startedAt: real, completedAt: real, interval: real)
      requires Valid()
      modifies this
      ensures Valid()
      ensures Of(host).retry == Retry(0, Of(host).retry.deadline, None)
          && Of(host).healthy == Some(Healthy(startedAt, interval))
      ensures Of(host).retry.deadline ==
              Some(if startedAt + interval >= completedAt then startedAt + interval else completedAt)
      ensures forall o :: o != host ==> Of(o) == old(Of(o))
    {
      failureCounts := failureCounts - {host};
      backoffPolicies := backoffPolicies - {host};
      var next := startedAt + interval;
      if next < completedAt {
        next := completedAt;
      }
      nextProbeAt := nextProbeAt[host := next];
      healthyStartedAt := healthyStartedAt[host := startedAt];
      healthyIntervals := healthyIntervals[host := interval];
    }

    /** Every failing host with a deadline is rebased onto its current policy. */
    method RebaseFailureBackoff(current: string -> Policy, jitter: Jitter)
      requires Valid()
      modifies `nextProbeAt, `backoffPolicies
      ensures Valid()
      ensures forall h :: RetryOf(h) ==
                if h in failureCounts then Rebase(old(RetryOf(h)), current(h), jitter(h, failureCounts[h]))
                else old(RetryOf(h))
    {
      hide Delay;
      var left := failureCounts.Keys;
      while left != {}
        invariant left <= failureCounts.Keys
        invariant forall h :: RetryOf(h) ==
                    if h in failureCounts && h !in left
                    then Rebase(old(RetryOf(h)), current(h), jitter(h, failureCounts[h])) else old(RetryOf(h))
        decreases |left|
      {
        var h :| h in left;
        assert RetryOf(h) == old(RetryOf(h));
        RebaseHost(h, current(h), jitter(h, failureCounts[h]));
        left := left - {h};
      }
    }

    method RebaseHost(host: string, current: Policy, unit: real)
      requires host in failureCounts && failureCounts[host] >= 1
      modifies `nextProbeAt, `backoffPolicies
      ensures RetryOf(host) == Rebase(old(RetryOf(host)), current, unit)
      ensures forall o :: o != host ==> RetryOf(o) == old(RetryOf(o))
    {
      var failures := failureCounts[host];
      if host !in nextProbeAt {
        return;
      }
      var previous := if host in backoffPolicies then backoffPolicies[host] else current;
      if current == previous {
        return;
      }
      var failedAt := nextProbeAt[host] - Delay(previous, failures, unit);
      nextProbeAt := nextProbeAt[host := failedAt + Delay(current, failures, unit)];
      backoffPolicies := backoffPolicies[host := current];
    }

    /** Requested hosts that are not being probed become due. */
    method ZeroRequested(requested: set<string>, busy: set<string>)
      modifies `nextProbeAt
      ensures forall h :: RetryOf(h) ==
                if h in requested && h !in busy then old(RetryOf(h)).(deadline := Some(0.0)) else old(RetryOf(h))
    {
      var left := requested - busy;
      while left != {}
        invariant left <= requested - busy
        invariant forall h :: RetryOf(h) ==
                    if h in requested - busy - left then old(RetryOf(h)).(deadline := Some(0.0)) else old(RetryOf(h))
        decreases |left|
      {
        var h :| h in left;
        nextProbeAt := nextProbeAt[h := 0.0];
        left := left - {h};
      }
    }

    /** Every healthy host moves to its new interval. */
    method RefreshHealthy(current: string -> Policy, busy: set<string>)
      requires Valid()
      modifies `nextProbeAt, `healthyIntervals
      ensures Valid()
      ensures forall h :: Of(h) == Refreshed(old(Of(h)), current(h), h in busy)
    {
      hide Refreshed;
      var left := healthyStartedAt.Keys;
      AllRefreshed(current, busy);
      while left != {}
        invariant Valid() && left <= healthyStartedAt.Keys
        invariant forall h :: Of(h) == if h in left then old(Of(h)) else Refreshed(old(Of(h)), current(h), h in busy)
        decreases |left|
      {
        var h :| h in left;
        assert Of(h) == old(Of(h));
        RefreshHost(h, current(h), h in busy);
        left := left - {h};
      }
    }

    lemma AllRefreshed(current: string -> Policy, busy: set<string>)
      requires Valid()
      ensures forall h :: h !in healthyStartedAt ==> Of(h) == Refreshed(Of(h), current(h), h in busy)
    {
    }

    method RefreshHost(host: string, current: Policy, busy: bool)
      requires Valid() && host in healthyStartedAt
      modifies `nextProbeAt, `healthyIntervals
      ensures Valid() && healthyStartedAt == old(healthyStartedAt)
      ensures Of(host) == Refreshed(old(Of(host)), current, busy)
      ensures forall o :: o != host ==> Of(o) == old(Of(o))
    {
      if host in failureCounts || busy || healthyIntervals[host] == current.interval {
        return;
      }
      nextProbeAt := nextProbeAt[host := healthyStartedAt[host] + current.interval];
      healthyIntervals := healthyIntervals[host := current.interval];
    }

    /** The deadlines of one round, before finished probes are collected. */
    method PlanRound(
      current: string -> Policy, manual: set<string>, active: set<string>, busy: set<string>, jitter: Jitter)
      requires Valid()
      modifies `nextProbeAt, `backoffPolicies, `healthyIntervals
      ensures Valid()
      ensures forall h :: Of(h) ==
                Pass(old(Of(h)), Round(current(h), h in manual && h in active, h in busy),
                     jitter(h, old(Of(h)).retry.failures))
    {
      hide Rebase;
      RebaseFailureBackoff(current, jitter);
      ZeroRequested(manual * active, busy);
      RefreshHealthy(current, busy);
    }
  }
}
