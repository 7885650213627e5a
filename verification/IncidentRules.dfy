/**
  One condition key of one host, as the incident tracker treats it.

  The tracker keeps six dictionaries per host, but no key ever reads another
  key's entries.  `KeyState` collects one key's entries and `Step` is what a
  sample does to them.
 */
module IncidentRules {
  import opened Common

  datatype Severity = Warning | Critical

  datatype Transition = Opened | Escalated | Deescalated | Resolved

  /** A timestamp, or text that does not parse as one. */
  datatype Stamp = At(epoch: int) | Malformed

  /** Condition keys.  The category is the constructor; a GPU key carries its identity. */
  datatype Key =
    | Connectivity
    | GpuAvailability
    | GpuCount
    | GpuProcesses
    | Cpu
    | Memory
    | Swap
    | Pressure(resource: string)
    | Disk(device: string, mountpoint: string)
    | GpuTemperature(gpu: string)
    | GpuMemory(gpu: string)
    | GpuIdleMemory(gpu: string)
    | GpuEcc(gpu: string)
    | GpuMemoryRepair(gpu: string)
    | GpuSlowdown(gpu: string)

  /** Telemetry domains a sample may or may not have observed. */
  datatype Domain =
    | SystemSeen
    | SystemCpuSeen
    | PressureSeen(resource: string)
    | GpuQuerySeen
    | GpuInventorySeen
    | GpuProcessesSeen
    | GpuPresent(gpu: string)
    | GpuTemperatureSeen(gpu: string)
    | GpuMemorySeen(gpu: string)
    | GpuUtilizationSeen(gpu: string)
    | GpuHealthSeen(gpu: string)
    | GpuEccSeen(gpu: string)

  datatype Condition = Condition(
    severity: Severity,
    value: Option<int>,
    threshold: Option<int>,
    observedAt: Stamp,
    openAfterCycles: int,
    openAfterSeconds: int,
    recoveryCycles: int,
    belowThreshold: bool,
    criticalAt: Option<int>,
    recoveryMargin: int)

  /** A probe result together with what the policy derived from it. */
  datatype Sample = Sample(
    host: string,
    online: bool,
    observedAt: Stamp,
    conditions: map<Key, Condition>,
    domains: set<Domain>)
  {
    function Observed(key: Key): Option<Condition> {
      if key in conditions then Some(conditions[key]) else None
    }
  }

  datatype Candidate = Candidate(condition: Condition, count: nat, since: Stamp)

  datatype Change = Change(severity: Severity, count: nat, since: Stamp)

  datatype KeyState = KeyState(
    active: Option<Condition>,
    candidate: Option<Candidate>,
    recoveries: nat,
    change: Option<Change>,
    openedAt: Option<Stamp>,
    lastObserved: Option<Stamp>)

  const Idle := KeyState(None, None, 0, None, None, None)

  datatype Emission = Emission(transition: Transition, condition: Condition)

  datatype Outcome = Outcome(state: KeyState, emitted: Option<Emission>)

  // ---- telemetry domains -------------------------------------------------

  function ConditionDomains(key: Key): seq<Domain> {
    match key
    case Connectivity => []
    case Cpu => [SystemSeen, SystemCpuSeen]
    case Pressure(resource) => [SystemSeen, PressureSeen(resource)]
    case Memory => [SystemSeen]
    case Swap => [SystemSeen]
    case Disk(_, _) => [SystemSeen]
    case GpuAvailability => [GpuQuerySeen]
    case GpuCount => [GpuQuerySeen]
    case GpuEcc(gpu) => [GpuPresent(gpu), GpuEccSeen(gpu)]
    case GpuMemoryRepair(gpu) => [GpuPresent(gpu), GpuHealthSeen(gpu)]
    case GpuSlowdown(gpu) => [GpuPresent(gpu), GpuHealthSeen(gpu)]
    case GpuProcesses => [GpuProcessesSeen]
    case GpuTemperature(gpu) => [GpuPresent(gpu), GpuTemperatureSeen(gpu)]
    case GpuMemory(gpu) => [GpuPresent(gpu), GpuMemorySeen(gpu)]
    case GpuIdleMemory(gpu) => [GpuPresent(gpu), GpuMemorySeen(gpu), GpuUtilizationSeen(gpu)]
  }

  /** The GPU a domain speaks about, for the per-identity domains. */
  function IdentityOf(domain: Domain): Option<string> {
    match domain
    case GpuPresent(gpu) => Some(gpu)
    case GpuTemperatureSeen(gpu) => Some(gpu)
    case GpuMemorySeen(gpu) => Some(gpu)
    case GpuUtilizationSeen(gpu) => Some(gpu)
    case GpuHealthSeen(gpu) => Some(gpu)
    case GpuEccSeen(gpu) => Some(gpu)
    case _ => None
  }

  predicate HasGpu(key: Key) {
    key.GpuTemperature? || key.GpuMemory? || key.GpuIdleMemory? || key.GpuEcc? || key.GpuMemoryRepair?
    || key.GpuSlowdown?
  }

  /** What absence of `key` from a sample is worth: the sample carried all the
      telemetry the key needs, or a complete inventory its GPU is not part of. */
  predicate AbsenceKnown(key: Key, domains: set<Domain>) {
    || (forall d :: d in ConditionDomains(key) ==> d in domains)
    || (HasGpu(key) && GpuInventorySeen in domains && GpuPresent(key.gpu) !in domains)
  }

  lemma PerGpuDomains(key: Key)
    ensures HasGpu(key) ==> GpuPresent(key.gpu) in ConditionDomains(key)
    ensures HasGpu(key) ==> forall d :: d in ConditionDomains(key) ==> IdentityOf(d) == Some(key.gpu)
    ensures !HasGpu(key) ==> forall d :: d in ConditionDomains(key) ==> IdentityOf(d) == None
  {
  }

  method MissingDomains(needed: seq<Domain>, domains: set<Domain>) returns (missing: seq<Domain>)
    ensures forall d :: d in missing <==> d in needed && d !in domains
  {
    missing := [];
    for i := 0 to |needed|
      invariant forall d :: d in missing <==> d in needed[..i] && d !in domains
    {
      if needed[i] !in domains {
        missing := missing + [needed[i]];
      }
    }
    assert needed[..|needed|] == needed;
  }

  /** The GPUs behind the missing domains, or nothing when one of them is not about a GPU. */
  method MissingGpus(missing: seq<Domain>) returns (gpus: Option<set<string>>)
    ensures gpus.None? <==> exists d :: d in missing && IdentityOf(d).None?
    ensures gpus.Some? ==> forall d :: d in missing ==> IdentityOf(d).Some? && IdentityOf(d).value in gpus.value
    ensures gpus.Some? ==> forall gpu :: gpu in gpus.value ==> exists d :: d in missing && IdentityOf(d) == Some(gpu)
  {
    var identities: set<string> := {};
    for i := 0 to |missing|
      invariant forall d :: d in missing[..i] ==> IdentityOf(d).Some? && IdentityOf(d).value in identities
      invariant forall gpu :: gpu in identities ==> exists d :: d in missing && IdentityOf(d) == Some(gpu)
    {
      var identity := IdentityOf(missing[i]);
      if identity.None? {
        return None;
      }
      identities := identities + {identity.value};
    }
    assert missing[..|missing|] == missing;
    return Some(identities);
  }

  /** The freeze test, as the code performs it. */
  method TelemetryUnknown(key: Key, domains: set<Domain>) returns (unknown: bool)
    ensures unknown == !AbsenceKnown(key, domains)
  {
    PerGpuDomains(key);
    var needed := ConditionDomains(key);
    var missing := MissingDomains(needed, domains);
    if missing == [] {
      assert forall d :: d in needed ==> d in domains by {
        assert forall d :: d !in missing;
      }
      return false;
    }
    assert missing[0] in missing;
    if GpuInventorySeen in domains {
      var gpus := MissingGpus(missing);
      if gpus.None? {
        return true;
      }
      if forall gpu :: gpu in gpus.value ==> GpuPresent(gpu) !in domains {
        return false;
      }
    }
    return true;
  }

  // ---- one key, one sample -----------------------------------------------

  /** A warning reading does not lower `previous` from critical while both are measured against
      one line and the reading is at most its margin below it. */
  predicate HoldsSeverity(reading: Condition, previous: Condition) {
    && previous.severity == Critical
    && reading.severity == Warning
    && reading.value.Some?
    && reading.criticalAt.Some?
    && previous.criticalAt == reading.criticalAt
    && reading.value.value >= reading.criticalAt.value - reading.recoveryMargin
  }

  predicate Sustained(since: Stamp, condition: Condition) {
    || condition.openAfterSeconds <= 0
    || since.Malformed?
    || condition.observedAt.Malformed?
    || condition.observedAt.epoch - since.epoch >= condition.openAfterSeconds
  }

  /** The reading after the severity hold. */
  function Held(reading: Condition, established: Condition): Condition {
    if HoldsSeverity(reading, established) then reading.(severity := established.severity) else reading
  }

  /** A sample stamped before the generation opened says nothing about it. */
  predicate Delayed(sampleAt: Stamp, openedAt: Stamp) {
    sampleAt.At? && openedAt.At? && sampleAt.epoch < openedAt.epoch
  }

  function Reobserve(st: KeyState, reading: Condition): Outcome
    requires st.active.Some?
  {
    var established := st.active.value;
    var held := Held(reading, established);
    var seen := st.(candidate := None, recoveries := 0, lastObserved := Some(reading.observedAt));
    if established.severity == held.severity then
      Outcome(seen.(active := Some(held), change := None), None)
    else
      var pending := st.change.GetOr(Change(held.severity, 0, held.observedAt));
      var streak := if pending.severity != held.severity then Change(held.severity, 0, held.observedAt) else pending;
      var count := streak.count + 1;
      if count < held.openAfterCycles || !Sustained(streak.since, held) then
        var kept := held.(severity := established.severity, criticalAt := established.criticalAt);
        Outcome(seen.(change := Some(Change(held.severity, count, streak.since)), active := Some(kept)), None)
      else
        Outcome(seen.(change := None, active := Some(held)),
                Some(Emission(if held.severity == Critical then Escalated else Deescalated, held)))
  }

  function Confirm(st: KeyState, reading: Condition): Outcome {
    var seen := st.(recoveries := 0);
    if reading.belowThreshold then
      Outcome(seen.(candidate := None), None)
    else
      var pending := st.candidate.GetOr(Candidate(reading, 0, reading.observedAt));
      var streak :=
        if pending.condition.severity != reading.severity then Candidate(reading, 0, reading.observedAt) else pending;
      var count := streak.count + 1;
      if count >= reading.openAfterCycles && Sustained(streak.since, reading) then
        Outcome(seen.(candidate := None, active := Some(reading), openedAt := Some(reading.observedAt),
                       lastObserved := Some(reading.observedAt)), Some(Emission(Opened, reading)))
      else
        Outcome(seen.(candidate := Some(Candidate(reading, count, streak.since))), None)
  }

  /** Does this sample count as evidence that an active key is gone? */
  predicate Evidence(openedAt: Stamp, key: Key, s: Sample) {
    && s.Observed(key).None?
    && s.online
    && !Delayed(s.observedAt, openedAt)
    && AbsenceKnown(key, s.domains)
  }

  function Missing(st: KeyState, key: Key, s: Sample): Outcome
    requires st.active.Some? ==> st.openedAt.Some?
  {
    var trimmed := st.(candidate := None, change := None);
    if st.active.None? || !s.online || Delayed(s.observedAt, st.openedAt.value) || !AbsenceKnown(key, s.domains) then
      Outcome(trimmed, None)
    else if st.recoveries + 1 >= st.active.value.recoveryCycles then
      Outcome(Idle, Some(Emission(Resolved, st.active.value)))
    else
      Outcome(trimmed.(recoveries := st.recoveries + 1), None)
  }

  function Step(st: KeyState, key: Key, s: Sample): Outcome
    requires st.active.Some? ==> st.openedAt.Some?
  {
    match s.Observed(key)
    case Some(reading) => if st.active.Some? then Reobserve(st, reading) else Confirm(st, reading)
    case None => Missing(st, key, s)
  }

  /** The consistency of one key's entries: what keeps the opening-time lookup from failing. */
  predicate Coherent(st: KeyState) {
    && st.openedAt.Some? == st.active.Some?
    && (st.active.Some? ==> st.candidate.None? && st.lastObserved.Some?)
    && (st.active.None? ==> st.change.None? && st.recoveries == 0 && st.lastObserved.None?)
    && (st.change.Some? ==> st.change.value.severity != st.active.value.severity && st.recoveries == 0)
  }

  lemma StepKeepsCoherent(st: KeyState, key: Key, s: Sample)
    requires Coherent(st)
    ensures Coherent(Step(st, key, s).state)
  {
  }
}
