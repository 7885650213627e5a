/**
  What the incident rules guarantee over whole runs of samples for one key:
  a well-formed transition log that determines the state, debounce in both
  directions, sound recovery, hysteresis, and indifference to what a restart forgets.
 */
module IncidentRuns {
  import opened Common
  import opened IncidentRules

  datatype Entry = Entry(transition: Transition, severity: Severity, at: Stamp)

  /** What the tracker relies on a policy for. */
  ghost predicate FromPolicy(s: Sample) {
    && (forall k :: k in s.conditions ==> s.conditions[k].observedAt == s.observedAt)
    && (!s.online ==> s.conditions.Keys == {Connectivity} && s.domains == {})
  }

  ghost predicate AllFromPolicy(ss: seq<Sample>) {
    forall i :: 0 <= i < |ss| ==> FromPolicy(ss[i])
  }

  /** Numeric conditions always carry the line they are measured against. */
  predicate Numeric(key: Key) {
    key.Cpu? || key.Memory? || key.Swap? || key.Pressure? || key.Disk? || key.GpuTemperature? || key.GpuMemory?
  }

  ghost predicate CarriesCriterion(s: Sample) {
    forall k :: k in s.conditions && Numeric(k) ==> s.conditions[k].criticalAt.Some?
  }

  function After(start: KeyState, key: Key, ss: seq<Sample>): (st: KeyState)
    requires Coherent(start)
    ensures Coherent(st)
  {
    if ss == [] then start else Step(After(start, key, ss[..|ss| - 1]), key, ss[|ss| - 1]).state
  }

  function EmittedBy(st: KeyState, key: Key, s: Sample): seq<Entry>
    requires Coherent(st)
  {
    var e := Step(st, key, s).emitted;
    if e.None? then [] else [Entry(e.value.transition, e.value.condition.severity, s.observedAt)]
  }

  function Log(start: KeyState, key: Key, ss: seq<Sample>): seq<Entry>
    requires Coherent(start)
  {
    if ss == [] then [] else
      Log(start, key, ss[..|ss| - 1]) + EmittedBy(After(start, key, ss[..|ss| - 1]), key, ss[|ss| - 1])
  }

  // ---- the log is well formed and determines the state -------------------

  /** (opened, alternating escalated and deescalated, resolved), repeated. */
  ghost predicate WellFormed(log: seq<Entry>) {
    forall i :: 0 <= i < |log| ==> Follows(log[..i], log[i])
  }

  predicate Follows(past: seq<Entry>, e: Entry) {
    if past == [] || past[|past| - 1].transition == Resolved then e.transition == Opened
    else
      var last := past[|past| - 1];
      match e.transition
      case Opened => false
      case Escalated => last.severity == Warning && e.severity == Critical
      case Deescalated => last.severity == Critical && e.severity == Warning
      case Resolved => last.severity == e.severity
  }

  /** `at` is the time of the last opened entry. */
  ghost predicate LastOpening(log: seq<Entry>, at: Stamp) {
    exists j :: 0 <= j < |log| && log[j].transition == Opened && log[j].at == at
                && forall i :: j < i < |log| ==> log[i].transition != Opened
  }

  ghost predicate Describes(log: seq<Entry>, st: KeyState) {
    && WellFormed(log)
    && (st.active.Some? <==> log != [] && log[|log| - 1].transition != Resolved)
    && (st.active.Some? && st.openedAt.Some? ==>
          && st.active.value.severity == log[|log| - 1].severity
          && LastOpening(log, st.openedAt.value))
  }

  /** What an emitted entry says about the states around it. */
  lemma EmissionEffect(st: KeyState, key: Key, s: Sample)
    requires Coherent(st) && FromPolicy(s)
    ensures
      var next := Step(st, key, s).state;
      var emitted := EmittedBy(st, key, s);
      if emitted == [] then
          && next.openedAt == st.openedAt
          && next.active.Some? == st.active.Some?
          && (st.active.Some? ==> next.active.value.severity == st.active.value.severity)
      else
        var e := emitted[0];
          && |emitted| == 1
          && (next.active.Some? <==> e.transition != Resolved)
          && (next.active.Some? ==> next.active.value.severity == e.severity)
          && (e.transition == Opened ==> st.active.None? && next.openedAt == Some(e.at))
          && (e.transition != Opened ==> st.active.Some?)
          && (e.transition != Opened && next.active.Some? ==> next.openedAt == st.openedAt)
          && (e.transition == Escalated ==> st.active.value.severity == Warning && e.severity == Critical)
          && (e.transition == Deescalated ==> st.active.value.severity == Critical && e.severity == Warning)
          && (e.transition == Resolved ==> st.active.value.severity == e.severity)
  {
  }

  lemma LastOpeningGrows(log: seq<Entry>, e: Entry, at: Stamp)
    requires if e.transition == Opened then e.at == at else LastOpening(log, at)
    ensures LastOpening(log + [e], at)
  {
    var longer := log + [e];
    assert longer[|log|] == e;
    if e.transition != Opened {
      var j :| 0 <= j < |log| && log[j].transition == Opened && log[j].at == at
               && forall i :: j < i < |log| ==> log[i].transition != Opened;
      assert longer[j] == log[j];
    }
  }

  lemma WellFormedGrows(log: seq<Entry>, e: Entry)
    requires WellFormed(log) && Follows(log, e)
    ensures WellFormed(log + [e])
  {
  }

  lemma StepDescribes(log: seq<Entry>, st: KeyState, key: Key, s: Sample)
    requires Coherent(st) && FromPolicy(s) && Describes(log, st)
    ensures Describes(log + EmittedBy(st, key, s), Step(st, key, s).state)
  {
    EmissionEffect(st, key, s);
    var next := Step(st, key, s).state;
    var emitted := EmittedBy(st, key, s);
    hide Step, EmittedBy, WellFormed, LastOpening;
    if emitted == [] {
      assert log + emitted == log;
    } else {
      var e := emitted[0];
      assert emitted == [e];
      WellFormedGrows(log, e);
      if next.active.Some? {
        LastOpeningGrows(log, e, next.openedAt.value);
      }
    }
  }

  /** From an idle key, and for every run, the log is well formed and says exactly
      whether the key is active, at which severity, and since when. */
  lemma {:induction false} LogDeterminesState(key: Key, ss: seq<Sample>)
    requires AllFromPolicy(ss)
    ensures Describes(Log(Idle, key, ss), After(Idle, key, ss))
  {
    if ss != [] {
      var past := ss[..|ss| - 1];
      assert forall i :: 0 <= i < |past| ==> past[i] == ss[i];
      LogDeterminesState(key, past);
      StepDescribes(Log(Idle, key, past), After(Idle, key, past), key, ss[|ss| - 1]);
    }
  }

  // ---- debounce ----------------------------------------------------------

  /** A reading asks for `count` samples in a row, and for a span since the first of them. */
  predicate Confirmed(reading: Condition, count: int, since: Stamp) {
    count >= reading.openAfterCycles && Sustained(since, reading)
  }

  /** The severity a sample offers an inactive key as evidence for opening it. */
  function Offer(st: KeyState, key: Key, s: Sample): Option<Severity> {
    if st.active.None? && s.Observed(key).Some? && !s.Observed(key).value.belowThreshold
    then Some(s.Observed(key).value.severity)
    else None
  }

  /** The severity a sample asks of an active key, when it is not the established one. */
  function Demand(st: KeyState, key: Key, s: Sample): Option<Severity> {
    if st.active.Some? && s.Observed(key).Some?
       && Held(s.Observed(key).value, st.active.value).severity != st.active.value.severity
    then Some(Held(s.Observed(key).value, st.active.value).severity)
    else None
  }

  /** Offers made by the samples of a run, one entry per sample. */
  function Offers(key: Key, ss: seq<Sample>): (signal: seq<Option<Severity>>)
    ensures |signal| == |ss|
  {
    if ss == [] then [] else
      var past := ss[..|ss| - 1];
      Offers(key, past) + [Offer(After(Idle, key, past), key, ss[|ss| - 1])]
  }

  function Demands(key: Key, ss: seq<Sample>): (signal: seq<Option<Severity>>)
    ensures |signal| == |ss|
  {
    if ss == [] then [] else
      var past := ss[..|ss| - 1];
      Demands(key, past) + [Demand(After(Idle, key, past), key, ss[|ss| - 1])]
  }

  ghost predicate CandidateMatches(ss: seq<Sample>, offers: seq<Option<Severity>>, a: nat, c: Option<Candidate>)
    requires |offers| == |ss|
  {
    match c
    case Some(c) =>
      && Streak(offers, a, c.condition.severity)
      && c.count == |ss| - a
      && c.since == ss[a].observedAt
    case None => a == |ss| && (a > 0 ==> offers[a - 1].None?)
  }

  /** What an offer does, by the streak it continues or starts. */
  lemma OfferEffect(st: KeyState, key: Key, s: Sample, count: nat, since: Stamp)
    requires Coherent(st) && Offer(st, key, s).Some?
    requires
      if st.candidate.Some? && st.candidate.value.condition.severity == Offer(st, key, s).value
      then count == st.candidate.value.count + 1 && since == st.candidate.value.since
      else count == 1 && since == s.Observed(key).value.observedAt
    ensures
      var reading := s.Observed(key).value;
      var next := Step(st, key, s).state;
      if Confirmed(reading, count, since) then next.active == Some(reading)
      else next.active.None? && next.candidate == Some(Candidate(reading, count, since))
  {
  }

  /** The streak that ends with the offer of the last sample, and what that offer does. */
  lemma OfferStreak(key: Key, ss: seq<Sample>, b: nat) returns (a: nat)
    requires ss != [] && FromPolicy(ss[|ss| - 1])
    requires Offers(key, ss)[|ss| - 1].Some?
    requires var past := ss[..|ss| - 1];
      CandidateMatches(past, Offers(key, past), b, After(Idle, key, past).candidate)
    ensures Streak(Offers(key, ss), a, Offers(key, ss)[|ss| - 1].value)
    ensures
      var reading := ss[|ss| - 1].Observed(key);
      var next := After(Idle, key, ss);
      && reading.Some?
      && (if Confirmed(reading.value, |ss| - a, ss[a].observedAt) then next.active == reading
          else next.active.None? && next.candidate == Some(Candidate(reading.value, |ss| - a, ss[a].observedAt)))
  {
    var n := |ss| - 1;
    var past := ss[..n];
    var offers := Offers(key, ss);
    assert offers[..n] == Offers(key, past);
    var st := After(Idle, key, past);
    var v := Offer(st, key, ss[n]).value;
    var goesOn := st.candidate.Some? && st.candidate.value.condition.severity == v;
    a := if goesOn then b else n;
    OfferEffect(st, key, ss[n], n + 1 - a, ss[a].observedAt);
    hide Step, After, Offer;
    if !goesOn && n > 0 {
      assert offers[n - 1] == Offers(key, past)[n - 1];
    }
    StreakExtends(offers, a, v);
  }

  /** While a key stays inactive its candidate entry is its current streak of offers. */
  lemma {:induction false} CandidateIsStreak(key: Key, ss: seq<Sample>) returns (a: nat)
    requires AllFromPolicy(ss) && After(Idle, key, ss).active.None?
    ensures CandidateMatches(ss, Offers(key, ss), a, After(Idle, key, ss).candidate)
  {
    a := |ss|;
    if ss != [] && Offers(key, ss)[|ss| - 1].Some? {
      var b := CandidateIsStreak(key, ss[..|ss| - 1]);
      a := OfferStreak(key, ss, b);
    }
  }

  /** No other streak ends where one ends. */
  lemma OnlyStreak(signal: seq<Option<Severity>>, a: nat, v: Severity)
    requires Streak(signal, a, v)
    ensures forall x: nat, w :: Streak(signal, x, w) ==> x == a
  {
    forall x: nat, w | Streak(signal, x, w) ensures x == a {
      StreakUnique(signal, a, x, v, w);
    }
  }

  /** Debounce, both directions: an inactive key opens at the last sample of a run iff that
      sample ends a maximal unbroken streak of offers, all at one severity, that is long
      enough and lasts long enough. */
  lemma OpensIffStreak(key: Key, ss: seq<Sample>)
    requires ss != [] && AllFromPolicy(ss)
    requires After(Idle, key, ss[..|ss| - 1]).active.None?
    ensures After(Idle, key, ss).active.Some? <==>
      exists a: nat, severity ::
        && Streak(Offers(key, ss), a, severity)
        && ss[|ss| - 1].Observed(key).Some?
        && Confirmed(ss[|ss| - 1].Observed(key).value, |ss| - a, ss[a].observedAt)
  {
    var last := Offers(key, ss)[|ss| - 1];
    if last.Some? {
      hide Step, After, Offers, Sustained, Streak;
      var b := CandidateIsStreak(key, ss[..|ss| - 1]);
      var a := OfferStreak(key, ss, b);
      OnlyStreak(Offers(key, ss), a, last.value);
    } else {
      assert forall x: nat, w | Streak(Offers(key, ss), x, w) :: last == Some(w);
    }
  }

  // ---- severity changes --------------------------------------------------

  /** The pending change is the current streak of demands.  After a committed change the
      last demand is what is now established, so the next demand starts a new streak. */
  ghost predicate ChangeMatches(ss: seq<Sample>, demands: seq<Option<Severity>>, a: nat, st: KeyState)
    requires |demands| == |ss|
  {
    match st.change
    case Some(c) =>
      && Streak(demands, a, c.severity)
      && c.count == |ss| - a
      && c.since == ss[a].observedAt
    case None =>
      a == |ss| && (a > 0 && demands[a - 1].Some? ==>
          st.active.Some? && demands[a - 1].value == st.active.value.severity)
  }

  lemma DemandEffect(st: KeyState, key: Key, s: Sample, count: nat, since: Stamp)
    requires Coherent(st) && Demand(st, key, s).Some?
    requires
      if st.change.Some? then count == st.change.value.count + 1 && since == st.change.value.since
      else count == 1 && since == s.Observed(key).value.observedAt
    ensures st.change.Some? ==> st.change.value.severity == Demand(st, key, s).value
    ensures
      var wanted := Demand(st, key, s).value;
      var next := Step(st, key, s).state;
      && next.active.Some?
      && (if Confirmed(s.Observed(key).value, count, since)
          then next.active.value.severity == wanted && next.change.None?
          else
            && next.active.value.severity == st.active.value.severity
            && next.change == Some(Change(wanted, count, since)))
  {
  }

  lemma NoDemandEffect(st: KeyState, key: Key, s: Sample)
    requires Coherent(st) && Demand(st, key, s).None?
    ensures Step(st, key, s).state.change.None?
    ensures st.active.Some? && Step(st, key, s).state.active.Some? ==>
              Step(st, key, s).state.active.value.severity == st.active.value.severity
  {
  }

  lemma DemandStreak(key: Key, ss: seq<Sample>, b: nat) returns (a: nat)
    requires ss != [] && FromPolicy(ss[|ss| - 1])
    requires Demands(key, ss)[|ss| - 1].Some?
    requires var past := ss[..|ss| - 1];
      ChangeMatches(past, Demands(key, past), b, After(Idle, key, past))
    ensures Streak(Demands(key, ss), a, Demands(key, ss)[|ss| - 1].value)
    ensures
      var past := After(Idle, key, ss[..|ss| - 1]);
      var next := After(Idle, key, ss);
      var wanted := Demands(key, ss)[|ss| - 1].value;
      && past.active.Some? && next.active.Some? && ss[|ss| - 1].Observed(key).Some?
      && past.active.value.severity != wanted
      && (if Confirmed(ss[|ss| - 1].Observed(key).value, |ss| - a, ss[a].observedAt)
          then next.active.value.severity == wanted && next.change.None?
          else next.active.value.severity == past.active.value.severity
               && next.change == Some(Change(wanted, |ss| - a, ss[a].observedAt)))
  {
    var n := |ss| - 1;
    var past := ss[..n];
    var demands := Demands(key, ss);
    assert demands[..n] == Demands(key, past);
    var st := After(Idle, key, past);
    var v := Demand(st, key, ss[n]).value;
    a := if st.change.Some? then b else n;
    DemandEffect(st, key, ss[n], n + 1 - a, ss[a].observedAt);
    hide Step, After, Held;
    if st.change.None? && n > 0 {
      assert demands[n - 1] == Demands(key, past)[n - 1];
    }
    StreakExtends(demands, a, v);
  }

  lemma {:induction false} ChangeIsStreak(key: Key, ss: seq<Sample>) returns (a: nat)
    requires AllFromPolicy(ss)
    ensures ChangeMatches(ss, Demands(key, ss), a, After(Idle, key, ss))
  {
    a := |ss|;
    if ss != [] {
      if Demands(key, ss)[|ss| - 1].Some? {
        var b := ChangeIsStreak(key, ss[..|ss| - 1]);
        var c := DemandStreak(key, ss, b);
        hide Step, After, Sustained;
        a := if After(Idle, key, ss).change.Some? then c else |ss|;
      } else {
        NoDemandEffect(After(Idle, key, ss[..|ss| - 1]), key, ss[|ss| - 1]);
      }
    }
  }

  /** Debounce of severity, both directions: an active key changes severity at the last sample
      of a run iff that sample ends a maximal unbroken streak of demands for the other severity
      that is long enough and lasts long enough. */
  lemma ChangesSeverityIffStreak(key: Key, ss: seq<Sample>)
    requires ss != [] && AllFromPolicy(ss)
    requires After(Idle, key, ss[..|ss| - 1]).active.Some? && After(Idle, key, ss).active.Some?
    ensures After(Idle, key, ss).active.value.severity != After(Idle, key, ss[..|ss| - 1]).active.value.severity <==>
      exists a: nat, severity ::
        && Streak(Demands(key, ss), a, severity)
        && ss[|ss| - 1].Observed(key).Some?
        && Confirmed(ss[|ss| - 1].Observed(key).value, |ss| - a, ss[a].observedAt)
  {
    var last := Demands(key, ss)[|ss| - 1];
    if last.Some? {
      var b := ChangeIsStreak(key, ss[..|ss| - 1]);
      var a := DemandStreak(key, ss, b);
      hide Step, After, Demands, Sustained;
      forall x: nat, w | Streak(Demands(key, ss), x, w) ensures x == a {
        StreakUnique(Demands(key, ss), a, x, last.value, w);
      }
    } else {
      NoDemandEffect(After(Idle, key, ss[..|ss| - 1]), key, ss[|ss| - 1]);
      assert forall x: nat, w | Streak(Demands(key, ss), x, w) :: last == Some(w);
    }
  }

  // ---- recovery ----------------------------------------------------------

  /** Which samples of a run are evidence that the key, then active, is gone. */
  function Evidences(key: Key, ss: seq<Sample>): (signal: seq<bool>)
    ensures |signal| == |ss|
  {
    if ss == [] then [] else
      var past := ss[..|ss| - 1];
      var st := After(Idle, key, past);
      Evidences(key, past) + [st.active.Some? && Evidence(st.openedAt.value, key, ss[|ss| - 1])]
  }

  /** One past the last sample of the run that observed the key. */
  function SinceSeen(key: Key, ss: seq<Sample>): (o: nat)
    ensures o <= |ss|
    ensures o > 0 ==> ss[o - 1].Observed(key).Some?
    ensures forall i :: o <= i < |ss| ==> ss[i].Observed(key).None?
  {
    if ss == [] then 0
    else if ss[|ss| - 1].Observed(key).Some? then |ss|
    else SinceSeen(key, ss[..|ss| - 1])
  }

  lemma RecoveryEffect(st: KeyState, key: Key, s: Sample)
    requires Coherent(st)
    ensures
      var next := Step(st, key, s).state;
      if s.Observed(key).Some? then next.recoveries == 0
      else if st.active.None? then next.active.None?
      else
        var count := st.recoveries + if Evidence(st.openedAt.value, key, s) then 1 else 0;
        if Evidence(st.openedAt.value, key, s) && count >= st.active.value.recoveryCycles
        then next.active.None?
        else next.active.Some? && next.recoveries == count
  {
  }

  /** An active key has been observed, and its recovery count is exactly the number of
      evidence samples since the last observation. */
  lemma {:induction false} RecoveryCountsEvidence(key: Key, ss: seq<Sample>)
    requires After(Idle, key, ss).active.Some?
    ensures SinceSeen(key, ss) > 0
    ensures After(Idle, key, ss).recoveries == |Raised(Evidences(key, ss), SinceSeen(key, ss))|
  {
    var n := |ss| - 1;
    var past := ss[..n];
    RecoveryEffect(After(Idle, key, past), key, ss[n]);
    if ss[n].Observed(key).None? {
      RecoveryCountsEvidence(key, past);
      RaisedGrows(Evidences(key, past), Evidences(key, ss)[n], SinceSeen(key, past));
    }
  }

  /** Recovery, both directions: an active key resolves at the last sample of a run iff that
      sample is evidence of absence and, counting it, there have been `recoveryCycles` such
      samples since the key was last observed. */
  lemma ResolvesIffEvidence(key: Key, ss: seq<Sample>)
    requires ss != [] && After(Idle, key, ss[..|ss| - 1]).active.Some?
    ensures
      var active := After(Idle, key, ss[..|ss| - 1]).active.value;
      After(Idle, key, ss).active.None? <==>
        && Evidences(key, ss)[|ss| - 1]
        && |Raised(Evidences(key, ss), SinceSeen(key, ss))| >= active.recoveryCycles
  {
    var n := |ss| - 1;
    var past := ss[..n];
    RecoveryEffect(After(Idle, key, past), key, ss[n]);
    hide Step, After, Evidence;
    if ss[n].Observed(key).None? {
      RecoveryCountsEvidence(key, past);
      RaisedGrows(Evidences(key, past), Evidences(key, ss)[n], SinceSeen(key, past));
    }
  }

  // ---- blind spots and hysteresis ----------------------------------------

  /** However long a host stays unreachable, nothing but its connectivity condition moves. */
  lemma {:induction false} OfflineFreezes(start: KeyState, key: Key, ss: seq<Sample>)
    requires Coherent(start) && key != Connectivity && AllFromPolicy(ss)
    requires forall i :: 0 <= i < |ss| ==> !ss[i].online
    ensures
      var st := After(start, key, ss);
      && st.active == start.active
      && st.openedAt == start.openedAt
      && st.recoveries == start.recoveries
      && (ss != [] ==> st.candidate.None? && st.change.None?)
    ensures Log(start, key, ss) == []
  {
    if ss != [] {
      OfflineFreezes(start, key, ss[..|ss| - 1]);
    }
  }

  /** To the nearest hundredth, a tie to the even one. */
  function Hundredths(raw: real): int {
    var low, rest := raw.Floor, raw - raw.Floor as real;
    if rest < 0.5 || (rest == 0.5 && low % 2 == 0) then low else low + 1
  }

  /** The measurement is rounded up to the threshold or lies above it. */
  predicate Reaches(raw: real, threshold: int) {
    raw > threshold as real - 0.5 || (raw == threshold as real - 0.5 && threshold % 2 == 0)
  }

  lemma ReachesIff(raw: real, threshold: int)
    ensures Hundredths(raw) >= threshold <==> Reaches(raw, threshold)
  {
    var low := raw.Floor;
    assert low as real <= raw < low as real + 1.0;
    if raw == threshold as real - 0.5 {
      assert low == threshold - 1;
    }
  }

  /** The reading of a numeric condition, all in hundredths.  The measurement itself is held against the margin, and
      what it is rounded to against the threshold. */
  function Percentage(raw: Option<real>, threshold: int, criticalAt: int, margin: nat, observedAt: Stamp,
                      openAfterCycles: int, openAfterSeconds: int, recoveryCycles: int): Option<Condition>
  {
    if raw.None? || raw.value < (threshold - margin) as real then None
    else
      var rounded := Hundredths(raw.value);
      Some(Condition(
        if rounded >= criticalAt then Critical else Warning,
        Some(rounded), Some(threshold), observedAt, openAfterCycles, openAfterSeconds, recoveryCycles,
        rounded < threshold, Some(criticalAt), margin))
  }

  /** A sample reads `key` through `Percentage` at a measurement no less than the margin allows that does not reach
      the threshold. */
  ghost predicate InBand(key: Key, s: Sample, threshold: int, margin: nat) {
    exists raw, criticalAt, cycles, seconds, recovery ::
      && (threshold - margin) as real <= raw && !Reaches(raw, threshold)
      && s.Observed(key) ==
          Percentage(Some(raw), threshold, criticalAt, margin, s.observedAt, cycles, seconds, recovery)
  }

  lemma InBandBelow(key: Key, s: Sample, threshold: int, margin: nat)
    requires InBand(key, s, threshold, margin)
    ensures s.Observed(key).Some? && s.Observed(key).value.belowThreshold
  {
    var raw, criticalAt, cycles, seconds, recovery :|
      && (threshold - margin) as real <= raw && !Reaches(raw, threshold)
      && s.Observed(key) ==
          Percentage(Some(raw), threshold, criticalAt, margin, s.observedAt, cycles, seconds, recovery);
    ReachesIff(raw, threshold);
  }

  /** A signal staying in the band neither opens a condition nor lets one resolve. */
  lemma {:induction false} BandNeitherOpensNorResolves(
    start: KeyState, key: Key, ss: seq<Sample>, threshold: int, margin: nat)
    requires Coherent(start)
    requires forall i :: 0 <= i < |ss| ==> InBand(key, ss[i], threshold, margin)
    ensures After(start, key, ss).active.Some? == start.active.Some?
    ensures After(start, key, ss).openedAt == start.openedAt
    ensures forall e :: e in Log(start, key, ss) ==> e.transition.Escalated? || e.transition.Deescalated?
  {
    hide InBand;
    if ss != [] {
      InBandBelow(key, ss[|ss| - 1], threshold, margin);
      BandNeitherOpensNorResolves(start, key, ss[..|ss| - 1], threshold, margin);
    }
  }

  /** A measurement below the threshold can open a condition all the same: it does so at once, where one sample is
      enough, iff it is rounded up to the threshold. */
  lemma BelowOpensIff(key: Key, s: Sample, raw: real, threshold: int, criticalAt: int, margin: nat, recovery: int)
    requires (threshold - margin) as real <= raw < threshold as real && FromPolicy(s)
    requires s.Observed(key) == Percentage(Some(raw), threshold, criticalAt, margin, s.observedAt, 1, 0, recovery)
    ensures Step(Idle, key, s).state.active.Some? <==> Reaches(raw, threshold)
  {
    ReachesIff(raw, threshold);
    hide Hundredths;
  }

  // ---- what a restart forgets --------------------------------------------

  /** The states differ at most in the parts of the established reading that no rule looks at. */
  ghost predicate Similar(a: KeyState, b: KeyState) {
    && a.candidate == b.candidate
    && a.recoveries == b.recoveries
    && a.change == b.change
    && a.openedAt == b.openedAt
    && a.active.Some? == b.active.Some?
    && (a.active.Some? ==>
          && a.active.value.severity == b.active.value.severity
          && a.active.value.criticalAt == b.active.value.criticalAt
          && a.active.value.recoveryCycles == b.active.value.recoveryCycles)
  }

  lemma StepSimilar(a: KeyState, b: KeyState, key: Key, s: Sample)
    requires Coherent(a) && Coherent(b) && Similar(a, b)
    ensures Similar(Step(a, key, s).state, Step(b, key, s).state)
    ensures EmittedBy(a, key, s) == EmittedBy(b, key, s)
  {
  }

  /** Similar states emit the same transitions on every future sample sequence. */
  lemma {:induction false} SimilarForever(a: KeyState, b: KeyState, key: Key, ss: seq<Sample>)
    requires Coherent(a) && Coherent(b) && Similar(a, b)
    ensures Log(a, key, ss) == Log(b, key, ss)
    ensures Similar(After(a, key, ss), After(b, key, ss))
  {
    if ss != [] {
      var past := ss[..|ss| - 1];
      SimilarForever(a, b, key, past);
      StepSimilar(After(a, key, past), After(b, key, past), key, ss[|ss| - 1]);
    }
  }

  // ---- what a restart exposes --------------------------------------------

  /** Nothing is being confirmed, changed or recovered. */
  predicate Settled(st: KeyState) {
    st.candidate.None? && st.change.None? && st.recoveries == 0
  }

  /** Same activity, severity, criterion and opening time. */
  predicate SameCondition(a: KeyState, b: KeyState) {
    && a.active.Some? == b.active.Some?
    && a.openedAt == b.openedAt
    && (a.active.Some? ==>
          && a.active.value.severity == b.active.value.severity
          && a.active.value.criticalAt == b.active.value.criticalAt)
  }

  /** A pending confirmation or change has counted a sample, and a recovery is not complete. */
  predicate Counted(st: KeyState) {
    && (st.candidate.Some? ==> st.candidate.value.count >= 1)
    && (st.change.Some? ==> st.change.value.count >= 1)
    && (st.recoveries > 0 ==> st.active.Some? && st.recoveries < st.active.value.recoveryCycles)
  }

  lemma StepKeepsCounted(st: KeyState, key: Key, s: Sample)
    requires Coherent(st) && Counted(st)
    ensures Counted(Step(st, key, s).state)
  {
  }

  // ---- one configuration ---------------------------------------------------

  /** How many samples in a row, and how many seconds, confirm a condition. */
  datatype Timing = Timing(cycles: int, seconds: int)

  /** What a configuration settles for good: the recovery count, and for every condition its timing. */
  datatype Settings = Settings(recoveryCycles: int, timing: Key -> Timing)

  predicate Configured(c: Condition, key: Key, p: Settings) {
    && c.recoveryCycles == p.recoveryCycles
    && Timing(c.openAfterCycles, c.openAfterSeconds) == p.timing(key)
    && (Numeric(key) ==> c.criticalAt.Some?)
  }

  /** A sample as a policy with this configuration derives it; only an offline one is about connectivity. */
  ghost predicate UnderPolicy(s: Sample, p: Settings) {
    && FromPolicy(s)
    && (s.online ==> Connectivity !in s.conditions)
    && forall k :: k in s.conditions ==> Configured(s.conditions[k], k, p)
  }

  /** Samples of one host under one configuration. */
  ghost predicate AllUnder(ss: seq<Sample>, host: string, p: Settings) {
    forall i :: 0 <= i < |ss| ==> ss[i].host == host && UnderPolicy(ss[i], p)
  }

  /** No future of the host tells the two states apart. */
  ghost predicate Indistinguishable(a: KeyState, b: KeyState, host: string, key: Key, p: Settings)
    requires Coherent(a) && Coherent(b)
  {
    forall future :: AllUnder(future, host, p) ==> Log(a, key, future) == Log(b, key, future)
  }

  /** So many samples since then do not confirm yet. */
  predicate Unready(count: nat, since: Stamp, t: Timing) {
    count >= 1 && (count < t.cycles || (t.seconds > 0 && since.At?))
  }

  /** What is pending was left pending by this configuration. */
  predicate Waiting(st: KeyState, key: Key, p: Settings) {
    && (st.candidate.Some? ==>
          && Unready(st.candidate.value.count, st.candidate.value.since, p.timing(key))
          && Configured(st.candidate.value.condition, key, p) && !st.candidate.value.condition.belowThreshold)
    && (st.change.Some? ==> Unready(st.change.value.count, st.change.value.since, p.timing(key)))
  }

  lemma StepKeepsWaiting(st: KeyState, key: Key, s: Sample, p: Settings)
    requires Coherent(st) && Waiting(st, key, p) && UnderPolicy(s, p)
    ensures Waiting(Step(st, key, s).state, key, p)
  {
    hide HoldsSeverity, Evidence, AbsenceKnown, Delayed;
  }

  // ---- readings that confirm what is pending -------------------------------

  /** The same sample again and again; a reading of connectivity is an offline one. */
  function Repeated(host: string, key: Key, c: Condition, n: nat): (ss: seq<Sample>)
    ensures |ss| == n
  {
    seq(n, i => Sample(host, key != Connectivity, c.observedAt, map[key := c], {}))
  }

  lemma RepeatedGrows(host: string, key: Key, c: Condition, n: nat)
    requires n > 0
    ensures Repeated(host, key, c, n)[..n - 1] == Repeated(host, key, c, n - 1)
    ensures
      var s := Repeated(host, key, c, n)[n - 1];
      s.Observed(key) == Some(c) && FromPolicy(s)
  {
  }

  lemma RepeatedUnder(host: string, key: Key, c: Condition, n: nat, p: Settings)
    requires Configured(c, key, p)
    ensures AllUnder(Repeated(host, key, c, n), host, p)
  {
  }

  /** The instant by which a streak begun at `since` has lasted long enough, and how many samples it still lacks. */
  function LongEnough(since: Stamp, t: Timing): Stamp {
    if since.At? && t.seconds > 0 then At(since.epoch + t.seconds) else since
  }

  function Lacking(count: nat, t: Timing): nat {
    if count < t.cycles then t.cycles - count else 1
  }

  /** A streak confirms with its last lacking sample, a streak that begins with these does not. */
  lemma LackingConfirms(c: Condition, count: nat, since: Stamp)
    requires
      var t := Timing(c.openAfterCycles, c.openAfterSeconds);
      Unready(count, since, t) && c.observedAt == LongEnough(since, t)
    ensures
      var n := Lacking(count, Timing(c.openAfterCycles, c.openAfterSeconds));
      && n > 0 && Confirmed(c, count + n, since)
      && (n > 1 ==> !Confirmed(c, count + n - 1, since))
      && !Confirmed(c, n, c.observedAt)
  {
  }

  /** The candidate before the first of a run of readings: how long it is and since when. */
  predicate CandidateIs(st: KeyState, c: Condition, count: nat, since: Stamp) {
    if st.candidate.Some? && st.candidate.value.condition.severity == c.severity
    then count == st.candidate.value.count && since == st.candidate.value.since
    else count == 0 && since == c.observedAt
  }

  /** Readings that do not confirm are counted and emit nothing. */
  lemma {:induction false} CandidateCounts(
    st: KeyState, host: string, key: Key, c: Condition, count: nat, since: Stamp, n: nat)
    requires Coherent(st) && st.active.None? && !c.belowThreshold && CandidateIs(st, c, count, since)
    requires n > 0 ==> !Confirmed(c, count + n, since)
    ensures
      var ss := Repeated(host, key, c, n);
      var after := After(st, key, ss);
      Log(st, key, ss) == [] && after.active.None? && CandidateIs(after, c, count + n, since)
  {
    if n > 0 {
      CandidateCounts(st, host, key, c, count, since, n - 1);
      RepeatedGrows(host, key, c, n);
      hide Repeated;
      var ss := Repeated(host, key, c, n);
      CandidateReads(After(st, key, ss[..n - 1]), key, ss[n - 1], count + n - 1, since);
    }
  }

  lemma CandidateReads(st: KeyState, key: Key, s: Sample, count: nat, since: Stamp)
    requires Coherent(st) && st.active.None? && FromPolicy(s)
    requires s.Observed(key).Some? && !s.Observed(key).value.belowThreshold
    requires CandidateIs(st, s.Observed(key).value, count, since)
    ensures
      var c := s.Observed(key).value;
      var next := Step(st, key, s).state;
      if Confirmed(c, count + 1, since) then EmittedBy(st, key, s) != []
      else EmittedBy(st, key, s) == [] && next.active.None? && CandidateIs(next, c, count + 1, since)
  {
  }

  lemma CandidateOpens(a: KeyState, host: string, key: Key, c: Condition, count: nat, since: Stamp, n: nat)
    requires Coherent(a) && a.active.None? && !c.belowThreshold && CandidateIs(a, c, count, since)
    requires n > 0 && Confirmed(c, count + n, since) && (n > 1 ==> !Confirmed(c, count + n - 1, since))
    ensures Log(a, key, Repeated(host, key, c, n)) != []
  {
    hide Step, Repeated, EmittedBy, Confirmed, CandidateIs;
    CandidateCounts(a, host, key, c, count, since, n - 1);
    RepeatedGrows(host, key, c, n);
    var ss := Repeated(host, key, c, n);
    CandidateReads(After(a, key, ss[..n - 1]), key, ss[n - 1], count + n - 1, since);
  }

  /** A candidate opens with the readings it lacks, which are too few for a state without it. */
  lemma CandidateShows(a: KeyState, b: KeyState, host: string, key: Key, p: Settings)
    requires Coherent(a) && Coherent(b) && SameCondition(a, b) && Waiting(a, key, p) && Settled(b)
    requires a.candidate.Some?
    ensures !Indistinguishable(a, b, host, key, p)
  {
    var pending := a.candidate.value;
    var at := LongEnough(pending.since, p.timing(key));
    var c := pending.condition.(observedAt := at);
    var n := Lacking(pending.count, p.timing(key));
    LackingConfirms(c, pending.count, pending.since);
    hide Log, Repeated, Confirmed, AllUnder, LongEnough, Lacking;
    CandidateOpens(a, host, key, c, pending.count, pending.since, n);
    CandidateCounts(b, host, key, c, 0, at, n);
    RepeatedUnder(host, key, c, n, p);
  }

  /** Likewise for a pending change of severity. */
  predicate ChangeIs(st: KeyState, c: Condition, count: nat, since: Stamp) {
    if st.change.Some? then count == st.change.value.count && since == st.change.value.since
    else count == 0 && since == c.observedAt
  }

  lemma ChangeReads(st: KeyState, key: Key, s: Sample, count: nat, since: Stamp)
    requires Coherent(st) && st.active.Some? && FromPolicy(s)
    requires s.Observed(key).Some? && s.Observed(key).value.value.None?
    requires s.Observed(key).value.severity != st.active.value.severity
    requires ChangeIs(st, s.Observed(key).value, count, since)
    ensures
      var c := s.Observed(key).value;
      var next := Step(st, key, s).state;
      if Confirmed(c, count + 1, since) then EmittedBy(st, key, s) != []
      else
        && EmittedBy(st, key, s) == [] && ChangeIs(next, c, count + 1, since)
        && next.active.Some? && next.active.value.severity == st.active.value.severity
  {
  }

  lemma {:induction false} ChangeCounts(
    st: KeyState, host: string, key: Key, c: Condition, count: nat, since: Stamp, n: nat)
    requires Coherent(st) && st.active.Some? && c.value.None? && c.severity != st.active.value.severity
    requires ChangeIs(st, c, count, since)
    requires n > 0 ==> !Confirmed(c, count + n, since)
    ensures
      var ss := Repeated(host, key, c, n);
      var after := After(st, key, ss);
      && Log(st, key, ss) == [] && ChangeIs(after, c, count + n, since)
      && after.active.Some? && after.active.value.severity == st.active.value.severity
  {
    if n > 0 {
      ChangeCounts(st, host, key, c, count, since, n - 1);
      RepeatedGrows(host, key, c, n);
      hide Repeated;
      var ss := Repeated(host, key, c, n);
      ChangeReads(After(st, key, ss[..n - 1]), key, ss[n - 1], count + n - 1, since);
    }
  }

  lemma ChangeCommits(a: KeyState, host: string, key: Key, c: Condition, count: nat, since: Stamp, n: nat)
    requires Coherent(a) && a.active.Some? && c.value.None? && c.severity != a.active.value.severity
    requires ChangeIs(a, c, count, since)
    requires n > 0 && Confirmed(c, count + n, since) && (n > 1 ==> !Confirmed(c, count + n - 1, since))
    ensures Log(a, key, Repeated(host, key, c, n)) != []
  {
    hide Step, Repeated, EmittedBy, Confirmed, ChangeIs;
    ChangeCounts(a, host, key, c, count, since, n - 1);
    RepeatedGrows(host, key, c, n);
    var ss := Repeated(host, key, c, n);
    ChangeReads(After(a, key, ss[..n - 1]), key, ss[n - 1], count + n - 1, since);
  }

  /** A pending change is committed with the readings it lacks, which are too few for a state without it. */
  lemma ChangeShows(a: KeyState, b: KeyState, host: string, key: Key, p: Settings)
    requires Coherent(a) && Coherent(b) && SameCondition(a, b) && Waiting(a, key, p) && Settled(b)
    requires a.change.Some?
    ensures !Indistinguishable(a, b, host, key, p)
  {
    var pending := a.change.value;
    var t := p.timing(key);
    var at := LongEnough(pending.since, t);
    var c := Condition(pending.severity, None, None, at, t.cycles, t.seconds, p.recoveryCycles, false, Some(0), 0);
    var n := Lacking(pending.count, t);
    LackingConfirms(c, pending.count, pending.since);
    hide Log, Repeated, Confirmed, AllUnder, LongEnough, Lacking;
    ChangeCommits(a, host, key, c, pending.count, pending.since, n);
    ChangeCounts(b, host, key, c, 0, at, n);
    RepeatedUnder(host, key, c, n, p);
  }

  /** Evidence that the key is gone, as often as wanted. */
  function Absences(host: string, key: Key, at: Stamp, n: nat): (ss: seq<Sample>)
    ensures |ss| == n
  {
    seq(n, i => Sample(host, true, at, map[], set d | d in ConditionDomains(key)))
  }

  lemma AbsencesUnder(host: string, key: Key, at: Stamp, n: nat, p: Settings)
    ensures AllUnder(Absences(host, key, at, n), host, p)
  {
  }

  lemma AbsencesGrow(host: string, key: Key, at: Stamp, n: nat)
    requires n > 0
    ensures Absences(host, key, at, n)[..n - 1] == Absences(host, key, at, n - 1)
    ensures Evidence(at, key, Absences(host, key, at, n)[n - 1])
  {
  }

  /** Fewer absences than the recovery wants are counted and emit nothing. */
  lemma {:induction false} AbsencesCount(st: KeyState, host: string, key: Key, n: nat)
    requires Coherent(st) && st.active.Some? && (n > 0 ==> st.recoveries + n < st.active.value.recoveryCycles)
    ensures
      var ss := Absences(host, key, st.openedAt.value, n);
      var after := After(st, key, ss);
      && Log(st, key, ss) == []
      && after.active == st.active && after.openedAt == st.openedAt && after.recoveries == st.recoveries + n
  {
    if n > 0 {
      AbsencesCount(st, host, key, n - 1);
      AbsencesGrow(host, key, st.openedAt.value, n);
      hide Absences, AbsenceKnown;
    }
  }

  lemma EvidenceEnds(st: KeyState, key: Key, s: Sample)
    requires Coherent(st) && st.active.Some? && Evidence(st.openedAt.value, key, s)
    requires st.recoveries + 1 >= st.active.value.recoveryCycles
    ensures EmittedBy(st, key, s) != []
  {
  }

  /** As many absences as the recovery wants end it. */
  lemma AbsencesResolve(st: KeyState, host: string, key: Key, n: nat)
    requires Coherent(st) && st.active.Some? && n > 0 && st.recoveries + n >= st.active.value.recoveryCycles
    requires n > 1 ==> st.recoveries + n == st.active.value.recoveryCycles
    ensures Log(st, key, Absences(host, key, st.openedAt.value, n)) != []
  {
    hide Step, Absences, Evidence, EmittedBy;
    AbsencesCount(st, host, key, n - 1);
    AbsencesGrow(host, key, st.openedAt.value, n);
    var ss := Absences(host, key, st.openedAt.value, n);
    EvidenceEnds(After(st, key, ss[..n - 1]), key, ss[n - 1]);
  }

  /** A recovery under way ends before one that starts anew. */
  lemma RecoveryShows(a: KeyState, b: KeyState, host: string, key: Key, p: Settings)
    requires Coherent(a) && Coherent(b) && SameCondition(a, b) && Counted(a) && Settled(b)
    requires a.recoveries > 0
    requires a.active.value.recoveryCycles == p.recoveryCycles == b.active.value.recoveryCycles
    ensures !Indistinguishable(a, b, host, key, p)
  {
    hide Log, Absences, AllUnder;
    var n := p.recoveryCycles - a.recoveries;
    AbsencesResolve(a, host, key, n);
    AbsencesCount(b, host, key, n);
    AbsencesUnder(host, key, a.openedAt.value, n, p);
  }

  lemma {:induction false} AbsencesSilent(st: KeyState, host: string, key: Key, at: Stamp, n: nat)
    requires Coherent(st) && st.active.None?
    ensures
      var ss := Absences(host, key, at, n);
      Log(st, key, ss) == [] && After(st, key, ss).active.None?
  {
    if n > 0 {
      AbsencesSilent(st, host, key, at, n - 1);
      AbsencesGrow(host, key, at, n);
      hide Absences, AbsenceKnown;
    }
  }

  /** An active condition is resolved by absences that say nothing to an inactive one. */
  lemma ActiveShows(a: KeyState, b: KeyState, host: string, key: Key, p: Settings)
    requires Coherent(a) && Coherent(b) && a.active.None? && b.active.Some? && Settled(b)
    requires b.active.value.recoveryCycles == p.recoveryCycles
    ensures !Indistinguishable(a, b, host, key, p)
  {
    hide Log, Absences, AllUnder;
    var n := Max(1, p.recoveryCycles);
    AbsencesResolve(b, host, key, n);
    AbsencesSilent(a, host, key, b.openedAt.value, n);
    AbsencesUnder(host, key, b.openedAt.value, n, p);
  }

  /** A settled state cannot be told from one that shows as much, and any other state can. */
  lemma IndistinguishableIff(a: KeyState, b: KeyState, host: string, key: Key, p: Settings)
    requires Coherent(a) && Coherent(b) && SameCondition(a, b) && Counted(a) && Waiting(a, key, p) && Settled(b)
    requires a.active.Some? ==>
      a.active.value.recoveryCycles == p.recoveryCycles == b.active.value.recoveryCycles
    ensures Indistinguishable(a, b, host, key, p) <==> Settled(a)
  {
    hide Indistinguishable;
    if a.candidate.Some? {
      CandidateShows(a, b, host, key, p);
    } else if a.change.Some? {
      ChangeShows(a, b, host, key, p);
    } else if a.recoveries > 0 {
      RecoveryShows(a, b, host, key, p);
    } else {
      SettledSame(a, b, host, key, p);
    }
  }

  lemma SettledSame(a: KeyState, b: KeyState, host: string, key: Key, p: Settings)
    requires Coherent(a) && Coherent(b) && Similar(a, b)
    ensures Indistinguishable(a, b, host, key, p)
  {
    forall future ensures Log(a, key, future) == Log(b, key, future) {
      SimilarForever(a, b, key, future);
    }
  }
}
