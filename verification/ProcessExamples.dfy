/**
  Runs whose stored transitions do not come back as they were: two samples of
  one second, a limit that splits a run of one second, and a pid reused in the
  last second of a host that goes stale.
 */
module ProcessExamples {
  import opened Common
  import opened ProcessOrder
  import opened ProcessTransitions
  import opened ProcessDevices
  import opened ProcessTracking
  import opened ProcessRestore
  import opened ProcessClock
  import opened ProcessAlternation
  import opened ProcessTable
  import opened ProcessCuts
  import opened ProcessRestarts
  import opened ProcessTimes
  import opened ProcessReads

  // ---- samples of one second ---------------------------------------------

  const ONLY := GpuKey("node", "gpu")

  function OnlyReading(listed: seq<ProcKey>, available: bool): Reading {
    Reading(ONLY.id, true, available, listed)
  }

  /** A sample of a host whose one device lists these processes, or could not be asked for them. */
  function Sample(listed: seq<ProcKey>, available: bool, at: int): Op {
    Online(ONLY.host, [OnlyReading(listed, available)], map[], at)
  }

  /** A process is seen at 3 and gone at 5, and seen again within that second, after a query that failed. */
  function SeenAgain(p: ProcKey): seq<Op> {
    [Sample([p], true, 3), Sample([], true, 5), Sample([], false, 5), Sample([p], true, 5)]
  }

  /** A fleet of at most the one device. */
  predicate OnlyDevice(f: Fleet) {
    f.devices.Keys <= {ONLY} && IdentitiesOf(f.identities, ONLY.host) in {[], [ONLY.id]}
  }

  lemma TrackOnly(f: Fleet, listed: seq<ProcKey>, available: bool, workloads: map<int, Workload>, at: int)
    requires OnlyDevice(f)
    ensures
      var next := Step(f, Online(ONLY.host, [OnlyReading(listed, available)], workloads, at));
      && OnlyDevice(next)
      && Of(next.devices, ONLY) == Observe(Of(f.devices, ONLY), OnlyReading(listed, available), workloads, at)
  {
    hide Observe;
    var r := OnlyReading(listed, available);
    var ids := IdentitiesOf(f.identities, ONLY.host);
    TouchOnly(ids, r);
    var observed := ObserveAll(f.devices, ONLY.host, [r], workloads, at);
    assert [r][..0] == [] && ObserveAll(f.devices, ONLY.host, [r][..0], workloads, at) == f.devices;
    assert GpuKey(ONLY.host, [r][0].id) == ONLY;
    assert observed == f.devices[ONLY := Observe(Of(f.devices, ONLY), r, workloads, at)];
    assert EvictAll(observed, ONLY.host, []) == observed;
    assert r in [r] && r.id in Ids([r]);
    assert SettleHost(observed, ONLY.host, Ids([r])) == observed;
  }

  lemma TouchOnly(ids: seq<string>, r: Reading)
    requires ids in {[], [r.id]}
    ensures
      var touched := TouchAll(ids, [r]);
      touched == [r.id] && Excess(touched) == 0 && touched[..0] == [] && touched[0..] == [r.id]
  {
    assert [r][..0] == [];
    assert [r.id][..0] == [] && Without([], r.id) == [];
    assert Without([r.id], r.id) == [];
  }

  lemma SortedOne(p: ProcKey)
    ensures Sorted({p}) == [p] && Sorted({}) == []
  {
    assert IsLeast({p}, p);
    SortedTake({p}, p);
    assert {p} - {p} == {};
  }

  function SeenAt(p: ProcKey, at: int): Transition {
    Transition(at, false, p, None, Some(at), false)
  }

  function GoneAt(p: ProcKey, since: int, at: int): Transition {
    Transition(at, true, p, None, Some(since), true)
  }

  lemma FirstSight(d: Device, p: ProcKey, workloads: map<int, Workload>, at: int)
    requires !d.initialized && !d.pending && d.live == map[]
    ensures
      var process := Process(WorkloadOf(workloads, p), at);
      Observe(d, OnlyReading([p], true), workloads, at) ==
      d.(events := d.events + [ProcessTransition(at, false, p, process, false)], live := map[p := process],
         lastObserved := Some(at), lastPoint := Some(at), initialized := true)
  {
    var process := Process(WorkloadOf(workloads, p), at);
    var current := Current(d.live, [p], workloads, at);
    assert current == map[p := process];
    SortedOne(p);
    assert current.Keys == {p};
    assert Emitted([], current, at, false, false) == [];
    assert [p][..0] == [];
    assert current[p] == process;
    assert Emitted([p], current, at, false, false) == [] + [ProcessTransition(at, false, p, process, false)];
  }

  lemma OutOfSight(d: Device, p: ProcKey, since: int, at: int)
    requires d.initialized && d.live == map[p := Process(None, since)]
    ensures
      Observe(d, OnlyReading([], true), map[], at) ==
      d.(events := d.events + [GoneAt(p, since, at)], live := map[],
         lastObserved := Some(at), lastPoint := Some(at))
  {
    var current := Current(d.live, [], map[], at);
    assert current == map[];
    SortedOne(p);
    assert p in d.live && d.live.Keys == {p};
    assert d.live.Keys - current.Keys == {p};
    assert current.Keys - d.live.Keys == {};
    assert ReplacedKeys(d.live, [], map[]) == {};
    assert [p][..0] == [];
    assert Emitted([p], d.live, at, true, true) == [GoneAt(p, since, at)];
  }

  lemma QueryFails(d: Device, at: int)
    requires d.live == map[] && d.lastObserved.Some?
    ensures
      Observe(d, OnlyReading([], false), map[], at) ==
      d.(lastObserved := None, lastPoint := Some(at), initialized := false)
  {
  }

  lemma RunNothing()
    ensures Run([]) == Fleet(map[], map[])
  {
  }

  lemma SeenAgainLog(p: ProcKey)
    ensures Of(Run(SeenAgain(p)).devices, ONLY).events == [SeenAt(p, 3), GoneAt(p, 3, 5), SeenAt(p, 5)]
  {
    hide Observe, Step, Run;
    var a, b := Sample([p], true, 3), Sample([], true, 5);
    var c, e := Sample([], false, 5), Sample([p], true, 5);
    RunNothing();
    RunSnoc([], a);
    RunSnoc([a], b);
    RunSnoc([a, b], c);
    RunSnoc([a, b, c], e);
    assert [] + [a] == [a] && [a] + [b] == [a, b] && [a, b] + [c] == [a, b, c] && [a, b, c] + [e] == SeenAgain(p);
    TrackOnly(Run([]), [p], true, map[], 3);
    TrackOnly(Run([a]), [], true, map[], 5);
    TrackOnly(Run([a, b]), [], false, map[], 5);
    TrackOnly(Run([a, b, c]), [p], true, map[], 5);
    FirstSight(Of(Run([]).devices, ONLY), p, map[], 3);
    OutOfSight(Of(Run([a]).devices, ONLY), p, 3, 5);
    QueryFails(Of(Run([a, b]).devices, ONLY), 5);
    FirstSight(Of(Run([a, b, c]).devices, ONLY), p, map[], 5);
  }

  /** Two samples of one second can leave a collector's log without repeated rows that ordering does not restore: the
      log leaves the last start open, and the ordered rows leave nothing open. */
  lemma SeenAgainNotRestored(p: ProcKey, rows: seq<Transition>)
    requires
      var log := Of(Run(SeenAgain(p)).devices, ONLY).events;
      multiset(rows) == multiset(log) && Ranked(log, rows)
    ensures
      var log := Of(Run(SeenAgain(p)).devices, ONLY).events;
      && Stamped(log) && Keyed(log) && !KeysRanked(log)
      && OpenAt(log, p) == Some(5) && OpenAt(rows, p) == None
  {
    hide Run;
    SeenAgainLog(p);
    var first, gone, again := SeenAt(p, 3), GoneAt(p, 3, 5), SeenAt(p, 5);
    var log := [first, gone, again];
    var ordered := [first, again, gone];
    SeenAgainOpen(p);
    SeenAgainRank(p);
    assert multiset(ordered) == multiset(log);
    RankedUnique(log, rows, ordered);
  }

  lemma SeenAgainOpen(p: ProcKey)
    ensures
      var log := [SeenAt(p, 3), GoneAt(p, 3, 5), SeenAt(p, 5)];
      Stamped(log) && OpenAt(log, p) == Some(5)
    ensures OpenAt([SeenAt(p, 3), SeenAt(p, 5), GoneAt(p, 3, 5)], p) == None
  {
    var first, gone, again := SeenAt(p, 3), GoneAt(p, 3, 5), SeenAt(p, 5);
    assert [] + [first] == [first] && [first] + [gone] == [first, gone];
    assert [first, gone] + [again] == [first, gone, again];
    assert [first] + [again] == [first, again] && [first, again] + [gone] == [first, again, gone];
    StampedAppend([], first);
    OpenAppend([], first);
    StampedAppend([first], gone);
    OpenAppend([first], gone);
    StampedAppend([first, gone], again);
    OpenAppend([first, gone], again);
    OpenAppend([first, again], gone);
  }

  lemma SeenAgainRank(p: ProcKey)
    ensures
      var log := [SeenAt(p, 3), GoneAt(p, 3, 5), SeenAt(p, 5)];
      && Keyed(log) && !KeysRanked(log)
      && Ranked(log, [SeenAt(p, 3), SeenAt(p, 5), GoneAt(p, 3, 5)])
  {
    NameTotal(p.name, p.name);
    var log := [SeenAt(p, 3), GoneAt(p, 3, 5), SeenAt(p, 5)];
    assert StartedAt(log[1].workload).None? && StartedAt(log[2].workload).None?;
    assert Second(log, log[1]) && !Second(log, log[2]);
    assert !Before(log, log[1], log[2]);
  }

  // ---- a limit inside a second -------------------------------------------

  function When(i: nat): int {
    5 * (i / 2 + 1)
  }

  /** A host answers one sample with the process and goes stale, again and again. */
  function OnAndOff(p: ProcKey, n: nat): seq<Op> {
    if n == 0 then []
    else OnAndOff(p, n - 1) + [if n % 2 == 1 then Sample([p], true, When(n - 1)) else Stale(ONLY.host)]
  }

  /** Its transitions: hidden runs that start and stop in one second. */
  function Blink(p: ProcKey, i: nat): Transition {
    Transition(When(i), i % 2 == 1, p, None, Some(When(i)), false)
  }

  function Blinks(p: ProcKey, n: nat): (log: seq<Transition>)
    ensures |log| == n && forall i :: 0 <= i < n ==> log[i] == Blink(p, i)
  {
    seq(n, i requires 0 <= i => Blink(p, i))
  }

  lemma StaleOnly(f: Fleet)
    requires OnlyDevice(f)
    ensures OnlyDevice(Step(f, Stale(ONLY.host)))
    ensures Of(Step(f, Stale(ONLY.host)).devices, ONLY) == Settle(Of(f.devices, ONLY))
  {
    hide CloseUnobservable, Closures, Sorted;
  }

  lemma GoesStale(d: Device, p: ProcKey, process: Process, at: int)
    requires d.initialized && !d.pending && d.live == map[p := process] && d.lastObserved == Some(at)
    ensures
      Settle(d) ==
      d.(events := d.events + [ProcessTransition(at, true, p, process, false)], live := map[], lastObserved := None,
         initialized := false)
  {
    SortedOne(p);
    assert d.live.Keys == {p} && p in d.live;
    assert [p][..0] == [];
    assert Emitted([p], d.live, at, true, false) == [] + [ProcessTransition(at, true, p, process, false)];
  }

  /** The device after so many steps. */
  function Blinking(p: ProcKey, n: nat): Device {
    var last := if n == 0 then None else Some(When((n - 1) / 2 * 2));
    Device(Blinks(p, n), if n % 2 == 1 then map[p := Process(None, When(n - 1))] else map[],
           if n % 2 == 1 then last else None, last, n % 2 == 1, false)
  }

  lemma {:induction false} OnAndOffRuns(p: ProcKey, n: nat)
    ensures OnlyDevice(Run(OnAndOff(p, n))) && Of(Run(OnAndOff(p, n)).devices, ONLY) == Blinking(p, n)
  {
    hide Observe, Settle, Step, Run, OnlyDevice;
    if n == 0 {
      RunNothing();
      OnlyNothing();
      assert Blinks(p, 0) == [];
    } else {
      OnAndOffRuns(p, n - 1);
      var past, d := OnAndOff(p, n - 1), Blinking(p, n - 1);
      BlinksGrow(p, n);
      if n % 2 == 1 {
        RunSnoc(past, Sample([p], true, When(n - 1)));
        TrackOnly(Run(past), [p], true, map[], When(n - 1));
        FirstSight(d, p, map[], When(n - 1));
      } else {
        RunSnoc(past, Stale(ONLY.host));
        StaleOnly(Run(past));
        GoesStale(d, p, Process(None, When(n - 2)), When(n - 2));
      }
    }
  }

  lemma OnlyNothing()
    ensures OnlyDevice(Fleet(map[], map[])) && Of(map[], ONLY) == Blank
  {
  }

  lemma BlinksGrow(p: ProcKey, n: nat)
    requires n > 0
    ensures Blinks(p, n) == Blinks(p, n - 1) + [Blink(p, n - 1)]
  {
  }

  lemma {:induction false} OnAndOffInOrder(p: ProcKey, n: nat, t: int)
    ensures SamplesIncrease(OnAndOff(p, n)) && Faithful(OnAndOff(p, n)) && Harmless(OnAndOff(p, n))
    ensures (n > 0 ==> t > When(n - 1)) ==> SampledBefore(OnAndOff(p, n), ONLY.host, t)
  {
    hide Run, Written, StoredFrom, HarmlessCut;
    if n > 0 {
      OnAndOffInOrder(p, n - 1, t);
      OnAndOffInOrder(p, n - 1, When(n - 1));
    }
  }

  lemma SampleUndisturbed(past: seq<Op>, listed: seq<ProcKey>, at: int)
    requires Undisturbed(past, ONLY) && OnlyDevice(Run(past))
    ensures Undisturbed(past + [Sample(listed, true, at)], ONLY)
  {
    hide Run, IdentitiesOf, TouchAll, Excess;
    var ops := past + [Sample(listed, true, at)];
    assert ops[..|ops| - 1] == past;
    TouchOnly(IdentitiesOf(Run(past).identities, ONLY.host), OnlyReading(listed, true));
  }

  lemma StaleUndisturbed(past: seq<Op>)
    requires Undisturbed(past, ONLY)
    ensures Undisturbed(past + [Stale(ONLY.host)], ONLY)
  {
    hide Run;
    assert (past + [Stale(ONLY.host)])[..|past|] == past;
  }

  lemma {:induction false} OnAndOffUndisturbed(p: ProcKey, n: nat)
    ensures Undisturbed(OnAndOff(p, n), ONLY)
  {
    hide Run, When, Blinking, OnlyDevice, Sample, Undisturbed, Of;
    if n == 0 {
      NothingUndisturbed();
    } else {
      OnAndOffUndisturbed(p, n - 1);
      OnAndOffRuns(p, n - 1);
      SampleUndisturbed(OnAndOff(p, n - 1), [p], When(n - 1));
      StaleUndisturbed(OnAndOff(p, n - 1));
    }
  }

  lemma NothingUndisturbed()
    ensures Undisturbed([], ONLY)
  {
  }

  /** The newest rows but for the first stop. */
  function WithoutFirstStop(p: ProcKey, n: nat): (r: seq<Transition>)
    requires n > 0
    ensures |r| == n && forall i :: 0 <= i < n ==> r[i] == Blink(p, if i == 0 then 0 else i + 1)
  {
    seq(n, i requires 0 <= i => Blink(p, if i == 0 then 0 else i + 1))
  }

  lemma BlinksApart(p: ProcKey, n: nat)
    ensures Keyed(Blinks(p, n)) && KeyedRows(Elements(Blinks(p, n)))
  {
    forall i, j | 0 <= i < j ensures !SameRow(Blink(p, i), Blink(p, j)) {
      BlinkRows(p, i, j);
    }
    hide SameRow, Blink;
    SameRowSelf();
  }

  lemma SameRowSelf()
    ensures forall e :: SameRow(e, e)
  {
  }

  lemma BlinkRows(p: ProcKey, i: nat, j: nat)
    requires i < j
    ensures !SameRow(Blink(p, i), Blink(p, j)) && Blink(p, i).at <= Blink(p, j).at
    ensures Blink(p, i).at == Blink(p, j).at ==> !Blink(p, i).stopped && Blink(p, j).stopped && j == i + 1
  {
  }

  lemma BlinksRanked(p: ProcKey, n: nat)
    requires n > 0
    ensures
      var r := WithoutFirstStop(p, n);
      Ranked(r, r)
  {
    var r := WithoutFirstStop(p, n);
    forall i, j | 0 <= i < j < n ensures Before(r, r[i], r[j]) {
      BlinkRows(p, if i == 0 then 0 else i + 1, j + 1);
      assert StartedAt(r[i].workload).None? && StartedAt(r[j].workload).None?;
    }
  }

  /** A row that is not read back is the first stop, and that is the oldest. */
  lemma OnlyFirstStop(p: ProcKey, n: nat, e: Transition, f: Transition)
    requires n > 0 && e in Blinks(p, n + 1) && e !in WithoutFirstStop(p, n) && f in WithoutFirstStop(p, n)
    ensures Older(e, f)
  {
    hide Blink, Older;
    var log, r := Blinks(p, n + 1), WithoutFirstStop(p, n);
    assert r[0] == log[0];
    forall i | 1 < i < |log| ensures log[i] in r {
      assert r[i - 1] == log[i];
    }
    var i :| 0 <= i < |log| && log[i] == e;
    var j :| 0 <= j < |r| && r[j] == f;
    FirstStopOldest(p, if j == 0 then 0 else j + 1);
  }

  lemma RestOfBlinks(p: ProcKey, n: nat)
    requires n > 0
    ensures forall e :: e in WithoutFirstStop(p, n) ==> e in Blinks(p, n + 1)
    ensures |Elements(WithoutFirstStop(p, n))| == n && |Elements(Blinks(p, n + 1))| == n + 1
  {
    hide Blink;
    var log, r := Blinks(p, n + 1), WithoutFirstStop(p, n);
    forall e | e in r ensures e in log {
      var i :| 0 <= i < |r| && r[i] == e;
      assert e == log[if i == 0 then 0 else i + 1];
    }
    forall i, j | 0 <= i < j < |log| ensures log[i] != log[j] {
      BlinksDiffer(p, i, j);
    }
    forall i, j | 0 <= i < j < |r| ensures r[i] != r[j] {
      BlinksDiffer(p, if i == 0 then 0 else i + 1, j + 1);
    }
    DistinctCount(log);
    DistinctCount(r);
  }

  lemma BlinksDiffer(p: ProcKey, i: nat, j: nat)
    requires i < j
    ensures Blink(p, i) != Blink(p, j)
  {
  }

  /** With one row more than the limit the query drops the stop of the oldest second, and nothing else. */
  lemma BlinksCut(p: ProcKey, n: nat)
    requires n > 0
    ensures TableCut(Elements(Blinks(p, n + 1)), 0, n, WithoutFirstStop(p, n))
  {
    hide Ranked, Blink, Older, Blinks, WithoutFirstStop;
    var log, r := Blinks(p, n + 1), WithoutFirstStop(p, n);
    var table := Elements(log);
    BlinksRanked(p, n);
    RestOfBlinks(p, n);
    AllHidden(p, n + 1);
    assert Partition(table, 0, true) == {} && Partition(table, 0, false) == table;
    forall e, f | e in table && e !in Elements(r) && f in Elements(r) ensures Older(e, f) {
      OnlyFirstStop(p, n, e, f);
    }
    hide Partition;
    assert Newest(table, n, Elements(r));
    assert Newest({}, n, {});
    ListedOnce(r);
    hide Newest, Elements;
    assert Cut(table, 0, n, Elements(r), {}, r, r);
  }

  lemma ListedOnce(r: seq<Transition>)
    requires |Elements(r)| == |r|
    ensures Lists(r, Elements(r) + {})
  {
    assert Elements(r) + {} == Elements(r);
  }

  lemma AllHidden(p: ProcKey, n: nat)
    ensures forall e :: e in Blinks(p, n) ==> !e.visible && e.at >= 0
  {
  }

  lemma FirstStopOldest(p: ProcKey, j: nat)
    requires j != 1
    ensures Older(Blink(p, 1), Blink(p, j))
  {
  }

  /** For every limit a run in which a restart reads back a start without its stop: its log leaves nothing open or
      only its last start, and what comes back is not a collector's log that leaves the same open. */
  lemma LimitCutsShort(p: ProcKey, n: nat)
    requires n > 0
    ensures
      var ops, r := OnAndOff(p, n + 1), WithoutFirstStop(p, n);
      var log := Of(Run(ops).devices, ONLY).events;
      && Faithful(ops) && Harmless(ops) && SamplesIncrease(ops)
      && StoredFrom(Written(ops, ONLY), Of(Run(ops).devices, ONLY),
                    Restored(r, Of(Run(ops).devices, ONLY).lastPoint))
      && log == Blinks(p, n + 1) && Collected(log)
      && !NoneCutShort(log, r) && !(Collected(r) && OpensAs(r, log))
  {
    hide Run, Written, Faithful, Harmless, SamplesIncrease, Collected, OpensAs, Undisturbed, TableCut, Blink, Keyed;
    hide KeyedRows, Elements, StoredFrom, NoneCutShort;
    var ops, r := OnAndOff(p, n + 1), WithoutFirstStop(p, n);
    OnAndOffInOrder(p, n + 1, 0);
    OnAndOffRuns(p, n + 1);
    OnAndOffUndisturbed(p, n + 1);
    UndisturbedWritten(ops, ONLY);
    BlinksApart(p, n + 1);
    BlinksCut(p, n);
    FaithfulRuns(ops, ONLY);
    var d := Of(Run(ops).devices, ONLY);
    var back := Restored(r, d.lastPoint);
    ReadBack(Written(ops, ONLY), d, back, n);
    CutShort(p, n);
    RestartCollectedIff(ops, ONLY, back);
  }

  lemma ReadBack(table: set<Transition>, d: Device, r: Restored, n: nat)
    requires KeyedRows(table) && Keyed(d.events) && r.lastPoint == d.lastPoint && TableCut(table, 0, n, r.events)
    ensures StoredFrom(table, d, r)
  {
  }

  lemma CutShort(p: ProcKey, n: nat)
    requires n > 0
    ensures
      var log, r := Blinks(p, n + 1), WithoutFirstStop(p, n);
      !NoneCutShort(log, r) && forall e :: e in r ==> e in log
  {
    var log, r := Blinks(p, n + 1), WithoutFirstStop(p, n);
    RestOfBlinks(p, n);
    BlinksApart(p, n + 1);
    hide Blink;
    assert log[0] == r[0] && log[1] !in r;
    FirstTwo(p);
    assert SameSecond(log[0], log[1]);
  }

  lemma FirstTwo(p: ProcKey)
    ensures SameSecond(Blink(p, 0), Blink(p, 1)) && !Blink(p, 0).stopped && Blink(p, 1).stopped
  {
  }

  // ---- a pid reused in the last second -----------------------------------

  function Instance(startedAt: int): Workload {
    Workload(Some(startedAt), None)
  }

  function Owned(p: ProcKey, startedAt: int, at: int): Op {
    Online(ONLY.host, [OnlyReading([p], true)], map[p.pid := Instance(startedAt)], at)
  }

  /** A process is seen at 3, another one under its pid at 5, and the host answers no more. */
  function ReusedThenStale(p: ProcKey): seq<Op> {
    [Owned(p, 1, 3), Owned(p, 4, 5), Stale(ONLY.host)]
  }

  function Old(since: int): Process {
    Process(Some(Instance(1)), since)
  }

  function New(since: int): Process {
    Process(Some(Instance(4)), since)
  }

  /** Its log: the first one starts and stops, the second starts and stops within 5. */
  function ReusedLog(p: ProcKey): seq<Transition> {
    [ProcessTransition(3, false, p, Old(3), false), ProcessTransition(5, true, p, Old(3), true),
     ProcessTransition(5, false, p, New(5), true), ProcessTransition(5, true, p, New(5), false)]
  }

  lemma AnotherInstance(d: Device, p: ProcKey)
    requires d.initialized && d.live == map[p := Old(3)]
    ensures
      var pair := [ProcessTransition(5, true, p, Old(3), true), ProcessTransition(5, false, p, New(5), true)];
      Observe(d, OnlyReading([p], true), map[p.pid := Instance(4)], 5) ==
      d.(events := d.events + pair,
         live := map[p := New(5)], lastObserved := Some(5), lastPoint := Some(5))
  {
    var workloads := map[p.pid := Instance(4)];
    var current := Current(d.live, [p], workloads, 5);
    assert !Carries(d.live, workloads, p);
    assert current == map[p := New(5)];
    SortedOne(p);
    assert d.live.Keys == {p} && current.Keys == {p} && p in d.live;
    assert ReplacedKeys(d.live, [p], workloads) == {p};
    assert {p} - {p} == {} && [p][..0] == [];
    var pair := [ProcessTransition(5, true, p, Old(3), true), ProcessTransition(5, false, p, New(5), true)];
    assert Replaced([p], d.live, current, 5) == [] + pair;
    assert Changes(d.live, current, {p}, 5) == [] + [] + pair;
  }

  lemma ReusedThenStaleLog(p: ProcKey)
    ensures Of(Run(ReusedThenStale(p)).devices, ONLY).events == ReusedLog(p)
    ensures SamplesIncrease(ReusedThenStale(p))
  {
    hide Observe, Step, Run, Settle;
    var a, b, c := Owned(p, 1, 3), Owned(p, 4, 5), Stale(ONLY.host);
    RunNothing();
    RunSnoc([], a);
    RunSnoc([a], b);
    RunSnoc([a, b], c);
    assert [] + [a] == [a] && [a] + [b] == [a, b] && [a, b] + [c] == ReusedThenStale(p);
    TrackOnly(Run([]), [p], true, map[p.pid := Instance(1)], 3);
    TrackOnly(Run([a]), [p], true, map[p.pid := Instance(4)], 5);
    FirstSight(Of(Run([]).devices, ONLY), p, map[p.pid := Instance(1)], 3);
    AnotherInstance(Of(Run([a]).devices, ONLY), p);
    StaleOnly(Run([a, b]));
    GoesStale(Of(Run([a, b]).devices, ONLY), p, New(5), 5);
    ReusedInOrder(a, b, c);
  }

  lemma ReusedInOrder(a: Op, b: Op, c: Op)
    requires a.Online? && b.Online? && !c.Online? && a.host == b.host && a.at < b.at
    requires |a.readings| == 1 && |b.readings| == 1
    ensures SamplesIncrease([a, b, c])
  {
    assert [a, b, c][..2] == [a, b] && [a, b][..1] == [a] && [a][..0] == [];
    assert SampledBefore([a], b.host, b.at);
    assert SamplesIncrease([a]);
    assert SamplesIncrease([a, b]);
  }

  /** The hidden and the visible stop of that second are one row key with two contents.  The order of emission then puts
      the hidden stop before the start, whatever is read back: the log leaves nothing open, the rows the start. */
  lemma ReusedNotRestored(p: ProcKey, rows: seq<Transition>)
    requires
      var log := ReusedLog(p);
      var items := [log[0], log[3]] + [log[1], log[2]];
      && multiset(rows) == multiset(items) && NeverBack(items, rows)
      && forall e :: Tied(items, rows, e) == Tied(items, items, e)
    ensures
      var log := Of(Run(ReusedThenStale(p)).devices, ONLY).events;
      && SamplesIncrease(ReusedThenStale(p)) && log == ReusedLog(p) && !Keyed(log)
      && OpenAt(log, p) == None && OpenAt(rows, p) == Some(5)
  {
    hide Run, SamplesIncrease, NeverBack, Tied, Before;
    ReusedThenStaleLog(p);
    var log := ReusedLog(p);
    assert SameRow(log[1], log[3]);
    StartLast(p, rows);
    OpenAppend(rows[..3], log[2]);
    OpenAppend(log[..3], log[3]);
    assert rows == rows[..3] + [log[2]] && log == log[..3] + [log[3]];
  }

  lemma ReusedRanks(p: ProcKey)
    ensures
      var log := ReusedLog(p);
      var items := [log[0], log[3]] + [log[1], log[2]];
      && Before(items, log[0], log[2]) && Before(items, log[1], log[2])
      && !Before(items, log[2], log[3]) && !Before(items, log[3], log[2])
  {
    NameTotal(p.name, p.name);
    var log := ReusedLog(p);
    var items := [log[0], log[3]] + [log[1], log[2]];
    assert items == [log[0], log[3], log[1], log[2]];
    assert items[..3] == [log[0], log[3], log[1]];
    assert items[..3][..2] == [log[0], log[3]] && items[..2] == [log[0], log[3]];
    assert Twin(items, log[2]) == Some(1);
    assert Twin(items, log[1]) == Some(4);
    assert Twin(items, log[3]) == Some(4);
  }

  lemma StartLast(p: ProcKey, rows: seq<Transition>)
    requires
      var log := ReusedLog(p);
      var items := [log[0], log[3]] + [log[1], log[2]];
      && multiset(rows) == multiset(items) && NeverBack(items, rows)
      && forall e :: Tied(items, rows, e) == Tied(items, items, e)
    ensures |rows| == 4 && rows[3] == ReusedLog(p)[2]
  {
    var log := ReusedLog(p);
    var items := [log[0], log[3]] + [log[1], log[2]];
    SameLength(rows, items);
    ReusedRanks(p);
    assert rows[3] in multiset(items) && log[2] in multiset(rows);
    var i :| 0 <= i < |rows| && rows[i] == log[2];
    TiedLast(items, rows, log[2]);
    TiedLast(items, items, log[2]);
    hide Before, Tied;
    assert i < 3 ==> !Before(items, rows[3], log[2]);
  }

  /** Of rows ranked alike the last is the last of those tied with it. */
  lemma TiedLast(items: seq<Transition>, log: seq<Transition>, e: Transition)
    requires log != [] && !Before(items, e, log[|log| - 1]) && !Before(items, log[|log| - 1], e)
    ensures
      var tied := Tied(items, log, e);
      tied != [] && tied[|tied| - 1] == log[|log| - 1]
  {
    hide Before;
  }
}
