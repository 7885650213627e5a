/**
  Runs of the process store whose restarts read the table the run itself has
  written.  Of what is read back it is assumed that the table's key tells rows
  apart, that they are of the device's present record, and that no cut keeps a
  start whose stop of the same second it drops.
 */
module ProcessReads {
  import opened Common
  import opened ProcessOrder
  import opened ProcessTransitions
  import opened ProcessDevices
  import opened ProcessTracking
  import opened ProcessRestore
  import opened ProcessClock
  import opened ProcessAlternation
  import opened ProcessTable
  import opened ProcessCuts
  import opened ProcessSwaps
  import opened ProcessRestarts
  import opened ProcessTimes

  // ---- reused pids are recorded together ---------------------------------

  ghost predicate AllSwapped(devices: Devices) {
    forall k :: k in devices ==> Swapped(devices[k])
  }

  lemma BlankSwapped()
    ensures Swapped(Blank) && Swapped(Blank.(pending := true)) && forall t :: Earlier(Blank, t)
  {
  }

  lemma {:induction false} ObserveAllSwapped(
    devices: Devices, host: string, readings: seq<Reading>, workloads: map<int, Workload>, at: int)
    requires AllSwapped(devices) && HostEarlier(devices, host, at) && DistinctIds(readings)
    ensures AllSwapped(ObserveAll(devices, host, readings, workloads, at))
  {
    hide Swapped, Earlier, Observe;
    if readings != [] {
      var past, r := readings[..|readings| - 1], readings[|readings| - 1];
      var k := GpuKey(host, r.id);
      NotListedBefore(readings);
      ObserveAllSwapped(devices, host, past, workloads, at);
      ObserveAllElsewhere(devices, host, past, workloads, at, k);
      BlankSwapped();
      ObserveSwapped(Of(ObserveAll(devices, host, past, workloads, at), k), r, workloads, at);
    }
  }

  lemma SettleHostSwapped(devices: Devices, host: string, observed: set<string>)
    requires AllSwapped(devices)
    ensures AllSwapped(SettleHost(devices, host, observed))
  {
    hide Swapped, Settle;
    forall k | k in devices ensures Swapped(Settle(devices[k])) {
      SettleSwapped(devices[k]);
    }
  }

  lemma EvictAllSwapped(devices: Devices, host: string, gone: seq<string>)
    requires AllSwapped(devices)
    ensures AllSwapped(EvictAll(devices, host, gone))
  {
    BlankSwapped();
    hide Swapped;
  }

  lemma TrackSwapped(f: Fleet, host: string, readings: seq<Reading>, workloads: map<int, Workload>, at: int)
    requires AllSwapped(f.devices) && HostEarlier(f.devices, host, at) && DistinctIds(readings)
    ensures AllSwapped(Track(f, host, readings, workloads, at).devices)
  {
    hide AllSwapped, HostEarlier, ObserveAll, EvictAll, SettleHost, DistinctIds;
    var ids := TouchAll(IdentitiesOf(f.identities, host), readings);
    var observed := ObserveAll(f.devices, host, readings, workloads, at);
    ObserveAllSwapped(f.devices, host, readings, workloads, at);
    EvictAllSwapped(observed, host, ids[..Excess(ids)]);
    SettleHostSwapped(EvictAll(observed, host, ids[..Excess(ids)]), host, Ids(readings));
  }

  ghost predicate RestoresSwapped(op: Op) {
    op.Restart? ==> forall k :: k in op.restored ==> Swapped(Resumed(op.restored[k]))
  }

  lemma StepSwapped(past: seq<Op>, op: Op)
    requires AllSwapped(Run(past).devices) && AllEarlier(Run(past).devices, past)
    requires SamplesFollow(past + [op]) && RestoresSwapped(op)
    ensures AllSwapped(Step(Run(past), op).devices)
  {
    hide Run, Swapped, Earlier, SettleHost, Track;
    var f, ops := Run(past), past + [op];
    assert ops[..|ops| - 1] == past;
    match op
    case Online(host, readings, workloads, at) =>
      assert HostEarlier(f.devices, host, at);
      TrackSwapped(f, host, readings, workloads, at);
    case Stale(host) => SettleHostSwapped(f.devices, host, {});
    case Removed(hosts) =>
    case Restart(restored, identities) =>
  }

  lemma {:induction false} RunSwapped(ops: seq<Op>)
    requires SamplesFollow(ops) && forall op :: op in ops ==> RestoresTimed(op) && RestoresSwapped(op)
    ensures AllSwapped(Run(ops).devices)
  {
    hide Step, AllSwapped, AllTimed, AllEarlier, RestoresTimed, RestoresSwapped, SamplesFollow, Run;
    if ops == [] {
      NothingSwapped();
    } else {
      var past, op := ops[..|ops| - 1], ops[|ops| - 1];
      assert past + [op] == ops;
      PastFollows(ops);
      RunSwapped(past);
      RunTimed(past);
      RunSnoc(past, op);
      StepSwapped(past, op);
    }
  }

  lemma NothingSwapped()
    ensures AllSwapped(Run([]).devices)
  {
  }

  // ---- the table ---------------------------------------------------------

  /** What the run has written of a device: all that its log grew by, whatever became of the log since. */
  ghost function Written(ops: seq<Op>, k: GpuKey): set<Transition> {
    if ops == [] then {}
    else
      var past, op := ops[..|ops| - 1], ops[|ops| - 1];
      var before, after := Of(Run(past).devices, k).events, Of(Run(ops).devices, k).events;
      match op
      case Online(host, readings, workloads, at) =>
        var observed := Of(ObserveAll(Run(past).devices, host, readings, workloads, at), k).events;
        Written(past, k) + (Elements(observed) - Elements(before)) + (Elements(after) - Elements(before))
      case Stale(_) => Written(past, k) + (Elements(after) - Elements(before))
      case Removed(_) => Written(past, k)
      case Restart(_, _) => Written(past, k)
  }

  /** Every restart cuts the table the run before it has written. */
  ghost predicate Faithful(ops: seq<Op>) {
    ops != [] ==>
      && Faithful(ops[..|ops| - 1])
      && var past, op := ops[..|ops| - 1], ops[|ops| - 1];
      op.Restart? ==> forall k :: k in op.restored ==>
        StoredFrom(Written(past, k), Of(Run(past).devices, k), op.restored[k])
  }

  /** ... and harms no device by it. */
  ghost predicate Harmless(ops: seq<Op>) {
    ops != [] ==>
      && Harmless(ops[..|ops| - 1])
      && var past, op := ops[..|ops| - 1], ops[|ops| - 1];
      op.Restart? ==> forall k :: k in op.restored ==> HarmlessCut(Of(Run(past).devices, k), op.restored[k])
  }

  /** What a device's log has is in the table. */
  lemma {:induction false} LogWritten(ops: seq<Op>, k: GpuKey)
    requires Faithful(ops)
    ensures Elements(Of(Run(ops).devices, k).events) <= Written(ops, k)
  {
    hide Track, SettleHost, StoredFrom, ObserveAll;
    if ops != [] {
      var past, op := ops[..|ops| - 1], ops[|ops| - 1];
      LogWritten(past, k);
      if op.Restart? && k in op.restored {
        RestoredWritten(Written(past, k), Of(Run(past).devices, k), op.restored[k]);
      }
    }
  }

  lemma RestoredWritten(table: set<Transition>, d: Device, r: Restored)
    requires StoredFrom(table, d, r)
    ensures Elements(r.events) <= table
  {
    hide TableCut, KeyedRows, Keyed;
    var since, n :| TableCut(table, since, n, r.events);
    CutSize(table, since, n, r.events);
  }

  // ---- what a run earns --------------------------------------------------

  /** All that the runs keep of every device. */
  ghost predicate AllKept(ops: seq<Op>) {
    var devices := Run(ops).devices;
    && AllAgree(devices) && AllStamped(devices) && AllAlternate(devices)
    && AllTimed(devices) && AllSwapped(devices) && AllEarlier(devices, ops)
  }

  ghost predicate RestoresKept(op: Op) {
    RestoresStamped(op) && RestoresAlternate(op) && RestoresTimed(op) && RestoresSwapped(op)
  }

  lemma RunKeeps(ops: seq<Op>)
    requires SamplesFollow(ops) && forall op :: op in ops ==> RestoresKept(op)
    ensures AllKept(ops)
  {
    hide Run, RestoresStamped, RestoresAlternate, RestoresTimed, RestoresSwapped, SamplesFollow;
    hide AllAgree, AllStamped, AllAlternate, AllTimed, AllSwapped, AllEarlier;
    RunAgrees(ops);
    RunAlternates(ops);
    RunTimed(ops);
    RunSwapped(ops);
  }

  lemma KeptRecorded(ops: seq<Op>, k: GpuKey)
    requires AllKept(ops) && Faithful(ops)
    ensures WellKept(Written(ops, k), Of(Run(ops).devices, k))
    ensures forall t :: RecordedBefore(ops, k.host, t) ==> Earlier(Of(Run(ops).devices, k), t)
  {
    LogWritten(ops, k);
    hide Run, Written, Faithful, Agrees, Stamped, Alternates, Timed, Swapped, Earlier, RecordedBefore;
    var d := Of(Run(ops).devices, k);
    BlankAgrees(false);
    BlankAlternates();
    BlankTimed();
    BlankSwapped();
    forall e | e in d.events ensures e in Written(ops, k) {
      assert e in Elements(d.events);
    }
  }

  lemma RestartEarns(past: seq<Op>, op: Op)
    requires AllKept(past) && Faithful(past) && op.Restart?
    requires forall k :: k in op.restored ==>
      var d := Of(Run(past).devices, k);
      StoredFrom(Written(past, k), d, op.restored[k]) && HarmlessCut(d, op.restored[k])
    ensures RestoresKept(op)
    ensures forall host, t :: RecordedBefore(past, host, t) ==> RestoredAllBefore(op.restored, host, t)
  {
    hide Run, Written, AllKept, WellKept, Stamped, Alternates, Timed, Swapped, Earlier, StoredFrom, HarmlessCut;
    hide Faithful, RecordedBefore, RestoredBefore, OpensAs;
    forall k | k in op.restored
      ensures Collected(op.restored[k].events) && Timed(Resumed(op.restored[k])) && Swapped(Resumed(op.restored[k]))
      ensures forall t :: RecordedBefore(past, k.host, t) ==> RestoredBefore(op.restored[k], t)
    {
      KeptRecorded(past, k);
      StoredEarns(Written(past, k), Of(Run(past).devices, k), op.restored[k]);
    }
  }

  lemma NoRestart(op: Op)
    requires !op.Restart?
    ensures RestoresKept(op)
  {
  }

  /** What a faithful run needs of its restarts it has earned itself. */
  lemma {:induction false} FaithfulEarns(ops: seq<Op>)
    requires Faithful(ops) && Harmless(ops) && SamplesIncrease(ops)
    ensures SamplesFollow(ops) && forall op :: op in ops ==> RestoresKept(op)
    ensures forall host, t :: SampledBefore(ops, host, t) ==> RecordedBefore(ops, host, t)
  {
    hide Run, Written, RestoresKept, RestoredAllBefore, StoredFrom, HarmlessCut, AllKept;
    if ops != [] {
      var past, op := ops[..|ops| - 1], ops[|ops| - 1];
      FaithfulEarns(past);
      assert ops == past + [op];
      if op.Restart? {
        RunKeeps(past);
        RestartEarns(past, op);
      } else {
        NoRestart(op);
      }
    }
  }

  /** In every run whose sample times increase and whose restarts do no harm, the log of every device is a collector's
      log with its processes' transitions in turn, and agrees with the live table. */
  lemma FaithfulRuns(ops: seq<Op>, k: GpuKey)
    requires Faithful(ops) && Harmless(ops) && SamplesIncrease(ops)
    ensures
      var d := Of(Run(ops).devices, k);
      && Collected(d.events) && Agrees(d) && InTurn(d.events)
      && (Keyed(d.events) ==> KeysRanked(d.events))
      && WellKept(Written(ops, k), d)
  {
    hide Run, Written, Collected, Agrees, Timed, Swapped, Keyed, KeysRanked, InTurn, RestoresKept, Faithful, Harmless;
    hide AllKept, SamplesFollow, SamplesIncrease;
    FaithfulEarns(ops);
    RunKeeps(ops);
    KeptRecorded(ops, k);
    var d := Of(Run(ops).devices, k);
    TimedInTurn(d);
    if Keyed(d.events) {
      InTurnIffKeysRanked(d.events);
    }
  }

  /** One more restart of such a run gives a device a collector's log, with the starts of the processes it knows open as
      they were, iff the cut keeps no start whose stop of the same second it drops. */
  lemma RestartCollectedIff(ops: seq<Op>, k: GpuKey, r: Restored)
    requires Faithful(ops) && Harmless(ops) && SamplesIncrease(ops)
    requires StoredFrom(Written(ops, k), Of(Run(ops).devices, k), r)
    requires forall e :: e in r.events ==> e in Of(Run(ops).devices, k).events
    ensures
      var log := Of(Run(ops).devices, k).events;
      Collected(r.events) && OpensAs(r.events, log) <==> NoneCutShort(log, r.events)
  {
    hide Run, Written, Collected, Agrees, Timed, Swapped, Keyed, KeysRanked, InTurn, Faithful, Harmless, StoredFrom;
    hide SamplesIncrease, NoneCutShort, OpensAs, WellKept, Unsplit, Cropped;
    FaithfulRuns(ops, k);
    ReadCollectedIff(Written(ops, k), Of(Run(ops).devices, k), r);
  }

  // ---- rows of the present record ----------------------------------------

  /** Neither restarts nor evictions nor removals have cut the device's log short. */
  ghost predicate Undisturbed(ops: seq<Op>, k: GpuKey) {
    ops != [] ==>
      && Undisturbed(ops[..|ops| - 1], k)
      && var past, op := ops[..|ops| - 1], ops[|ops| - 1];
      match op
      case Online(host, readings, _, _) =>
        var ids := TouchAll(IdentitiesOf(Run(past).identities, host), readings);
        k.host == host ==> k.id !in ids[..Excess(ids)]
      case Stale(_) => true
      case Removed(hosts) => k.host !in hosts
      case Restart(_, _) => false
  }

  lemma ObserveGrows(d: Device, r: Reading, workloads: map<int, Workload>, at: int)
    ensures d.events <= Observe(d, r, workloads, at).events
  {
    hide Emitted, Changes, Reconciliation, Current, ReplacedKeys;
  }

  lemma {:induction false} ObserveAllGrows(
    devices: Devices, host: string, readings: seq<Reading>, workloads: map<int, Workload>, at: int, k: GpuKey)
    ensures Of(devices, k).events <= Of(ObserveAll(devices, host, readings, workloads, at), k).events
  {
    hide Observe;
    if readings != [] {
      var past, r := readings[..|readings| - 1], readings[|readings| - 1];
      ObserveAllGrows(devices, host, past, workloads, at, k);
      ObserveGrows(Of(ObserveAll(devices, host, past, workloads, at), GpuKey(host, r.id)), r, workloads, at);
    }
  }

  lemma SettleGrows(devices: Devices, host: string, observed: set<string>, k: GpuKey)
    requires AllAgree(devices)
    ensures Of(devices, k).events <= Of(SettleHost(devices, host, observed), k).events
  {
    hide Settle, Agrees, Settled, Open;
    if k in devices {
      SettleIsBookkeeping(devices[k]);
    }
  }

  lemma TrackGrows(f: Fleet, host: string, readings: seq<Reading>, workloads: map<int, Workload>, at: int, k: GpuKey)
    requires AllAgree(f.devices)
    requires
      var ids := TouchAll(IdentitiesOf(f.identities, host), readings);
      k.host == host ==> k.id !in ids[..Excess(ids)]
    ensures
      var observed := ObserveAll(f.devices, host, readings, workloads, at);
      && Of(f.devices, k).events <= Of(observed, k).events
      && Of(observed, k).events <= Of(Track(f, host, readings, workloads, at).devices, k).events
  {
    hide AllAgree, ObserveAll, SettleHost, TouchAll, Evict;
    var ids := TouchAll(IdentitiesOf(f.identities, host), readings);
    var observed := ObserveAll(f.devices, host, readings, workloads, at);
    ObserveAllGrows(f.devices, host, readings, workloads, at, k);
    ObserveAllAgree(f.devices, host, readings, workloads, at);
    EvictAllAgrees(observed, host, ids[..Excess(ids)]);
    SettleGrows(EvictAll(observed, host, ids[..Excess(ids)]), host, Ids(readings), k);
  }

  lemma GrownElements(a: seq<Transition>, b: seq<Transition>)
    requires a <= b
    ensures Elements(a) <= Elements(b)
  {
    assert forall i :: 0 <= i < |a| ==> a[i] == b[i];
  }

  /** Of an undisturbed device the table holds its log and nothing else, so a restart reads rows of that log only. */
  lemma {:induction false} UndisturbedWritten(ops: seq<Op>, k: GpuKey)
    requires Undisturbed(ops, k)
    ensures Written(ops, k) == Elements(Of(Run(ops).devices, k).events)
  {
    hide Track, SettleHost, ObserveAll, Elements;
    if ops == [] {
      NothingWritten(k);
    } else {
      var past, op := ops[..|ops| - 1], ops[|ops| - 1];
      UndisturbedWritten(past, k);
      RunAgrees(past);
      hide AllAgree, AllStamped;
      var before, after := Of(Run(past).devices, k).events, Of(Run(ops).devices, k).events;
      match op {
        case Online(host, readings, workloads, at) =>
          TrackGrows(Run(past), host, readings, workloads, at, k);
          var observed := Of(ObserveAll(Run(past).devices, host, readings, workloads, at), k).events;
          GrownElements(before, observed);
          GrownElements(observed, after);
        case Stale(host) =>
          SettleGrows(Run(past).devices, host, {}, k);
          GrownElements(before, after);
        case Removed(hosts) =>
      }
    }
  }

  lemma NothingWritten(k: GpuKey)
    ensures Written([], k) == Elements(Of(Run([]).devices, k).events)
  {
  }
}
