/**
  Whole runs of the process store with samples in order of time: every
  device's log stays in turn, so ordering its rows by rank restores it.
 */
module ProcessTimes {
  import opened Common
  import opened ProcessOrder
  import opened ProcessTransitions
  import opened ProcessDevices
  import opened ProcessTracking
  import opened ProcessRestore
  import opened ProcessClock
  import opened ProcessTable
  import opened ProcessRestarts

  // ---- what a run demands of its samples ---------------------------------

  predicate DistinctIds(readings: seq<Reading>) {
    forall i, j :: 0 <= i < j < |readings| ==> readings[i].id != readings[j].id
  }

  /** Every sample of the host so far was taken before `t`. */
  ghost predicate SampledBefore(ops: seq<Op>, host: string, t: int) {
    ops != [] ==>
      && SampledBefore(ops[..|ops| - 1], host, t)
      && var op := ops[|ops| - 1];
      op.Online? && op.host == host ==> op.at < t
  }

  ghost predicate RestoredAllBefore(restored: map<GpuKey, Restored>, host: string, t: int) {
    forall k :: k in restored && k.host == host ==> RestoredBefore(restored[k], t)
  }

  /** ... and nothing that was restored for it is from `t` or later. */
  ghost predicate RecordedBefore(ops: seq<Op>, host: string, t: int) {
    ops != [] ==>
      && RecordedBefore(ops[..|ops| - 1], host, t)
      && var op := ops[|ops| - 1];
      && (op.Online? && op.host == host ==> op.at < t)
      && (op.Restart? ==> RestoredAllBefore(op.restored, host, t))
  }

  /** The times of a host's samples increase, and a sample lists a device once. */
  ghost predicate SamplesIncrease(ops: seq<Op>) {
    ops != [] ==>
      && SamplesIncrease(ops[..|ops| - 1])
      && var past, op := ops[..|ops| - 1], ops[|ops| - 1];
      op.Online? ==> SampledBefore(past, op.host, op.at) && DistinctIds(op.readings)
  }

  /** ... and come after everything that was restored. */
  ghost predicate SamplesFollow(ops: seq<Op>) {
    ops != [] ==>
      && SamplesFollow(ops[..|ops| - 1])
      && var past, op := ops[..|ops| - 1], ops[|ops| - 1];
      op.Online? ==> RecordedBefore(past, op.host, op.at) && DistinctIds(op.readings)
  }

  /** Restored logs are in turn, and their open starts no later than the restored last sample. */
  ghost predicate RestoresTimed(op: Op) {
    op.Restart? ==> forall k :: k in op.restored ==> Timed(Resumed(op.restored[k]))
  }

  // ---- every run is timed ------------------------------------------------

  ghost predicate AllTimed(devices: Devices) {
    forall k :: k in devices ==> Timed(devices[k])
  }

  /** What the devices have recorded lies before any time that all the run has recorded lies before. */
  ghost predicate AllEarlier(devices: Devices, ops: seq<Op>) {
    forall k, t :: k in devices && RecordedBefore(ops, k.host, t) ==> Earlier(devices[k], t)
  }

  /** The devices of one host a sample may be newer than. */
  predicate HostEarlier(devices: Devices, host: string, t: int) {
    forall k :: k in devices && k.host == host ==> Earlier(devices[k], t)
  }

  lemma {:induction false} ObserveAllTimed(
    devices: Devices, host: string, readings: seq<Reading>, workloads: map<int, Workload>, at: int)
    requires AllAgree(devices) && AllTimed(devices) && HostEarlier(devices, host, at) && DistinctIds(readings)
    ensures AllTimed(ObserveAll(devices, host, readings, workloads, at))
    ensures forall t :: at < t ==> HostEarlier(ObserveAll(devices, host, readings, workloads, at), host, t)
    ensures forall k: GpuKey :: k.host != host ==>
      var next := ObserveAll(devices, host, readings, workloads, at);
      (k in next <==> k in devices) && (k in next ==> next[k] == devices[k])
  {
    hide Agrees, Timed, Earlier, Observe;
    if readings == [] {
      forall t | at < t ensures HostEarlier(devices, host, t) {
        LaterStill(devices, host, at, t);
      }
    } else {
      var past, r := readings[..|readings| - 1], readings[|readings| - 1];
      ObserveAllTimed(devices, host, past, workloads, at);
      var before := ObserveAll(devices, host, past, workloads, at);
      var k := GpuKey(host, r.id);
      ObserveAllAgree(devices, host, past, workloads, at);
      NotListedBefore(readings);
      ObserveAllElsewhere(devices, host, past, workloads, at, k);
      BlankTimed();
      BlankAgrees(false);
      ObserveTimed(Of(before, k), r, workloads, at);
      var next := ObserveAll(devices, host, readings, workloads, at);
      forall t | at < t ensures HostEarlier(next, host, t) {
        assert HostEarlier(before, host, t);
      }
    }
  }

  lemma NotListedBefore(readings: seq<Reading>)
    requires readings != [] && DistinctIds(readings)
    ensures readings[|readings| - 1].id !in Ids(readings[..|readings| - 1])
    ensures DistinctIds(readings[..|readings| - 1])
  {
  }

  lemma LaterStill(devices: Devices, host: string, at: int, t: int)
    requires HostEarlier(devices, host, at) && at <= t
    ensures HostEarlier(devices, host, t)
  {
  }

  lemma BlankTimed()
    ensures Timed(Blank) && forall t :: Earlier(Blank, t)
  {
  }

  lemma SettleHostTimed(devices: Devices, host: string, observed: set<string>)
    requires AllAgree(devices) && AllTimed(devices)
    ensures
      var next := SettleHost(devices, host, observed);
      AllTimed(next) && forall k, t :: k in next && Earlier(devices[k], t) ==> Earlier(next[k], t)
  {
    hide Agrees, Timed, Earlier, Settle;
    forall k | k in devices
      ensures Timed(Settle(devices[k])) && forall t :: Earlier(devices[k], t) ==> Earlier(Settle(devices[k]), t)
    {
      SettleTimed(devices[k]);
    }
  }

  lemma EvictAllTimed(devices: Devices, host: string, gone: seq<string>)
    requires AllTimed(devices)
    ensures
      var next := EvictAll(devices, host, gone);
      AllTimed(next) && forall k, t :: k in next && Earlier(devices[k], t) ==> Earlier(next[k], t)
  {
    hide Timed, Earlier, Evict;
    forall k | k in devices ensures Timed(Evict(devices[k])) && forall t :: Earlier(Evict(devices[k]), t) {
      EvictTimed(devices[k]);
    }
  }

  lemma TrackTimed(f: Fleet, host: string, readings: seq<Reading>, workloads: map<int, Workload>, at: int)
    requires AllAgree(f.devices) && AllTimed(f.devices) && HostEarlier(f.devices, host, at) && DistinctIds(readings)
    ensures
      var next := Track(f, host, readings, workloads, at).devices;
      && AllTimed(next)
      && (forall t :: at < t ==> HostEarlier(next, host, t))
      && (forall k, t :: k in next && k.host != host ==>
            k in f.devices && (Earlier(f.devices[k], t) ==> Earlier(next[k], t)))
  {
    hide AllAgree, AllTimed, Earlier, ObserveAll, DistinctIds, TouchAll;
    var ids := TouchAll(IdentitiesOf(f.identities, host), readings);
    var observed := ObserveAll(f.devices, host, readings, workloads, at);
    var evicted := EvictAll(observed, host, ids[..Excess(ids)]);
    ObserveAllTimed(f.devices, host, readings, workloads, at);
    ObserveAllAgree(f.devices, host, readings, workloads, at);
    EvictAllTimed(observed, host, ids[..Excess(ids)]);
    EvictAllAgrees(observed, host, ids[..Excess(ids)]);
    SettleHostTimed(evicted, host, Ids(readings));
    forall t | at < t ensures HostEarlier(Track(f, host, readings, workloads, at).devices, host, t) {
      assert HostEarlier(observed, host, t);
    }
  }

  // ---- runs --------------------------------------------------------------

  lemma StepTimed(past: seq<Op>, op: Op)
    requires AllAgree(Run(past).devices) && AllTimed(Run(past).devices) && AllEarlier(Run(past).devices, past)
    requires SamplesFollow(past + [op]) && RestoresTimed(op)
    ensures AllTimed(Step(Run(past), op).devices) && AllEarlier(Step(Run(past), op).devices, past + [op])
  {
    hide Run, AllAgree, Timed, Earlier, SettleHost, Track, Resume, Resumed;
    var f, ops := Run(past), past + [op];
    assert ops[..|ops| - 1] == past;
    match op
    case Online(host, readings, workloads, at) =>
      assert HostEarlier(f.devices, host, at);
      TrackTimed(f, host, readings, workloads, at);
      TrackEarlier(f, past, host, readings, workloads, at);
    case Stale(host) =>
      SettleHostTimed(f.devices, host, {});
      SettledKeys(f.devices, host, {});
    case Removed(hosts) =>
    case Restart(restored, identities) => ResumeTimed(restored, identities, past);
  }

  lemma SettledKeys(devices: Devices, host: string, observed: set<string>)
    ensures SettleHost(devices, host, observed).Keys == devices.Keys
  {
    hide Settle;
  }

  lemma TrackEarlier(
    f: Fleet, past: seq<Op>, host: string, readings: seq<Reading>, workloads: map<int, Workload>, at: int)
    requires AllAgree(f.devices) && AllTimed(f.devices) && HostEarlier(f.devices, host, at) && DistinctIds(readings)
    requires AllEarlier(f.devices, past)
    ensures AllEarlier(Track(f, host, readings, workloads, at).devices, past + [Online(host, readings, workloads, at)])
  {
    hide AllAgree, AllTimed, Earlier, DistinctIds, Track;
    TrackTimed(f, host, readings, workloads, at);
    var ops := past + [Online(host, readings, workloads, at)];
    assert ops[..|ops| - 1] == past;
    var next := Track(f, host, readings, workloads, at).devices;
    forall k, t | k in next && RecordedBefore(ops, k.host, t) ensures Earlier(next[k], t) {
      if k.host == host {
        assert HostEarlier(next, host, t);
      }
    }
  }

  lemma ResumeTimed(restored: map<GpuKey, Restored>, identities: map<string, seq<string>>, past: seq<Op>)
    requires RestoresTimed(Restart(restored, identities))
    ensures AllTimed(Resume(restored, identities).devices)
    ensures AllEarlier(Resume(restored, identities).devices, past + [Restart(restored, identities)])
  {
    hide Timed, Earlier;
    var ops := past + [Restart(restored, identities)];
    assert ops[..|ops| - 1] == past;
    var next := Resume(restored, identities).devices;
    forall k | k in next ensures next[k] == Resumed(restored[k]) {}
    forall k, t | k in next && RecordedBefore(ops, k.host, t) ensures Earlier(next[k], t) {
      assert RestoredAllBefore(restored, k.host, t);
      assert RestoredBefore(restored[k], t);
    }
  }

  lemma {:induction false} RunTimed(ops: seq<Op>)
    requires SamplesFollow(ops) && forall op :: op in ops ==> RestoresTimed(op)
    ensures AllTimed(Run(ops).devices) && AllEarlier(Run(ops).devices, ops)
  {
    hide Run, Step, AllTimed, AllEarlier, RestoresTimed, SamplesFollow;
    if ops == [] {
      NothingTimed();
    } else {
      var past, op := ops[..|ops| - 1], ops[|ops| - 1];
      assert past + [op] == ops;
      PastFollows(ops);
      RunTimed(past);
      RunAgrees(past);
      RunSnoc(past, op);
      StepTimed(past, op);
    }
  }

  lemma PastFollows(ops: seq<Op>)
    requires ops != [] && SamplesFollow(ops)
    ensures SamplesFollow(ops[..|ops| - 1])
  {
  }

  lemma RunSnoc(ops: seq<Op>, op: Op)
    ensures Run(ops + [op]) == Step(Run(ops), op)
  {
    hide Step;
    assert (ops + [op])[..|ops|] == ops;
  }

  lemma NothingTimed()
    ensures AllTimed(Run([]).devices) && AllEarlier(Run([]).devices, [])
  {
  }

  /** Samples that come after everything recorded keep every log without repeated rows in rank, so that ordering its
      rows restores it, with the same starts open. */
  lemma RunKeepsRank(ops: seq<Op>, k: GpuKey, rows: seq<Transition>)
    requires SamplesFollow(ops) && forall op :: op in ops ==> RestoresTimed(op)
    requires
      var log := Of(Run(ops).devices, k).events;
      Keyed(log) && multiset(rows) == multiset(log) && Ranked(log, rows)
    ensures
      var log := Of(Run(ops).devices, k).events;
      && KeysRanked(log) && Open(rows) == Open(log)
      && forall p :: OfKey(rows, p) == OfKey(log, p)
  {
    hide Run, Keyed, Ranked, KeysRanked, Open, OfKey, Timed, RestoresTimed, SamplesFollow;
    var d := Of(Run(ops).devices, k);
    RunTimed(ops);
    BlankTimed();
    TimedInTurn(d);
    InTurnIffKeysRanked(d.events);
    OrderRestoredIff(d.events, rows);
    RestoredStamped(d.events, rows);
  }
}
