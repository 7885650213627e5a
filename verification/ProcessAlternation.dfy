/**
  The transitions of a process alternate: no stop follows a stop.  Every
  operation of a device and every run of the store keep it so, because only
  open runs are ended.
 */
module ProcessAlternation {
  import opened Common
  import opened ProcessOrder
  import opened ProcessTransitions
  import opened ProcessDevices
  import opened ProcessTracking
  import opened ProcessRestore

  predicate NoStopTwice(one: seq<Transition>) {
    forall i :: 0 < i < |one| && one[i].stopped ==> !one[i - 1].stopped
  }

  ghost predicate Alternates(log: seq<Transition>) {
    forall k :: NoStopTwice(OfKey(log, k))
  }

  // ---- batches -----------------------------------------------------------

  /** The last transition of an open process is its start, that of a closed one a stop. */
  lemma {:induction false} LastOfKey(log: seq<Transition>, k: ProcKey)
    ensures
      var one := OfKey(log, k);
      k in Open(log) <==> one != [] && !one[|one| - 1].stopped
  {
    if log != [] {
      LastOfKey(log[..|log| - 1], k);
      OfKeySnoc(log, k);
      hide OfKey;
    }
  }

  /** A stop may follow where its process is open or not yet known. */
  predicate MayFollow(log: seq<Transition>, e: Transition) {
    e.stopped ==> e.key in Open(log) || OfKey(log, e.key) == []
  }

  lemma AlternatesAppend(log: seq<Transition>, e: Transition)
    requires Alternates(log)
    ensures MayFollow(log, e) <==> Alternates(log + [e])
  {
    hide Open;
    LastOfKey(log, e.key);
    forall k ensures OfKey(log + [e], k) == if k == e.key then OfKey(log, k) + [e] else OfKey(log, k) {
      OfKeySnoc(log + [e], k);
      assert (log + [e])[..|log|] == log;
    }
    hide OfKey;
    var one := OfKey(log, e.key);
    assert NoStopTwice(one);
    assert NoStopTwice(one + [e]) <==> MayFollow(log, e) by {
      SnocAlternates(one, e);
    }
  }

  lemma SnocAlternates(one: seq<Transition>, e: Transition)
    requires NoStopTwice(one)
    ensures NoStopTwice(one + [e]) <==> (e.stopped ==> one == [] || !one[|one| - 1].stopped)
  {
    var longer := one + [e];
    assert longer[|one|] == e && forall i :: 0 <= i < |one| ==> longer[i] == one[i];
  }

  /** A batch ends only open runs, each at most once and before anything else it says of the process. */
  ghost predicate EndsOpen(log: seq<Transition>, batch: seq<Transition>) {
    forall i :: 0 <= i < |batch| && batch[i].stopped ==>
      batch[i].key in Open(log) && forall j :: 0 <= j < i ==> batch[j].key != batch[i].key
  }

  lemma {:induction false} BatchAlternates(log: seq<Transition>, batch: seq<Transition>)
    requires Alternates(log) && EndsOpen(log, batch)
    ensures Alternates(log + batch)
  {
    hide Alternates, Open;
    if batch == [] {
      assert log + batch == log;
    } else {
      var past, e := batch[..|batch| - 1], batch[|batch| - 1];
      assert forall i :: 0 <= i < |past| ==> past[i] == batch[i];
      BatchAlternates(log, past);
      if e.stopped {
        OpenUntouched(log, past, e.key);
      }
      AlternatesAppend(log + past, e);
      Snoc(log, past, e);
      assert past + [e] == batch;
    }
  }

  lemma {:induction false} OpenUntouched(log: seq<Transition>, batch: seq<Transition>, k: ProcKey)
    requires forall e :: e in batch ==> e.key != k
    ensures k in Open(log + batch) <==> k in Open(log)
  {
    if batch == [] {
      assert log + batch == log;
    } else {
      var past, e := batch[..|batch| - 1], batch[|batch| - 1];
      OpenUntouched(log, past, k);
      OpenAppend(log + past, e);
      Snoc(log, past, e);
      assert past + [e] == batch;
      hide Open;
    }
  }

  lemma StopsAlternate(log: seq<Transition>, keys: seq<ProcKey>, table: Table, at: int, visible: bool)
    requires Alternates(log) && NoDuplicates(keys)
    requires forall k :: k in keys ==> k in table && k in Open(log)
    ensures Alternates(log + Emitted(keys, table, at, true, visible))
  {
    hide Alternates, Open, Emitted;
    EmittedCount(keys, table, at, true, visible);
    BatchAlternates(log, Emitted(keys, table, at, true, visible));
  }

  lemma StartsAlternate(log: seq<Transition>, keys: seq<ProcKey>, table: Table, at: int, visible: bool)
    requires Alternates(log) && forall k :: k in keys ==> k in table
    ensures Alternates(log + Emitted(keys, table, at, false, visible))
  {
    hide Alternates, Open, Emitted;
    var batch := Emitted(keys, table, at, false, visible);
    forall i | 0 <= i < |batch| ensures !batch[i].stopped {
      EmittedAre(keys, table, at, false, visible, batch[i]);
    }
    BatchAlternates(log, batch);
  }

  lemma ClosuresAlternate(
    log: seq<Transition>, keys: seq<ProcKey>, open: map<ProcKey, Transition>, at: int, hidden: bool)
    requires Alternates(log) && NoDuplicates(keys) && open == Open(log)
    requires forall k :: k in keys ==> k in open
    ensures Alternates(log + Closures(keys, open, at, hidden))
  {
    hide Alternates, Open, Closures;
    forall o | o in open ensures open[o].key == o {
      OpenIsStart(log, o);
    }
    ClosuresCount(keys, open, at, hidden);
    BatchAlternates(log, Closures(keys, open, at, hidden));
  }

  lemma {:induction false} ReplacedAlternate(
    log: seq<Transition>, keys: seq<ProcKey>, previous: Table, current: Table, at: int)
    requires Alternates(log) && NoDuplicates(keys)
    requires forall k :: k in keys ==> k in previous && k in current && k in Open(log)
    ensures Alternates(log + Replaced(keys, previous, current, at))
  {
    hide Alternates, Open;
    if keys == [] {
      assert log + Replaced(keys, previous, current, at) == log;
    } else {
      var past, k := keys[..|keys| - 1], keys[|keys| - 1];
      var before := Replaced(past, previous, current, at);
      var stop := ProcessTransition(at, true, k, previous[k], true);
      var start := ProcessTransition(at, false, k, current[k], true);
      ReplacedAlternate(log, past, previous, current, at);
      OpenReplaced(log, past, previous, current, at, k);
      StillOpen(log, log + before, k);
      AlternatesAppend(log + before, stop);
      AlternatesAppend(log + before + [stop], start);
      SnocTwo(log, before, stop, start);
    }
  }

  lemma StillOpen(log: seq<Transition>, longer: seq<Transition>, k: ProcKey)
    requires OpenAt(longer, k) == OpenAt(log, k)
    ensures k in Open(longer) <==> k in Open(log)
  {
    hide Open;
  }

  // ---- one device --------------------------------------------------------

  /** Where log and table agree the live processes are the open ones. */
  lemma LiveIsOpen(log: seq<Transition>, live: Table, k: ProcKey)
    requires LogMatches(log, live)
    ensures k in Open(log) <==> k in live
  {
    hide Open;
    assert OpenAt(log, k) == FirstSeen(live, k);
  }

  lemma UnobservableAlternates(d: Device)
    requires Agrees(d) && Alternates(d.events)
    ensures Alternates(CloseUnobservable(d).events)
  {
    hide Alternates, Open, LogMatches, Emitted;
    if d.lastObserved.Some? {
      SortedDistinct(d.live.Keys);
      forall k | k in Sorted(d.live.Keys) ensures k in Open(d.events) {
        LiveIsOpen(d.events, d.live, k);
      }
      StopsAlternate(d.events, Sorted(d.live.Keys), d.live, d.lastObserved.value, false);
    } else {
      assert d.events + [] == d.events;
    }
    hide Sorted;
  }

  lemma CloseRestoredAlternates(d: Device)
    requires Alternates(d.events)
    ensures Alternates(CloseRestored(d).events)
  {
    hide Alternates, Open, Closures, Sorted;
    if d.pending && d.events != [] {
      var open := Open(d.events);
      SortedDistinct(open.Keys);
      ClosuresAlternate(d.events, Sorted(open.Keys), open, d.lastPoint.GetOr(d.events[|d.events| - 1].at), true);
    }
  }

  lemma SettleAlternates(d: Device)
    requires Agrees(d) && Alternates(d.events)
    ensures Alternates(Settle(d).events)
  {
    hide Alternates, Agrees, CloseUnobservable, CloseRestored;
    UnobservableAlternates(d);
    CloseRestoredAlternates((if d.initialized then CloseUnobservable(d) else d).(initialized := false));
  }

  lemma ReconcileAlternates(log: seq<Transition>, current: Table, at: int, previousPoint: Option<int>)
    requires Alternates(log)
    ensures Alternates(log + Reconciliation(log, current, at, previousPoint))
  {
    hide Alternates, Sorted, SameInstance, Open, Closures, Emitted;
    var open := Open(log);
    var ended, begun := Orphans(open, current), Newcomers(open, current);
    var closes := Closures(Sorted(ended), open, previousPoint.GetOr(at), false);
    var starts := Emitted(Sorted(begun), current, at, false, true);
    SortedDistinct(ended);
    ClosuresAlternate(log, Sorted(ended), open, previousPoint.GetOr(at), false);
    StartsAlternate(log + closes, Sorted(begun), current, at, true);
    assert log + Reconciliation(log, current, at, previousPoint) == log + closes + starts;
  }

  lemma ChangesAlternate(log: seq<Transition>, previous: Table, current: Table, replaced: set<ProcKey>, at: int)
    requires replaced <= previous.Keys * current.Keys && LogMatches(log, previous) && Alternates(log)
    ensures Alternates(log + Changes(previous, current, replaced, at))
  {
    hide Sorted, LogMatches, Alternates, Emitted, Replaced, Open;
    var arrived, gone := Sorted(current.Keys - previous.Keys), Sorted(previous.Keys - current.Keys);
    var changed := Sorted(replaced);
    var starts := Emitted(arrived, current, at, false, true);
    var stops := Emitted(gone, previous, at, true, true);
    SortedDistinct(previous.Keys - current.Keys);
    SortedDistinct(replaced);
    StartsAlternate(log, arrived, current, at, true);
    forall k | k in gone || k in changed ensures k in Open(log + starts) {
      LiveIsOpen(log, previous, k);
      OpenEmitted(log, arrived, current, at, false, true, k);
      StillOpen(log, log + starts, k);
    }
    StopsAlternate(log + starts, gone, previous, at, true);
    forall k | k in changed ensures k in Open(log + starts + stops) {
      OpenEmitted(log + starts, gone, previous, at, true, true, k);
      StillOpen(log + starts, log + starts + stops, k);
    }
    ReplacedAlternate(log + starts + stops, changed, previous, current, at);
    Concat(log, starts, stops, Replaced(changed, previous, current, at));
  }

  lemma FirstAlternates(d: Device, current: Table, at: int, previousPoint: Option<int>)
    requires Alternates(d.events)
    ensures Alternates(First(d, current, at, previousPoint).events)
  {
    hide Alternates, Sorted, Reconciliation, Emitted, Inherited, Open;
    if d.pending {
      ReconcileAlternates(d.events, current, at, previousPoint);
    } else {
      StartsAlternate(d.events, Sorted(current.Keys), current, at, false);
    }
  }

  lemma ObserveAlternates(d: Device, r: Reading, workloads: map<int, Workload>, at: int)
    requires Agrees(d) && Alternates(d.events)
    ensures Alternates(Observe(d, r, workloads, at).events)
  {
    hide LogMatches, Changes, Alternates, CloseUnobservable, First, SameInstance;
    var point := d.(lastPoint := Some(at));
    if r.sampled && !r.available {
      UnobservableAlternates(point);
    } else if r.sampled {
      var seen := point.(lastObserved := Some(at));
      var current := Current(d.live, r.processes, workloads, at);
      if !d.initialized {
        FirstAlternates(seen, current, at, d.lastPoint);
      } else {
        ChangesAlternate(d.events, d.live, current, ReplacedKeys(d.live, r.processes, workloads), at);
      }
    }
  }

  // ---- runs --------------------------------------------------------------

  ghost predicate AllAlternate(devices: Devices) {
    forall k :: k in devices ==> Alternates(devices[k].events)
  }

  lemma {:induction false} ObserveAllAlternate(
    devices: Devices, host: string, readings: seq<Reading>, workloads: map<int, Workload>, at: int)
    requires AllAgree(devices) && AllAlternate(devices)
    ensures AllAlternate(ObserveAll(devices, host, readings, workloads, at))
  {
    hide Agrees, Alternates, Observe;
    if readings != [] {
      var past, r := readings[..|readings| - 1], readings[|readings| - 1];
      ObserveAllAlternate(devices, host, past, workloads, at);
      ObserveAllAgree(devices, host, past, workloads, at);
      BlankAgrees(false);
      BlankAlternates();
      ObserveAlternates(Of(ObserveAll(devices, host, past, workloads, at), GpuKey(host, r.id)), r, workloads, at);
    }
  }

  lemma BlankAlternates()
    ensures Alternates([])
  {
  }

  lemma SettleHostAlternates(devices: Devices, host: string, observed: set<string>)
    requires AllAgree(devices) && AllAlternate(devices)
    ensures AllAlternate(SettleHost(devices, host, observed))
  {
    hide Agrees, Alternates, Settle;
    forall k | k in devices ensures Alternates(Settle(devices[k]).events) {
      SettleAlternates(devices[k]);
    }
  }

  lemma EvictAllAlternates(devices: Devices, host: string, gone: seq<string>)
    requires AllAlternate(devices)
    ensures AllAlternate(EvictAll(devices, host, gone))
  {
    BlankAlternates();
    hide Alternates;
  }

  lemma TrackAlternates(f: Fleet, host: string, readings: seq<Reading>, workloads: map<int, Workload>, at: int)
    requires AllAgree(f.devices) && AllAlternate(f.devices)
    ensures AllAlternate(Track(f, host, readings, workloads, at).devices)
  {
    hide AllAgree, AllAlternate, ObserveAll, EvictAll, SettleHost;
    var ids := TouchAll(IdentitiesOf(f.identities, host), readings);
    var observed := ObserveAll(f.devices, host, readings, workloads, at);
    ObserveAllAlternate(f.devices, host, readings, workloads, at);
    ObserveAllAgree(f.devices, host, readings, workloads, at);
    EvictAllAlternates(observed, host, ids[..Excess(ids)]);
    EvictAllAgrees(observed, host, ids[..Excess(ids)]);
    SettleHostAlternates(EvictAll(observed, host, ids[..Excess(ids)]), host, Ids(readings));
  }

  ghost predicate RestoresAlternate(op: Op) {
    op.Restart? ==> forall k :: k in op.restored ==> Alternates(op.restored[k].events)
  }

  lemma StepAlternates(f: Fleet, op: Op)
    requires AllAgree(f.devices) && AllAlternate(f.devices) && RestoresAlternate(op)
    ensures AllAlternate(Step(f, op).devices)
  {
    hide Agrees, Alternates, Track, SettleHost;
    match op
    case Online(host, readings, workloads, at) => TrackAlternates(f, host, readings, workloads, at);
    case Stale(host) => SettleHostAlternates(f.devices, host, {});
    case Removed(_) =>
    case Restart(restored, identities) =>
  }

  /** In every run whose restored logs alternate every device's log does. */
  lemma {:induction false} RunAlternates(ops: seq<Op>)
    requires forall op :: op in ops ==> RestoresAlternate(op)
    ensures AllAlternate(Run(ops).devices)
  {
    hide Alternates, Step, RestoresAlternate, AllAgree;
    if ops != [] {
      RunAlternates(ops[..|ops| - 1]);
      RunAgrees(ops[..|ops| - 1]);
      StepAlternates(Run(ops[..|ops| - 1]), ops[|ops| - 1]);
    }
  }
}
