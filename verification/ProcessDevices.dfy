/**
  What one device's record goes through: readings, failed queries, stale
  hosts, vanishing, eviction and restoration.  The log and the live table
  agree throughout.
 */
module ProcessDevices {
  import opened Common
  import opened ProcessOrder
  import opened ProcessTransitions

  /** The per-device entries of the process rings, live tables and reconciliation sets, and the time of
      the last GPU sample. */
  datatype Device = Device(
    events: seq<Transition>,
    live: Table,
    lastObserved: Option<int>,
    lastPoint: Option<int>,
    initialized: bool,
    pending: bool)

  const Blank := Device([], map[], None, None, false, false)

  /** One device of an online sample. */
  datatype Reading = Reading(id: string, sampled: bool, available: bool, processes: seq<ProcKey>)

  // ---- closing -----------------------------------------------------------

  /** Every live process gets a hidden stop at the time processes were last seen. */
  ghost function CloseUnobservable(d: Device): Device {
    d.(live := map[], lastObserved := None,
       events := d.events +
         if d.lastObserved.Some? then Emitted(Sorted(d.live.Keys), d.live, d.lastObserved.value, true, false) else [])
  }

  /** Starts still pending from a restart get hidden stops at the last GPU sample. */
  ghost function CloseRestored(d: Device): Device {
    if !d.pending || d.events == [] then d.(pending := false)
    else
      var open := Open(d.events);
      var closeAt := d.lastPoint.GetOr(d.events[|d.events| - 1].at);
      d.(pending := false, events := d.events + Closures(Sorted(open.Keys), open, closeAt, true))
  }

  /** A device that stopped being observable: its host went stale or no longer lists it. */
  ghost function Settle(d: Device): Device {
    CloseRestored((if d.initialized then CloseUnobservable(d) else d).(initialized := false))
  }

  /** The oldest identity of a host goes; what is pending stays pending. */
  function Evict(d: Device): Device {
    Blank.(pending := d.pending)
  }

  // ---- one reading -------------------------------------------------------

  function WorkloadOf(workloads: map<int, Workload>, k: ProcKey): Option<Workload> {
    if k.pid in workloads then Some(workloads[k.pid]) else None
  }

  predicate Carries(previous: Table, workloads: map<int, Workload>, k: ProcKey) {
    k in previous && SameInstance(previous[k].workload, WorkloadOf(workloads, k))
  }

  /** The new table: first-seen is carried across samples of one instance. */
  function Current(previous: Table, listed: seq<ProcKey>, workloads: map<int, Workload>, at: int): Table {
    map k | k in listed ::
      Process(WorkloadOf(workloads, k), if Carries(previous, workloads, k) then previous[k].firstSeen else at)
  }

  function ReplacedKeys(previous: Table, listed: seq<ProcKey>, workloads: map<int, Workload>): set<ProcKey> {
    set k | k in listed && k in previous && !Carries(previous, workloads, k)
  }

  /** The transitions between two tables of an initialized device. */
  ghost function Changes(previous: Table, current: Table, replaced: set<ProcKey>, at: int): seq<Transition>
    requires replaced <= previous.Keys * current.Keys
  {
    Emitted(Sorted(current.Keys - previous.Keys), current, at, false, true)
    + Emitted(Sorted(previous.Keys - current.Keys), previous, at, true, true)
    + Replaced(Sorted(replaced), previous, current, at)
  }

  /** The first table of a device since it became observable. */
  ghost function First(d: Device, current: Table, at: int, previousPoint: Option<int>): Device {
    if d.pending then
      d.(initialized := true, pending := false, live := Inherited(Open(d.events), current),
         events := d.events + Reconciliation(d.events, current, at, previousPoint))
    else
      d.(initialized := true, live := current,
         events := d.events + Emitted(Sorted(current.Keys), current, at, false, false))
  }

  ghost function Later(d: Device, current: Table, replaced: set<ProcKey>, at: int): Device
    requires replaced <= d.live.Keys * current.Keys
  {
    d.(live := current, events := d.events + Changes(d.live, current, replaced, at))
  }

  ghost function Observe(d: Device, r: Reading, workloads: map<int, Workload>, at: int): Device {
    var point := d.(lastPoint := Some(at));
    if !r.sampled then point
    else if !r.available then CloseUnobservable(point).(initialized := false)
    else
      var seen := point.(lastObserved := Some(at));
      var current := Current(d.live, r.processes, workloads, at);
      if !d.initialized then First(seen, current, at, d.lastPoint)
      else Later(seen, current, ReplacedKeys(d.live, r.processes, workloads), at)
  }

  // ---- agreement ---------------------------------------------------------

  /** A device awaiting reconciliation shows no live process; any other one's log and table agree. */
  ghost predicate Agrees(d: Device) {
    && (d.pending ==> d.live == map[] && !d.initialized)
    && (!d.pending ==> LogMatches(d.events, d.live))
    && (!d.initialized ==> d.live == map[])
    && (d.live != map[] ==> d.lastObserved.Some?)
  }

  lemma CloseUnobservableAgrees(d: Device)
    requires Agrees(d)
    ensures Agrees(CloseUnobservable(d).(initialized := false)) && CloseUnobservable(d).pending == d.pending
  {
    hide Sorted, Open;
    var next := CloseUnobservable(d);
    if !d.pending {
      forall k ensures OpenAt(next.events, k) == None {
        if d.lastObserved.Some? {
          OpenEmitted(d.events, Sorted(d.live.Keys), d.live, d.lastObserved.value, true, false, k);
        } else {
          assert next.events == d.events;
        }
        assert OpenAt(d.events, k) == FirstSeen(d.live, k);
      }
    }
  }

  lemma CloseRestoredAgrees(d: Device)
    requires Agrees(d)
    ensures Agrees(CloseRestored(d)) && !CloseRestored(d).pending
  {
    hide Sorted;
    if d.pending {
      var open := Open(d.events);
      var next := CloseRestored(d);
      forall k ensures OpenAt(next.events, k) == None {
        if d.events != [] {
          forall o | o in open ensures open[o].key == o {
            OpenIsStart(d.events, o);
          }
          OpenClosures(d.events, Sorted(open.Keys), open, d.lastPoint.GetOr(d.events[|d.events| - 1].at), true, k);
        }
      }
    }
  }

  lemma SettleAgrees(d: Device)
    requires Agrees(d)
    ensures Agrees(Settle(d)) && !Settle(d).pending && Settle(d).live == map[] && !Settle(d).initialized
  {
    hide LogMatches;
    var unobserved := (if d.initialized then CloseUnobservable(d) else d).(initialized := false);
    if d.initialized {
      CloseUnobservableAgrees(d);
    } else {
      assert unobserved == d;
    }
    CloseRestoredAgrees(unobserved);
  }

  lemma FirstAgrees(d: Device, current: Table, at: int, previousPoint: Option<int>)
    requires Agrees(d) && !d.initialized && d.lastObserved.Some?
    requires forall k :: k in current ==> current[k].firstSeen == at
    ensures Agrees(First(d, current, at, previousPoint))
  {
    hide Sorted, Open;
    if d.pending {
      ReconcileMatches(d.events, current, at, previousPoint);
      hide Reconciliation, Inherited;
    } else {
      forall k ensures OpenAt(First(d, current, at, previousPoint).events, k) == FirstSeen(current, k) {
        OpenEmitted(d.events, Sorted(current.Keys), current, at, false, false, k);
        assert OpenAt(d.events, k) == FirstSeen(d.live, k);
      }
    }
  }

  /** Every key of the new table was there before with the same first observation, or is seen first now. */
  ghost predicate Follows(previous: Table, current: Table, replaced: set<ProcKey>, at: int) {
    && replaced <= previous.Keys * current.Keys
    && forall k :: k in current ==>
         FirstSeen(current, k) == if k in previous && k !in replaced then FirstSeen(previous, k) else Some(at)
  }

  lemma Concat(log: seq<Transition>, a: seq<Transition>, b: seq<Transition>, c: seq<Transition>)
    ensures log + (a + b + c) == log + a + b + c
  {
  }

  lemma ChangesAt(
    log: seq<Transition>, previous: Table, current: Table, replaced: set<ProcKey>, at: int, k: ProcKey)
    requires replaced <= previous.Keys * current.Keys
    ensures
      OpenAt(log + Changes(previous, current, replaced, at), k) ==
      if k in replaced then Some(at)
      else if k in previous && k !in current then None
      else if k in current && k !in previous then Some(at)
      else OpenAt(log, k)
  {
    hide Sorted, OpenAt, Emitted, Replaced;
    var gone := previous.Keys - current.Keys;
    var arrived := current.Keys - previous.Keys;
    var log1 := log + Emitted(Sorted(arrived), current, at, false, true);
    var log2 := log1 + Emitted(Sorted(gone), previous, at, true, true);
    Concat(log, Emitted(Sorted(arrived), current, at, false, true), Emitted(Sorted(gone), previous, at, true, true),
           Replaced(Sorted(replaced), previous, current, at));
    OpenEmitted(log, Sorted(arrived), current, at, false, true, k);
    OpenEmitted(log1, Sorted(gone), previous, at, true, true, k);
    OpenReplaced(log2, Sorted(replaced), previous, current, at, k);
  }

  lemma ChangesMatch(log: seq<Transition>, previous: Table, current: Table, replaced: set<ProcKey>, at: int)
    requires Follows(previous, current, replaced, at) && LogMatches(log, previous)
    ensures LogMatches(log + Changes(previous, current, replaced, at), current)
  {
    hide OpenAt, Changes;
    forall k ensures OpenAt(log + Changes(previous, current, replaced, at), k) == FirstSeen(current, k) {
      ChangesAt(log, previous, current, replaced, at, k);
      assert OpenAt(log, k) == FirstSeen(previous, k);
    }
  }

  lemma LaterAgrees(d: Device, listed: seq<ProcKey>, workloads: map<int, Workload>, at: int)
    requires Agrees(d) && d.initialized && d.lastObserved.Some?
    ensures
      Agrees(Later(d, Current(d.live, listed, workloads, at), ReplacedKeys(d.live, listed, workloads), at))
  {
    ChangesMatch(d.events, d.live, Current(d.live, listed, workloads, at), ReplacedKeys(d.live, listed, workloads), at);
    hide LogMatches, Current, ReplacedKeys, Changes, Follows;
  }

  lemma ObserveAgrees(d: Device, r: Reading, workloads: map<int, Workload>, at: int)
    requires Agrees(d)
    ensures Agrees(Observe(d, r, workloads, at))
  {
    hide LogMatches, Changes;
    var point := d.(lastPoint := Some(at));
    if r.sampled && !r.available {
      CloseUnobservableAgrees(point);
    } else if r.sampled {
      var seen := point.(lastObserved := Some(at));
      if !d.initialized {
        FirstAgrees(seen, Current(d.live, r.processes, workloads, at), at, d.lastPoint);
      } else {
        LaterAgrees(seen, r.processes, workloads, at);
      }
    }
  }

  // ---- the log stays a collector's log -----------------------------------

  lemma CloseUnobservableStamped(d: Device)
    requires Agrees(d) && Stamped(d.events) && !d.pending
    ensures Stamped(CloseUnobservable(d).events)
  {
    hide Sorted, OpenAt, Stamped;
    if d.lastObserved.Some? {
      forall k | k in Sorted(d.live.Keys) ensures OpenAt(d.events, k) == FirstSeen(d.live, k) {}
      StopsStamped(d.events, Sorted(d.live.Keys), d.live, d.lastObserved.value, false);
    } else {
      assert d.events + [] == d.events;
    }
  }

  lemma UnobservableStamped(d: Device)
    requires Agrees(d) && Stamped(d.events)
    ensures Stamped(CloseUnobservable(d).events)
  {
    if d.pending {
      assert Sorted(d.live.Keys) == [];
      assert CloseUnobservable(d).events == d.events;
    } else {
      CloseUnobservableStamped(d);
    }
  }

  lemma CloseRestoredStamped(d: Device)
    requires Stamped(d.events)
    ensures Stamped(CloseRestored(d).events)
  {
    if d.pending && d.events != [] {
      var open := Open(d.events);
      ClosuresStamped(d.events, Sorted(open.Keys), open, d.lastPoint.GetOr(d.events[|d.events| - 1].at), true);
    }
    hide Stamped, Sorted;
  }

  lemma SettleStamped(d: Device)
    requires Agrees(d) && Stamped(d.events)
    ensures Stamped(Settle(d).events)
  {
    hide Stamped, Agrees;
    UnobservableStamped(d);
    CloseRestoredStamped((if d.initialized then CloseUnobservable(d) else d).(initialized := false));
  }

  lemma ChangesStamped(log: seq<Transition>, previous: Table, current: Table, replaced: set<ProcKey>, at: int)
    requires Follows(previous, current, replaced, at) && LogMatches(log, previous) && Stamped(log)
    ensures Stamped(log + Changes(previous, current, replaced, at))
  {
    hide Sorted, OpenAt, Stamped, Emitted, Replaced;
    var arrived := Sorted(current.Keys - previous.Keys);
    var gone := Sorted(previous.Keys - current.Keys);
    var changed := Sorted(replaced);
    var starts := Emitted(arrived, current, at, false, true);
    var stops := Emitted(gone, previous, at, true, true);
    SortedDistinct(current.Keys - previous.Keys);
    SortedDistinct(replaced);
    forall k ensures OpenAt(log, k) == FirstSeen(previous, k) {}
    forall k | k in current && (k !in previous || k in replaced) ensures current[k].firstSeen == at {
      assert FirstSeen(current, k) == Some(at);
    }
    StartsStamped(log, arrived, current, at, true);
    forall k | k in gone || k in changed ensures OpenAt(log + starts, k) == FirstSeen(previous, k) {
      OpenEmitted(log, arrived, current, at, false, true, k);
    }
    StopsStamped(log + starts, gone, previous, at, true);
    forall k | k in changed ensures OpenAt(log + starts + stops, k) == FirstSeen(previous, k) {
      OpenEmitted(log + starts, gone, previous, at, true, true, k);
    }
    ReplacedStamped(log + starts + stops, changed, previous, current, at);
    Concat(log, starts, stops, Replaced(changed, previous, current, at));
  }

  lemma FirstStamped(d: Device, current: Table, at: int, previousPoint: Option<int>)
    requires Agrees(d) && !d.initialized && Stamped(d.events)
    requires forall k :: k in current ==> current[k].firstSeen == at
    ensures Stamped(First(d, current, at, previousPoint).events)
  {
    hide Sorted, OpenAt, Stamped;
    if d.pending {
      ReconcileStamped(d.events, current, at, previousPoint);
    } else {
      SortedDistinct(current.Keys);
      forall k | k in Sorted(current.Keys) ensures OpenAt(d.events, k) == None {
        assert OpenAt(d.events, k) == FirstSeen(d.live, k);
      }
      StartsStamped(d.events, Sorted(current.Keys), current, at, false);
    }
  }

  lemma ObserveStamped(d: Device, r: Reading, workloads: map<int, Workload>, at: int)
    requires Agrees(d) && Stamped(d.events)
    ensures Stamped(Observe(d, r, workloads, at).events)
  {
    hide LogMatches, Changes, Stamped;
    var point := d.(lastPoint := Some(at));
    if r.sampled && !r.available {
      UnobservableStamped(point);
    } else if r.sampled {
      var seen := point.(lastObserved := Some(at));
      var current := Current(d.live, r.processes, workloads, at);
      if !d.initialized {
        FirstStamped(seen, current, at, d.lastPoint);
      } else {
        ChangesStamped(d.events, d.live, current, ReplacedKeys(d.live, r.processes, workloads), at);
      }
    }
  }

  // ---- unobserved ends ---------------------------------------------------

  /** A hidden stop at `at`. */
  predicate Bookkeeping(e: Transition, at: Option<int>) {
    e.stopped && !e.visible && at == Some(e.at)
  }

  /** Where observation of a device ended: its last process sample or, while its starts are restored ones, its last
      GPU sample. */
  function ObservationEnd(d: Device): Option<int> {
    if !d.pending then d.lastObserved
    else if d.events == [] then None
    else Some(d.lastPoint.GetOr(d.events[|d.events| - 1].at))
  }

  /** The transitions added to the log are one for every open run, in key order. */
  ghost predicate Settled(log: seq<Transition>, longer: seq<Transition>) {
    var keys := Sorted(Open(log).Keys);
    |longer| == |log| + |keys| && forall i :: 0 <= i < |keys| ==> longer[|log| + i].key == keys[i]
  }

  /** A device that can no longer be observed ends each of its open runs, once, where observation ended, and hides
      the stops: nothing was seen to stop. */
  lemma SettleIsBookkeeping(d: Device)
    requires Agrees(d)
    ensures d.events <= Settle(d).events
    ensures forall e :: e in Settle(d).events[|d.events|..] ==>
        Bookkeeping(e, ObservationEnd(d)) && e.key in Open(d.events)
    ensures Settled(d.events, Settle(d).events)
  {
    hide Open, LogMatches;
    var added := Settle(d).events[|d.events|..];
    if d.pending {
      RestoredBookkeeping(d);
    } else {
      LiveBookkeeping(d);
    }
  }

  lemma RestoredBookkeeping(d: Device)
    requires Agrees(d) && d.pending
    ensures d.events <= Settle(d).events
    ensures forall e :: e in Settle(d).events[|d.events|..] ==>
        Bookkeeping(e, ObservationEnd(d)) && e.key in Open(d.events)
    ensures Settled(d.events, Settle(d).events)
  {
    if d.events == [] {
      assert Open(d.events) == map[];
    } else {
      var open := Open(d.events);
      var at := ObservationEnd(d).value;
      forall o | o in open ensures open[o].key == o {
        OpenIsStart(d.events, o);
      }
      var added := Closures(Sorted(open.Keys), open, at, true);
      assert Settle(d).events == d.events + added;
      ClosuresCount(Sorted(open.Keys), open, at, true);
      forall e | e in added ensures Bookkeeping(e, Some(at)) && e.key in open {
        ClosuresAre(Sorted(open.Keys), open, at, true, e);
      }
    }
    hide Sorted, Open;
  }

  lemma LiveBookkeeping(d: Device)
    requires Agrees(d) && !d.pending
    ensures d.events <= Settle(d).events
    ensures forall e :: e in Settle(d).events[|d.events|..] ==>
        Bookkeeping(e, ObservationEnd(d)) && e.key in Open(d.events)
    ensures Settled(d.events, Settle(d).events)
  {
    hide Sorted, Open;
    forall k ensures k in Open(d.events) <==> k in d.live {
      assert OpenAt(d.events, k) == FirstSeen(d.live, k);
    }
    assert Open(d.events).Keys == d.live.Keys;
    assert |Open(d.events)| == |Open(d.events).Keys| == |d.live.Keys|;
    if d.initialized && d.lastObserved.Some? {
      var added := Emitted(Sorted(d.live.Keys), d.live, d.lastObserved.value, true, false);
      assert Settle(d).events == d.events + added;
      EmittedCount(Sorted(d.live.Keys), d.live, d.lastObserved.value, true, false);
      forall e | e in added ensures Bookkeeping(e, d.lastObserved) && e.key in d.live {
        EmittedAre(Sorted(d.live.Keys), d.live, d.lastObserved.value, true, false, e);
      }
    } else {
      assert d.live == map[];
      assert Settle(d).events == d.events;
    }
  }

  lemma EmittedCount(keys: seq<ProcKey>, table: Table, at: int, stopped: bool, visible: bool)
    requires forall k :: k in keys ==> k in table
    ensures |Emitted(keys, table, at, stopped, visible)| == |keys|
    ensures forall i :: 0 <= i < |keys| ==> Emitted(keys, table, at, stopped, visible)[i].key == keys[i]
  {
  }

  lemma ClosuresCount(keys: seq<ProcKey>, open: map<ProcKey, Transition>, at: int, hidden: bool)
    requires forall k :: k in keys ==> k in open && open[k].key == k
    ensures |Closures(keys, open, at, hidden)| == |keys|
    ensures forall i :: 0 <= i < |keys| ==> Closures(keys, open, at, hidden)[i].key == keys[i]
  {
  }
}
