/**
  In which order the transitions of one process can follow each other in a
  device's log, when every sample comes later than all that was recorded:
  times never fall back, and within one instant a stop precedes a start
  exactly where the process is another instance.
 */
module ProcessClock {
  import opened Common
  import opened ProcessOrder
  import opened ProcessTransitions
  import opened ProcessDevices

  predicate Turn(a: Transition, b: Transition) {
    a.key == b.key ==>
      || a.at < b.at
      || (a.at == b.at && (a.stopped != b.stopped ==> (a.stopped <==> !SameInstance(a.workload, b.workload))))
  }

  predicate InTurn(log: seq<Transition>) {
    forall i, j :: 0 <= i < j < |log| ==> Turn(log[i], log[j])
  }

  /** Every transition of `log` may be followed by every one of `batch`. */
  predicate TurnAll(log: seq<Transition>, batch: seq<Transition>) {
    forall a, b :: a in log && b in batch ==> Turn(a, b)
  }

  lemma AppendInTurn(log: seq<Transition>, batch: seq<Transition>)
    requires InTurn(log) && InTurn(batch) && TurnAll(log, batch)
    ensures InTurn(log + batch)
  {
    hide Turn;
    var longer := log + batch;
    forall i, j | 0 <= i < j < |longer| ensures Turn(longer[i], longer[j]) {
      if i < |log| <= j {
        assert longer[i] in log && longer[j] in batch;
      }
    }
  }

  // ---- batches -----------------------------------------------------------

  /** Transitions of different processes are in turn however they are ordered. */
  lemma KeysApartInTurn(batch: seq<Transition>, keys: seq<ProcKey>)
    requires NoDuplicates(keys) && |batch| == |keys|
    requires forall i :: 0 <= i < |keys| ==> batch[i].key == keys[i]
    ensures InTurn(batch)
  {
  }

  lemma EmittedInTurn(keys: seq<ProcKey>, table: Table, at: int, stopped: bool, visible: bool)
    requires NoDuplicates(keys) && forall k :: k in keys ==> k in table
    ensures InTurn(Emitted(keys, table, at, stopped, visible))
  {
    EmittedCount(keys, table, at, stopped, visible);
    KeysApartInTurn(Emitted(keys, table, at, stopped, visible), keys);
  }

  lemma ClosuresInTurn(keys: seq<ProcKey>, open: map<ProcKey, Transition>, at: int, hidden: bool)
    requires NoDuplicates(keys) && forall k :: k in keys ==> k in open && open[k].key == k
    ensures InTurn(Closures(keys, open, at, hidden))
  {
    ClosuresCount(keys, open, at, hidden);
    KeysApartInTurn(Closures(keys, open, at, hidden), keys);
  }

  lemma {:induction false} ReplacedAre(keys: seq<ProcKey>, previous: Table, current: Table, at: int, e: Transition)
    requires forall k :: k in keys ==> k in previous && k in current
    requires e in Replaced(keys, previous, current, at)
    ensures e.key in keys && e.at == at
    ensures e.workload == if e.stopped then previous[e.key].workload else current[e.key].workload
  {
    var past, k := keys[..|keys| - 1], keys[|keys| - 1];
    if e in Replaced(past, previous, current, at) {
      ReplacedAre(past, previous, current, at, e);
    }
  }

  lemma {:induction false} ReplacedInTurn(keys: seq<ProcKey>, previous: Table, current: Table, at: int)
    requires NoDuplicates(keys)
    requires forall k :: k in keys ==>
      k in previous && k in current && !SameInstance(previous[k].workload, current[k].workload)
    ensures InTurn(Replaced(keys, previous, current, at))
  {
    hide SameInstance;
    if keys != [] {
      var past, k := keys[..|keys| - 1], keys[|keys| - 1];
      ReplacedInTurn(past, previous, current, at);
      var before := Replaced(past, previous, current, at);
      var stop, start :=
        ProcessTransition(at, true, k, previous[k], true), ProcessTransition(at, false, k, current[k], true);
      var pair := [stop, start];
      assert InTurn(pair);
      forall a, b | a in before && b in pair ensures Turn(a, b) {
        ReplacedAre(past, previous, current, at, a);
        assert k !in past;
      }
      AppendInTurn(before, pair);
    }
  }

  // ---- one device --------------------------------------------------------

  /** When a restored start that no process continues ends. */
  function CloseAt(d: Device): int
    requires d.events != []
  {
    d.lastPoint.GetOr(d.events[|d.events| - 1].at)
  }

  /** A stop of this process at this time may follow the whole log. */
  predicate MayStop(log: seq<Transition>, k: ProcKey, workload: Option<Workload>, at: int) {
    forall e :: e in log && e.key == k ==>
      e.at < at || (e.at == at && (!e.stopped ==> SameInstance(e.workload, workload)))
  }

  /** All times a device has recorded lie before `t`. */
  predicate Earlier(d: Device, t: int) {
    && (forall e :: e in d.events ==> e.at < t)
    && (d.lastPoint.Some? ==> d.lastPoint.value < t)
    && (d.lastObserved.Some? ==> d.lastObserved.value < t)
  }

  /** Live processes may stop when they were last seen. */
  predicate LiveMayStop(d: Device) {
    d.lastObserved.Some? ==>
      forall k :: k in d.live ==> MayStop(d.events, k, d.live[k].workload, d.lastObserved.value)
  }

  /** Open starts that await reconciliation may stop when their device was last seen. */
  predicate OpenMayStop(d: Device) {
    d.pending && d.events != [] ==>
      forall k :: k in Open(d.events) ==> MayStop(d.events, k, Open(d.events)[k].workload, CloseAt(d))
  }

  /** Nothing is later than the last GPU sample of a device with live processes. */
  predicate PointIsLast(d: Device) {
    d.live != map[] ==> d.lastPoint.Some? && forall e :: e in d.events ==> e.at <= d.lastPoint.value
  }

  predicate Timed(d: Device) {
    InTurn(d.events) && LiveMayStop(d) && OpenMayStop(d) && PointIsLast(d)
  }

  lemma EmittedTurns(log: seq<Transition>, keys: seq<ProcKey>, table: Table, at: int, stopped: bool, visible: bool)
    requires InTurn(log) && NoDuplicates(keys) && forall k :: k in keys ==> k in table
    requires forall e :: e in log && e.key in keys ==>
      Turn(e, ProcessTransition(at, stopped, e.key, table[e.key], visible))
    ensures InTurn(log + Emitted(keys, table, at, stopped, visible))
  {
    hide InTurn;
    var batch := Emitted(keys, table, at, stopped, visible);
    forall a, b | a in log && b in batch ensures Turn(a, b) {
      EmittedAre(keys, table, at, stopped, visible, b);
    }
    EmittedInTurn(keys, table, at, stopped, visible);
    AppendInTurn(log, batch);
  }

  lemma ClosuresTurn(log: seq<Transition>, keys: seq<ProcKey>, open: map<ProcKey, Transition>, at: int, hidden: bool)
    requires InTurn(log) && NoDuplicates(keys) && forall k :: k in keys ==> k in open && open[k].key == k
    requires forall k :: k in keys ==> MayStop(log, k, open[k].workload, at)
    ensures InTurn(log + Closures(keys, open, at, hidden))
  {
    var batch := Closures(keys, open, at, hidden);
    forall a, b | a in log && b in batch ensures Turn(a, b) {
      ClosuresAre(keys, open, at, hidden, b);
    }
    ClosuresInTurn(keys, open, at, hidden);
    hide Turn, InTurn, Closures;
    AppendInTurn(log, batch);
  }

  // ---- a device keeps its times ------------------------------------------

  /** Closing the live table of a device: their stops are in turn, at the time they were last seen. */
  lemma CloseUnobservableTimed(d: Device)
    requires Agrees(d) && Timed(d)
    ensures Timed(CloseUnobservable(d).(initialized := false))
  {
    hide Sorted, Emitted, Turn, InTurn, SameInstance, LogMatches, OpenMayStop;
    var next := CloseUnobservable(d).(initialized := false);
    if d.live == map[] {
      NothingEmitted(d);
    } else {
      SortedDistinct(d.live.Keys);
      forall e | e in d.events && e.key in Sorted(d.live.Keys)
        ensures Turn(e, ProcessTransition(d.lastObserved.value, true, e.key, d.live[e.key], false))
      {
        StopTurn(d.events, e, d.live[e.key], d.lastObserved.value, false);
      }
      EmittedTurns(d.events, Sorted(d.live.Keys), d.live, d.lastObserved.value, true, false);
    }
    StillOpenMayStop(d, next);
  }

  lemma NothingEmitted(d: Device)
    requires d.live == map[]
    ensures CloseUnobservable(d).events == d.events
  {
  }

  lemma StillOpenMayStop(d: Device, next: Device)
    requires OpenMayStop(d) && next.pending == d.pending && next.lastPoint == d.lastPoint
    requires d.pending ==> next.events == d.events
    ensures OpenMayStop(next)
  {
    hide MayStop;
  }

  lemma StopTurn(log: seq<Transition>, e: Transition, p: Process, at: int, visible: bool)
    requires MayStop(log, e.key, p.workload, at) && e in log
    ensures Turn(e, ProcessTransition(at, true, e.key, p, visible))
  {
    hide SameInstance;
  }

  lemma CloseUnobservableEarlier(d: Device, t: int)
    requires Earlier(d, t)
    ensures Earlier(CloseUnobservable(d).(initialized := false), t)
  {
    hide Sorted;
    if d.lastObserved.Some? {
      forall e | e in Emitted(Sorted(d.live.Keys), d.live, d.lastObserved.value, true, false) ensures e.at < t {
        EmittedAre(Sorted(d.live.Keys), d.live, d.lastObserved.value, true, false, e);
      }
    }
  }

  lemma OpenIsKeyed(log: seq<Transition>)
    ensures forall k :: k in Open(log) ==> Open(log)[k].key == k
  {
    forall k | k in Open(log) ensures Open(log)[k].key == k {
      OpenIsStart(log, k);
    }
  }

  lemma CloseRestoredTimed(d: Device)
    requires Agrees(d) && Timed(d)
    ensures Timed(CloseRestored(d))
  {
    hide Sorted, Closures, Turn, InTurn, MayStop, LogMatches, Open;
    if d.pending && d.events != [] {
      var open := Open(d.events);
      OpenIsKeyed(d.events);
      SortedDistinct(open.Keys);
      ClosuresTurn(d.events, Sorted(open.Keys), open, CloseAt(d), true);
    }
  }

  lemma CloseRestoredEarlier(d: Device, t: int)
    requires Earlier(d, t)
    ensures Earlier(CloseRestored(d), t)
  {
    hide Sorted, Open;
    if d.pending && d.events != [] {
      var open := Open(d.events);
      OpenIsKeyed(d.events);
      assert d.events[|d.events| - 1] in d.events;
      forall e | e in Closures(Sorted(open.Keys), open, CloseAt(d), true) ensures e.at < t {
        ClosuresAre(Sorted(open.Keys), open, CloseAt(d), true, e);
      }
    }
  }

  lemma SettleTimed(d: Device)
    requires Agrees(d) && Timed(d)
    ensures Timed(Settle(d))
    ensures forall t :: Earlier(d, t) ==> Earlier(Settle(d), t)
  {
    hide Timed, Agrees, Earlier;
    var unobserved := (if d.initialized then CloseUnobservable(d) else d).(initialized := false);
    if d.initialized {
      CloseUnobservableTimed(d);
      CloseUnobservableAgrees(d);
      forall t | Earlier(d, t) ensures Earlier(unobserved, t) {
        CloseUnobservableEarlier(d, t);
      }
    } else {
      assert unobserved == d;
    }
    CloseRestoredTimed(unobserved);
    forall t | Earlier(unobserved, t) ensures Earlier(Settle(d), t) {
      CloseRestoredEarlier(unobserved, t);
    }
  }

  lemma EvictTimed(d: Device)
    ensures Timed(Evict(d)) && Agrees(Evict(d)) && forall t :: Earlier(Evict(d), t)
  {
  }

  // ---- a sample later than everything recorded ---------------------------

  predicate AllBefore(log: seq<Transition>, t: int) {
    forall e :: e in log ==> e.at < t
  }

  /** What a table observed at `at` needs of the log: the starts of this instant are its own processes'. */
  predicate StartsMatch(log: seq<Transition>, live: Table, at: int) {
    forall e :: e in log ==>
      e.at <= at && (e.at == at && !e.stopped && e.key in live ==> SameInstance(e.workload, live[e.key].workload))
  }

  lemma ChangesTurn(log: seq<Transition>, previous: Table, current: Table, replaced: set<ProcKey>, at: int)
    requires InTurn(log) && AllBefore(log, at) && replaced <= previous.Keys * current.Keys
    requires forall k :: k in replaced ==> !SameInstance(previous[k].workload, current[k].workload)
    ensures InTurn(log + Changes(previous, current, replaced, at))
  {
    hide Sorted, Emitted, Replaced, InTurn, SameInstance;
    var arrived, gone := Sorted(current.Keys - previous.Keys), Sorted(previous.Keys - current.Keys);
    var changed := Sorted(replaced);
    var starts := Emitted(arrived, current, at, false, true);
    var stops := Emitted(gone, previous, at, true, true);
    var swaps := Replaced(changed, previous, current, at);
    SortedDistinct(current.Keys - previous.Keys);
    SortedDistinct(previous.Keys - current.Keys);
    SortedDistinct(replaced);
    EmittedTurns(log, arrived, current, at, false, true);
    KeysOfStarts(arrived, current, at, false);
    EmittedTurns(log + starts, gone, previous, at, true, true);
    KeysOfStarts(gone, previous, at, true);
    ReplacedInTurn(changed, previous, current, at);
    forall a, b | a in log + starts + stops && b in swaps ensures Turn(a, b) {
      ReplacedAre(changed, previous, current, at, b);
    }
    AppendInTurn(log + starts + stops, swaps);
    Concat(log, starts, stops, swaps);
  }

  lemma KeysOfStarts(keys: seq<ProcKey>, table: Table, at: int, stopped: bool)
    requires forall k :: k in keys ==> k in table
    ensures forall e :: e in Emitted(keys, table, at, stopped, true) ==> e.key in keys && e.at == at
  {
    forall e | e in Emitted(keys, table, at, stopped, true) ensures e.key in keys && e.at == at {
      EmittedAre(keys, table, at, stopped, true, e);
    }
  }

  lemma ChangesMatchStarts(log: seq<Transition>, previous: Table, current: Table, replaced: set<ProcKey>, at: int)
    requires AllBefore(log, at) && replaced <= previous.Keys * current.Keys
    ensures StartsMatch(log + Changes(previous, current, replaced, at), current, at)
  {
    hide Sorted, Emitted, Replaced;
    var arrived, gone := Sorted(current.Keys - previous.Keys), Sorted(previous.Keys - current.Keys);
    forall e | e in Changes(previous, current, replaced, at)
      ensures e.at == at && (!e.stopped && e.key in current ==> e.workload == current[e.key].workload)
    {
      if e in Emitted(arrived, current, at, false, true) {
        EmittedAre(arrived, current, at, false, true, e);
      } else if e in Emitted(gone, previous, at, true, true) {
        EmittedAre(gone, previous, at, true, true, e);
      } else {
        ReplacedAre(Sorted(replaced), previous, current, at, e);
      }
    }
  }

  /** A table whose starts match, seen now, makes a timed device. */
  lemma SeenTimed(d: Device, at: int)
    requires InTurn(d.events) && !d.pending && StartsMatch(d.events, d.live, at)
    requires d.lastObserved == Some(at) && d.lastPoint == Some(at)
    ensures Timed(d)
    ensures forall t :: at < t ==> Earlier(d, t)
  {
    hide InTurn, SameInstance;
  }

  lemma FirstFreshTimed(d: Device, current: Table, at: int)
    requires InTurn(d.events) && AllBefore(d.events, at) && !d.pending
    requires d.lastObserved == Some(at) && d.lastPoint == Some(at)
    ensures
      var next := First(d, current, at, None);
      InTurn(next.events) && StartsMatch(next.events, next.live, at)
  {
    hide Sorted, Emitted, InTurn, SameInstance;
    SortedDistinct(current.Keys);
    EmittedTurns(d.events, Sorted(current.Keys), current, at, false, false);
    forall e | e in Emitted(Sorted(current.Keys), current, at, false, false)
      ensures e.at == at && e.key in current && e.workload == current[e.key].workload
    {
      EmittedAre(Sorted(current.Keys), current, at, false, false, e);
    }
    SameSelf();
  }

  lemma SameSelf()
    ensures forall w: Option<Workload> :: SameInstance(w, w)
  {
  }

  /** Closing restored starts and starting what is not one of them. */
  lemma ReconciliationTurn(log: seq<Transition>, current: Table, at: int, point: Option<int>)
    requires InTurn(log) && AllBefore(log, at) && (point.Some? ==> point.value < at)
    requires point.Some? ==> forall k :: k in Open(log) ==> MayStop(log, k, Open(log)[k].workload, point.value)
    ensures InTurn(log + Reconciliation(log, current, at, point))
    ensures StartsMatch(log + Reconciliation(log, current, at, point), current, at)
  {
    hide Sorted, Emitted, Closures, InTurn, SameInstance, Open;
    var open := Open(log);
    var ended, begun := Orphans(open, current), Newcomers(open, current);
    var closeAt := point.GetOr(at);
    var closes := Closures(Sorted(ended), open, closeAt, false);
    var starts := Emitted(Sorted(begun), current, at, false, true);
    OpenIsKeyed(log);
    SortedDistinct(ended);
    SortedDistinct(begun);
    ClosuresTurn(log, Sorted(ended), open, closeAt, false);
    forall e | e in closes
      ensures e.stopped && e.key in ended && e.at == closeAt && e.workload == open[e.key].workload
    {
      ClosuresAre(Sorted(ended), open, closeAt, false, e);
    }
    EmittedTurns(log + closes, Sorted(begun), current, at, false, true);
    forall e | e in starts ensures e.at == at && e.key in current && e.workload == current[e.key].workload {
      EmittedAre(Sorted(begun), current, at, false, true, e);
    }
    assert log + Reconciliation(log, current, at, point) == log + closes + starts;
    SameSelf();
  }

  lemma FirstTimed(d: Device, current: Table, at: int, point: Option<int>)
    requires InTurn(d.events) && AllBefore(d.events, at) && (point.Some? ==> point.value < at)
    requires d.pending && point.Some? ==>
      forall k :: k in Open(d.events) ==> MayStop(d.events, k, Open(d.events)[k].workload, point.value)
    requires d.lastObserved == Some(at) && d.lastPoint == Some(at)
    ensures Timed(First(d, current, at, point))
    ensures forall t :: at < t ==> Earlier(First(d, current, at, point), t)
  {
    hide Sorted, Emitted, Closures, InTurn, SameInstance, Open, MayStop, Timed, Earlier;
    var next := First(d, current, at, point);
    if d.pending {
      ReconciliationTurn(d.events, current, at, point);
      hide Reconciliation;
      InheritedMatch(next.events, Open(d.events), current, at);
    } else {
      FirstFreshTimed(d, current, at);
    }
    SeenTimed(next, at);
  }

  lemma InheritedMatch(log: seq<Transition>, open: map<ProcKey, Transition>, current: Table, at: int)
    requires StartsMatch(log, current, at)
    ensures StartsMatch(log, Inherited(open, current), at)
  {
    hide SameInstance;
  }

  lemma LaterTimed(d: Device, listed: seq<ProcKey>, workloads: map<int, Workload>, at: int)
    requires InTurn(d.events) && AllBefore(d.events, at) && !d.pending
    requires d.lastObserved == Some(at) && d.lastPoint == Some(at)
    ensures
      var next := Later(d, Current(d.live, listed, workloads, at), ReplacedKeys(d.live, listed, workloads), at);
      Timed(next) && forall t :: at < t ==> Earlier(next, t)
  {
    hide InTurn, SameInstance, Changes, Timed, Earlier;
    var current, replaced := Current(d.live, listed, workloads, at), ReplacedKeys(d.live, listed, workloads);
    ChangesTurn(d.events, d.live, current, replaced, at);
    ChangesMatchStarts(d.events, d.live, current, replaced, at);
    SeenTimed(Later(d, current, replaced, at), at);
  }

  lemma PointTimed(d: Device, at: int)
    requires Timed(d) && Earlier(d, at)
    ensures Timed(d.(lastPoint := Some(at)))
    ensures forall t :: at < t ==> Earlier(d.(lastPoint := Some(at)), t)
  {
    hide InTurn, Open, SameInstance;
  }

  /** A reading later than all a device has recorded keeps its log in turn. */
  lemma ObserveTimed(d: Device, r: Reading, workloads: map<int, Workload>, at: int)
    requires Agrees(d) && Timed(d) && Earlier(d, at)
    ensures Timed(Observe(d, r, workloads, at))
    ensures forall t :: at < t ==> Earlier(Observe(d, r, workloads, at), t)
  {
    hide InTurn, LogMatches, Open, MayStop, Current, ReplacedKeys, First, Later, CloseUnobservable, LiveMayStop;
    var point := d.(lastPoint := Some(at));
    PointTimed(d, at);
    if r.sampled && !r.available {
      hide Timed, Earlier;
      CloseUnobservableTimed(point);
      forall t | at < t ensures Earlier(CloseUnobservable(point).(initialized := false), t) {
        CloseUnobservableEarlier(point, t);
      }
    } else if r.sampled {
      var seen := point.(lastObserved := Some(at));
      if !d.initialized {
        if d.pending && d.lastPoint.Some? {
          PendingMayStop(d);
        }
        FirstTimed(seen, Current(d.live, r.processes, workloads, at), at, d.lastPoint);
      } else {
        LaterTimed(seen, r.processes, workloads, at);
      }
      hide Timed, Earlier;
    }
  }

  lemma PendingMayStop(d: Device)
    requires OpenMayStop(d) && d.pending && d.lastPoint.Some?
    ensures forall k :: k in Open(d.events) ==>
      MayStop(d.events, k, Open(d.events)[k].workload, d.lastPoint.value)
  {
    hide MayStop;
  }
}
