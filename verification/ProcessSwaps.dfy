/**
  Where a pid is reused within one second, the stop and the start are recorded
  with one visibility: all changes a sample shows are, and nothing else puts a
  start after a stop of the same second.
 */
module ProcessSwaps {
  import opened Common
  import opened ProcessOrder
  import opened ProcessTransitions
  import opened ProcessDevices
  import opened ProcessTracking
  import opened ProcessClock
  import opened ProcessTable
  import opened ProcessCuts

  /** A device with any record has been sampled, and its reused pids are recorded together. */
  predicate Swapped(d: Device) {
    SwapsTogether(d.events) && (d.events != [] || d.live != map[] ==> d.lastPoint.Some?)
  }

  /** Every start of the batch is later than all of the log. */
  predicate StartsLater(log: seq<Transition>, batch: seq<Transition>) {
    forall a, b :: a in log && b in batch && !b.stopped ==> a.at < b.at
  }

  lemma SwapsAppend(log: seq<Transition>, batch: seq<Transition>)
    requires SwapsTogether(log) && SwapsTogether(batch) && StartsLater(log, batch)
    ensures SwapsTogether(log + batch)
  {
    var longer := log + batch;
    forall i | 0 <= i < |longer| ensures longer[i] in if i < |log| then log else batch {}
  }

  lemma StopsSwapped(log: seq<Transition>, batch: seq<Transition>)
    requires SwapsTogether(log) && forall e :: e in batch ==> e.stopped
    ensures SwapsTogether(log + batch)
  {
    SwapsAppend(log, batch);
  }

  lemma UnobservableSwapped(d: Device)
    requires Swapped(d)
    ensures Swapped(CloseUnobservable(d))
  {
    hide SwapsTogether, Emitted, Sorted;
    if d.lastObserved.Some? {
      var batch := Emitted(Sorted(d.live.Keys), d.live, d.lastObserved.value, true, false);
      forall e | e in batch ensures e.stopped {
        EmittedAre(Sorted(d.live.Keys), d.live, d.lastObserved.value, true, false, e);
      }
      StopsSwapped(d.events, batch);
      EmittedCount(Sorted(d.live.Keys), d.live, d.lastObserved.value, true, false);
      assert d.live == map[] ==> Sorted(d.live.Keys) == [];
    } else {
      assert d.events + [] == d.events;
    }
  }

  lemma RestoredSwapped(d: Device)
    requires Swapped(d)
    ensures Swapped(CloseRestored(d))
  {
    hide SwapsTogether, Closures, Sorted, Open;
    if d.pending && d.events != [] {
      var open := Open(d.events);
      var at := d.lastPoint.GetOr(d.events[|d.events| - 1].at);
      forall o | o in open ensures open[o].key == o {
        OpenIsStart(d.events, o);
      }
      forall e | e in Closures(Sorted(open.Keys), open, at, true) ensures e.stopped {
        ClosuresAre(Sorted(open.Keys), open, at, true, e);
      }
      StopsSwapped(d.events, Closures(Sorted(open.Keys), open, at, true));
    }
  }

  lemma SettleSwapped(d: Device)
    requires Swapped(d)
    ensures Swapped(Settle(d))
  {
    hide SwapsTogether, CloseUnobservable, CloseRestored;
    UnobservableSwapped(d);
    RestoredSwapped((if d.initialized then CloseUnobservable(d) else d).(initialized := false));
  }

  /** Rows of one visibility. */
  lemma VisibleTogether(batch: seq<Transition>, visible: bool)
    requires forall e :: e in batch ==> e.visible == visible
    ensures SwapsTogether(batch)
  {
  }

  lemma ChangesSwapped(
    log: seq<Transition>, previous: Table, current: Table, replaced: set<ProcKey>, at: int)
    requires SwapsTogether(log) && replaced <= previous.Keys * current.Keys && forall e :: e in log ==> e.at < at
    ensures SwapsTogether(log + Changes(previous, current, replaced, at))
  {
    hide SwapsTogether, Emitted, Replaced, Sorted;
    var arrived, gone := Sorted(current.Keys - previous.Keys), Sorted(previous.Keys - current.Keys);
    var batch := Changes(previous, current, replaced, at);
    forall e | e in batch ensures e.visible && e.at == at {
      EmittedAre(arrived, current, at, false, true, e);
      EmittedAre(gone, previous, at, true, true, e);
      if e in Replaced(Sorted(replaced), previous, current, at) {
        ReplacedVisible(Sorted(replaced), previous, current, at, e);
      }
    }
    VisibleTogether(batch, true);
    SwapsAppend(log, batch);
  }

  lemma {:induction false} ReplacedVisible(
    keys: seq<ProcKey>, previous: Table, current: Table, at: int, e: Transition)
    requires forall k :: k in keys ==> k in previous && k in current
    requires e in Replaced(keys, previous, current, at)
    ensures e.visible && e.at == at
  {
    var past := keys[..|keys| - 1];
    if e in Replaced(past, previous, current, at) {
      ReplacedVisible(past, previous, current, at, e);
    }
  }

  lemma StartsSwapped(log: seq<Transition>, keys: seq<ProcKey>, current: Table, at: int, visible: bool)
    requires SwapsTogether(log) && (forall k :: k in keys ==> k in current) && forall e :: e in log ==> e.at < at
    ensures SwapsTogether(log + Emitted(keys, current, at, false, visible))
  {
    hide SwapsTogether, Emitted;
    var batch := Emitted(keys, current, at, false, visible);
    forall e | e in batch ensures e.visible == visible && e.at == at {
      EmittedAre(keys, current, at, false, visible, e);
    }
    VisibleTogether(batch, visible);
    SwapsAppend(log, batch);
  }

  lemma ReconciliationSwapped(log: seq<Transition>, current: Table, at: int, point: Option<int>)
    requires SwapsTogether(log) && forall e :: e in log ==> e.at < at
    requires log != [] ==> point.Some? && point.value < at
    ensures SwapsTogether(log + Reconciliation(log, current, at, point))
  {
    hide SwapsTogether, Emitted, Closures, Sorted, SameInstance, Open;
    var open := Open(log);
    var ended, begun := Sorted(Orphans(open, current)), Sorted(Newcomers(open, current));
    var closeAt := point.GetOr(at);
    var closes, starts := Closures(ended, open, closeAt, false), Emitted(begun, current, at, false, true);
    forall o | o in open ensures open[o].key == o && open[o] in log {
      OpenIsStart(log, o);
    }
    forall e | e in closes ensures e.stopped && e.at < at {
      ClosuresAre(ended, open, closeAt, false, e);
    }
    StopsSwapped(log, closes);
    StartsSwapped(log + closes, begun, current, at, true);
    assert log + Reconciliation(log, current, at, point) == log + closes + starts;
  }

  lemma ObserveSwapped(d: Device, r: Reading, workloads: map<int, Workload>, at: int)
    requires Swapped(d) && Earlier(d, at)
    ensures Swapped(Observe(d, r, workloads, at))
  {
    hide SwapsTogether, CloseUnobservable, Changes, Reconciliation, Current, ReplacedKeys, Inherited, Emitted, Sorted;
    hide Open;
    var point := d.(lastPoint := Some(at));
    if r.sampled && !r.available {
      UnobservableSwapped(point);
      Closed(point);
    } else if r.sampled {
      var current := Current(d.live, r.processes, workloads, at);
      if d.initialized {
        ReplacedWithin(d.live, r.processes, workloads, at);
        ChangesSwapped(d.events, d.live, current, ReplacedKeys(d.live, r.processes, workloads), at);
      } else if d.pending {
        ReconciliationSwapped(d.events, current, at, d.lastPoint);
      } else {
        StartsSwapped(d.events, Sorted(current.Keys), current, at, false);
      }
    }
  }

  lemma Closed(d: Device)
    ensures CloseUnobservable(d).lastPoint == d.lastPoint
  {
  }
}
