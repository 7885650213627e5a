/**
  Restarts from the table of process transitions.  What they read back of a
  device is again a collector's log that is in turn, where the cut keeps no
  start of which it drops the stop.
 */
module ProcessRestarts {
  import opened Common
  import opened ProcessOrder
  import opened ProcessTransitions
  import opened ProcessDevices
  import opened ProcessTracking
  import opened ProcessRestore
  import opened ProcessClock
  import opened ProcessAlternation
  import opened ProcessTable
  import opened ProcessCuts
  import opened ProcessSwaps

  function Resumed(r: Restored): Device {
    Blank.(events := r.events, lastPoint := r.lastPoint, pending := r.events != [])
  }

  predicate RestoredBefore(r: Restored, t: int) {
    Earlier(Resumed(r), t)
  }

  /** The open start of a process is the last of its transitions. */
  lemma {:induction false} OpenIsLast(log: seq<Transition>, k: ProcKey, e: Transition)
    requires InTurn(log) && k in Open(log) && e in log && e.key == k
    ensures e == Open(log)[k] || Turn(e, Open(log)[k])
  {
    hide Turn;
    var past, last := log[..|log| - 1], log[|log| - 1];
    if last.key == k {
      assert Open(log)[k] == last;
    } else {
      assert forall i :: 0 <= i < |past| ==> past[i] == log[i];
      OpenIsLast(past, k, e);
    }
  }

  /** Among rows that differ in their key an open start may be stopped at any time from its own on. */
  lemma OpenMayStopFrom(all: seq<Transition>, log: seq<Transition>, k: ProcKey, at: int)
    requires Keyed(all) && InTurn(log) && k in Open(log) && Open(log)[k].at <= at
    requires forall e :: e in log ==> e in all
    ensures MayStop(log, k, Open(log)[k].workload, at)
  {
    hide InTurn, Keyed, Open, SameInstance;
    OpenIsStart(log, k);
    SameSelf();
    var start := Open(log)[k];
    forall e | e in log && e.key == k
      ensures e.at < at || (e.at == at && (!e.stopped ==> SameInstance(e.workload, start.workload)))
    {
      OpenIsLast(log, k, e);
      if e.at == at && !e.stopped {
        OneRow(all, e, start);
      }
    }
  }

  /** No open run started after its device was last sampled. */
  lemma OpenBeforePoint(d: Device, k: ProcKey)
    requires Agrees(d) && Timed(d) && k in Open(d.events) && d.lastPoint.Some?
    ensures Open(d.events)[k].at <= d.lastPoint.value
  {
    hide Open, InTurn, SameInstance;
    OpenIsStart(d.events, k);
    if !d.pending {
      assert OpenAt(d.events, k) == FirstSeen(d.live, k);
      assert k in d.live;
    }
  }

  // ---- what a restart reads back of one device ---------------------------

  /** A restart's cut of the table, whose key tells all rows apart, and the time of the device's last sample. */
  ghost predicate StoredFrom(table: set<Transition>, d: Device, r: Restored) {
    && KeyedRows(table) && Keyed(d.events) && r.lastPoint == d.lastPoint
    && exists since, n :: TableCut(table, since, n, r.events)
  }

  /** The rows are of the device's present record, and none lost its stop to the cut. */
  ghost predicate HarmlessCut(d: Device, r: Restored) {
    (forall e :: e in r.events ==> e in d.events) && NoneCutShort(d.events, r.events)
  }

  /** A device as the runs of the store keep it, with all its transitions in the table. */
  ghost predicate WellKept(table: set<Transition>, d: Device) {
    && Agrees(d) && Timed(d) && Collected(d.events) && Swapped(d)
    && forall e :: e in d.events ==> e in table
  }

  /** What a restart reads back is a collector's log with the same starts open iff no start loses its stop. */
  lemma ReadCollectedIff(table: set<Transition>, d: Device, r: Restored)
    requires WellKept(table, d) && StoredFrom(table, d, r) && forall e :: e in r.events ==> e in d.events
    ensures Cropped(d.events, r.events)
    ensures NoneCutShort(d.events, r.events) <==> Unsplit(d.events, r.events)
    ensures Collected(r.events) && OpensAs(r.events, d.events) <==> NoneCutShort(d.events, r.events)
  {
    hide Agrees, Collected, TableCut, KeyedRows, InTurn, Keyed, Cropped, Unsplit, NoneCutShort, SwapsTogether, OpensAs;
    var since, n :| TableCut(table, since, n, r.events);
    assert InTurn(d.events) by {
      TimedInTurn(d);
    }
    hide Timed;
    CutCrops(table, since, n, d.events, r.events);
    UnsplitIff(table, since, n, d.events, r.events);
    CroppedCollectedIff(d.events, r.events);
  }

  lemma TimedInTurn(d: Device)
    requires Timed(d)
    ensures InTurn(d.events)
  {
  }

  lemma ResumedTimed(r: Restored)
    requires InTurn(r.events)
    requires r.events != [] ==>
      forall k :: k in Open(r.events) ==> MayStop(r.events, k, Open(r.events)[k].workload, CloseAt(Resumed(r)))
    ensures Timed(Resumed(r))
  {
    hide InTurn, Open, MayStop;
  }

  /** An open start that was read back is one of the device's own, no later than its last sample. */
  lemma ReadOpen(table: set<Transition>, d: Device, r: Restored, k: ProcKey)
    requires WellKept(table, d) && StoredFrom(table, d, r) && k in Open(r.events)
    requires OpensAs(r.events, d.events)
    ensures Open(r.events)[k].at <= CloseAt(Resumed(r))
  {
    hide Collected, TableCut, KeyedRows, Keyed, Open, OfKey, SwapsTogether, Agrees, Timed;
    var since, n :| TableCut(table, since, n, r.events);
    OpenIsStart(r.events, k);
    OldestFirst(table, since, n, r.events, Open(r.events)[k]);
    LastOfKey(r.events, k);
    assert OpenAt(r.events, k) == OpenAt(d.events, k);
    if d.lastPoint.Some? {
      OpenBeforePoint(d, k);
    }
  }

  lemma StoredTimed(table: set<Transition>, d: Device, r: Restored)
    requires WellKept(table, d) && StoredFrom(table, d, r)
    requires Keyed(d.events) && Cropped(d.events, r.events) && OpensAs(r.events, d.events)
    ensures Timed(Resumed(r))
  {
    CroppedInTurn(d.events, r.events);
    hide Keyed, Open, OfKey, Cropped, OpensAs, InTurn, MayStop, WellKept, StoredFrom, Timed, Earlier;
    forall k | r.events != [] && k in Open(r.events)
      ensures MayStop(r.events, k, Open(r.events)[k].workload, CloseAt(Resumed(r)))
    {
      ReadOpen(table, d, r, k);
      OpenMayStopFrom(d.events, r.events, k, CloseAt(Resumed(r)));
    }
    ResumedTimed(r);
  }

  lemma StoredSwapped(d: Device, r: Restored)
    requires Swapped(d) && SwapsTogether(r.events) && r.lastPoint == d.lastPoint
    requires forall e :: e in r.events ==> e in d.events
    ensures Swapped(Resumed(r))
    ensures forall t :: Earlier(d, t) ==> RestoredBefore(r, t)
  {
    hide SwapsTogether;
    assert r.events != [] ==> r.events[0] in d.events;
  }

  /** A harmless cut of a recorded device makes a restored device that is timed, collected and recorded together. */
  lemma StoredEarns(table: set<Transition>, d: Device, r: Restored)
    requires WellKept(table, d) && StoredFrom(table, d, r) && HarmlessCut(d, r)
    ensures Collected(r.events) && OpensAs(r.events, d.events)
    ensures Timed(Resumed(r)) && Swapped(Resumed(r))
    ensures forall t :: Earlier(d, t) ==> RestoredBefore(r, t)
  {
    hide Collected, TableCut, KeyedRows, Keyed, NoneCutShort, Cropped, Unsplit, OpensAs, InTurn, SwapsTogether;
    hide Agrees, Timed, Earlier, RestoredBefore, Swapped;
    assert InTurn(d.events) by {
      TimedInTurn(d);
    }
    ReadCollectedIff(table, d, r);
    assert SwapsTogether(d.events) by {
      SwappedTogether(d);
    }
    CroppedTogether(d.events, r.events);
    StoredTimed(table, d, r);
    StoredSwapped(d, r);
  }

  lemma SwappedTogether(d: Device)
    requires Swapped(d)
    ensures SwapsTogether(d.events)
  {
  }

  lemma CroppedInTurn(log: seq<Transition>, r: seq<Transition>)
    requires Cropped(log, r)
    ensures InTurn(r) && forall e :: e in r ==> e in log
  {
  }

  lemma CroppedTogether(log: seq<Transition>, r: seq<Transition>)
    requires Cropped(log, r) && SwapsTogether(log) && Keyed(log) && InTurn(log)
    ensures SwapsTogether(r)
  {
    hide Keyed, SameInstance;
    forall i, j | 0 <= i < j < |r| && SameSecond(r[i], r[j]) && r[i].stopped && !r[j].stopped
      ensures r[i].visible == r[j].visible
    {
      assert r[i] in log && r[j] in log;
      var x :| 0 <= x < |log| && log[x] == r[i];
      var y :| 0 <= y < |log| && log[y] == r[j];
      assert Turn(r[i], r[j]);
      SwapOrder(log, x, y);
    }
  }
}
