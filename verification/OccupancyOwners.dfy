/**
  Whom a run is attributed to when the ring has lost the run's start: the
  pairing prefers the workload the start carries, and falls back to that of
  the stop or of the live table.
 */
module OccupancyOwners {
  import opened Common
  import opened ProcessOrder
  import opened ProcessTransitions
  import opened Intervals
  import opened Occupancy

  /** The workload of the run that `e` ends. */
  function RunWorkload(open: map<ProcKey, Opened>, e: Transition): Option<Workload> {
    if e.key in open && open[e.key].workload.Some? then open[e.key].workload else e.workload
  }

  /** The run that the stop `e` adds after `log`. */
  function RunEnded(log: seq<Transition>, e: Transition, w: Window): seq<Interval>
    requires e.firstSeen.Some?
  {
    Clip(w, e.firstSeen.value, e.at, RunWorkload(PairAll(log, w).open, e))
  }

  /** The start of the ended run is still held, or says nothing the stop does not say. */
  predicate KeepsOwner(log: seq<Transition>, i: nat, e: Transition)
    requires i <= |log|
  {
    e.key in Open(log[i..]) || e.key !in Open(log) ||
    Open(log)[e.key].workload.None? || Owner(Open(log)[e.key].workload) == Owner(e.workload)
  }

  /** The pairing remembers of each open start its time and workload. */
  lemma {:induction false} OpenedAre(log: seq<Transition>, w: Window)
    ensures PairAll(log, w).open.Keys == Open(log).Keys
    ensures forall k :: k in Open(log) ==> PairAll(log, w).open[k] == Opened(Open(log)[k].at, Open(log)[k].workload)
  {
    hide Clip;
    if log != [] {
      OpenedAre(log[..|log| - 1], w);
    }
  }

  /** What a suffix leaves open the whole log leaves open too. */
  lemma {:induction false} SuffixOpen(log: seq<Transition>, i: nat, k: ProcKey)
    requires i <= |log| && k in Open(log[i..])
    ensures k in Open(log) && Open(log)[k] == Open(log[i..])[k]
  {
    if i < |log| {
      var past, e := log[..|log| - 1], log[|log| - 1];
      assert log[i..] == past[i..] + [e];
      assert log[i..][..|log[i..]| - 1] == past[i..];
      if e.key != k {
        SuffixOpen(past, i, k);
      }
    }
  }

  /** A stop of a collector's log adds its run, from the first observation it carries. */
  lemma StopPaired(log: seq<Transition>, e: Transition, w: Window)
    requires Stamped(log) && Fits(log, e) && e.stopped
    ensures PairAll(log + [e], w).intervals == PairAll(log, w).intervals + RunEnded(log, e, w)
  {
    hide Stamped, PairAll;
    OpenedAre(log, w);
    PairSnoc(log, e, w);
  }

  lemma PairSnoc(log: seq<Transition>, e: Transition, w: Window)
    ensures PairAll(log + [e], w) == Pair(PairAll(log, w), e, w)
  {
    hide Pair;
  }

  lemma FitsSuffix(log: seq<Transition>, i: nat, e: Transition)
    requires Stamped(log) && i <= |log| && Fits(log, e)
    ensures Stamped(log[i..]) && Fits(log[i..], e)
  {
    SuffixStamped(log, i);
    hide Stamped;
  }

  /** A run whose stop the ring still holds is attributed as by the full log iff the run's start is held too, or
      carries no workload, or one of the stop's owner. */
  lemma CutOwner(log: seq<Transition>, i: nat, e: Transition, w: Window)
    requires Stamped(log) && i <= |log| && Fits(log, e) && e.stopped
    ensures PairAll(log + [e], w).intervals == PairAll(log, w).intervals + RunEnded(log, e, w)
    ensures PairAll(log[i..] + [e], w).intervals == PairAll(log[i..], w).intervals + RunEnded(log[i..], e, w)
    ensures RunEnded(log[i..], e, w) == RunEnded(log, e, w) <==> RunEnded(log, e, w) == [] || KeepsOwner(log, i, e)
  {
    hide Stamped, PairAll;
    FitsSuffix(log, i, e);
    StopPaired(log, e, w);
    StopPaired(log[i..], e, w);
    OpenedAre(log, w);
    OpenedAre(log[i..], w);
    if e.key in Open(log[i..]) {
      SuffixOpen(log, i, e.key);
    }
  }

  /** The same for a process that is still live, whose table entry stands in for the stop. */
  lemma CutLiveOwner(log: seq<Transition>, live: Table, i: nat, k: ProcKey, w: Window)
    requires LogMatches(log, live) && i <= |log| && k in live
    ensures k in Open(log)
    ensures
      Owner(LiveWorkload(PairAll(log[i..], w).open, live, k)) == Owner(LiveWorkload(PairAll(log, w).open, live, k)) <==>
      k in Open(log[i..]) || Owner(Open(log)[k].workload) == Owner(live[k].workload)
  {
    hide Stamped, PairAll, Open;
    assert OpenAt(log, k) == FirstSeen(live, k);
    OpenedAre(log, w);
    OpenedAre(log[i..], w);
    if k in Open(log[i..]) {
      SuffixOpen(log, i, k);
    }
  }
}
