/** What the store hands to the pairing is always a collector's log with its own live table. */
module OccupancyRuns {
  import opened Common
  import opened ProcessOrder
  import opened ProcessTransitions
  import opened ProcessDevices
  import opened ProcessTracking
  import Intervals
  import OccupancyOwners
  import ProcessExamples
  import ProcessReads
  import ProcessTimes
  import opened Occupancy

  /** For every device of every run, a ring that keeps only the newest transitions yields exactly the runs of the
      full log whose stop it still holds, plus the live processes, and leaves no start unmatched. */
  lemma RingTruncation(ops: seq<Op>, k: GpuKey, i: nat, w: Window)
    requires forall op :: op in ops ==> RestoresStamped(op)
    requires
      var d := Of(Run(ops).devices, k);
      !d.pending && i <= |d.events|
    ensures
      var d := Of(Run(ops).devices, k);
      && PairedSpans(d.events, d.live, w) == StopSpans(d.events[..i], w) + PairedSpans(d.events[i..], d.live, w)
      && PairedSpans(d.events[i..], d.live, w) == StopSpans(d.events[i..], w) + TableSpans(d.live, w)
      && PairAll(d.events[i..], w).open.Keys <= d.live.Keys
  {
    hide Run, PairedSpans, StopSpans, TableSpans, PairAll, Stamped, LogMatches;
    var d := Of(Run(ops).devices, k);
    RunAgrees(ops);
    BlankAgrees(false);
    assert Agrees(d) && Stamped(d.events);
    SuffixIsLive(d.events, d.live, i);
    PairedStamped(d.events[i..], d.live, w);
    TruncationHarmless(d.events, d.live, i, w);
  }

  /** The same in every run whose sample times increase and whose restarts cut the table the run has written, without
      dropping the stop of a start they keep or giving a device rows that its record does not have. */
  lemma FaithfulTruncation(ops: seq<Op>, k: GpuKey, i: nat, w: Window)
    requires ProcessReads.Faithful(ops) && ProcessReads.Harmless(ops) && ProcessTimes.SamplesIncrease(ops)
    requires
      var d := Of(Run(ops).devices, k);
      !d.pending && i <= |d.events|
    ensures
      var d := Of(Run(ops).devices, k);
      && PairedSpans(d.events, d.live, w) == StopSpans(d.events[..i], w) + PairedSpans(d.events[i..], d.live, w)
      && PairAll(d.events[i..], w).open.Keys <= d.live.Keys
  {
    hide Run, PairedSpans, StopSpans, PairAll, RestoresStamped, ProcessTimes.SamplesIncrease;
    hide ProcessReads.Faithful, ProcessReads.Harmless;
    ProcessReads.FaithfulEarns(ops);
    RingTruncation(ops, k, i, w);
  }

  // ---- what a harmful cut does -------------------------------------------

  lemma PairNothing(w: Window)
    ensures PairAll([], w) == Scan(map[], [], 0, None)
  {
  }

  /** The open start so many transitions leave. */
  function Pending(p: ProcKey, n: nat): map<ProcKey, Opened> {
    if n % 2 == 1 then map[p := Opened(ProcessExamples.When(n - 1), None)] else map[]
  }

  lemma BlinkPairs(s: Scan, p: ProcKey, n: nat, w: Window)
    requires s.open == Pending(p, n)
    ensures
      var next := Pair(s, ProcessExamples.Blink(p, n), w);
      next.intervals == s.intervals && next.open == Pending(p, n + 1)
  {
    var next := Pair(s, ProcessExamples.Blink(p, n), w);
    assert next.open == Pending(p, n + 1);
    assert s.intervals + [] == s.intervals;
  }

  lemma {:induction false} BlinksPair(p: ProcKey, n: nat, w: Window)
    ensures
      var s := PairAll(ProcessExamples.Blinks(p, n), w);
      s.intervals == [] && s.open == Pending(p, n)
  {
    hide PairAll, Pair, ProcessExamples.Blink;
    if n == 0 {
      PairNothing(w);
      assert ProcessExamples.Blinks(p, 0) == [];
    } else {
      BlinksPair(p, n - 1, w);
      ProcessExamples.BlinksGrow(p, n);
      OccupancyOwners.PairSnoc(ProcessExamples.Blinks(p, n - 1), ProcessExamples.Blink(p, n - 1), w);
      BlinkPairs(PairAll(ProcessExamples.Blinks(p, n - 1), w), p, n - 1, w);
    }
  }

  lemma {:induction false} CutBlinksPair(p: ProcKey, n: nat, w: Window)
    requires n > 0 && w.start <= 5 && w.now >= 10
    ensures
      var s := PairAll(ProcessExamples.WithoutFirstStop(p, n), w);
      && s.intervals == (if n == 1 then [] else [Intervals.Run(5, 10, None)])
      && s.open == if n == 1 then Pending(p, 1) else Pending(p, n + 1)
  {
    hide PairAll;
    var r := ProcessExamples.WithoutFirstStop(p, n);
    if n == 1 {
      PairNothing(w);
      assert r == [] + [ProcessExamples.Blink(p, 0)];
      OccupancyOwners.PairSnoc([], ProcessExamples.Blink(p, 0), w);
      BlinkPairs(PairAll([], w), p, 0, w);
    } else {
      CutBlinksPair(p, n - 1, w);
      var past := ProcessExamples.WithoutFirstStop(p, n - 1);
      assert r == past + [ProcessExamples.Blink(p, n)];
      OccupancyOwners.PairSnoc(past, ProcessExamples.Blink(p, n), w);
      if n > 2 {
        hide Pair;
        BlinkPairs(PairAll(past, w), p, n, w);
      }
    }
  }

  /** A start whose stop the limit drops is taken for a run that lasts until the process is seen again: the whole log
      of such a run holds no second of occupancy, what a restart reads back of it five. */
  lemma LimitFabricates(p: ProcKey, n: nat, w: Window)
    requires n > 1 && w.start <= 5 && w.now >= 10
    ensures
      var log := Of(Run(ProcessExamples.OnAndOff(p, n + 1)).devices, ProcessExamples.ONLY).events;
      && PairAll(log, w).intervals == []
      && PairAll(ProcessExamples.WithoutFirstStop(p, n), w).intervals == [Intervals.Run(5, 10, None)]
  {
    hide Run, PairAll;
    ProcessExamples.OnAndOffRuns(p, n + 1);
    BlinksPair(p, n + 1, w);
    CutBlinksPair(p, n, w);
  }
}
