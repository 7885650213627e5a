/**
  Pairing a device's transitions into runs, and merging one owner's runs.
  For logs a collector produces, losing old transitions loses exactly the
  runs whose stop was lost.
 */
module Occupancy {
  import opened Common
  import opened ProcessOrder
  import opened ProcessTransitions
  import opened Intervals

  /** The report window and how far the live table is confirmed. */
  datatype Window = Window(start: int, now: int, observedUntil: Option<int>)
  {
    function ActiveUntil(): int {
      if observedUntil.Some? then Min(now, observedUntil.value) else now
    }
  }

  function Owner(w: Option<Workload>): Option<string> {
    if w.Some? && w.value.owner.Some? && w.value.owner.value != "" then w.value.owner else None
  }

  /** The clipped run, unless nothing is left of it. */
  function Clip(w: Window, start: int, end: int, workload: Option<Workload>): seq<Interval> {
    var a := Max(start, w.start);
    var b := Min(end, w.now);
    if b <= a then [] else [Run(a, b, Owner(workload))]
  }

  datatype Opened = Opened(at: int, workload: Option<Workload>)

  datatype Scan = Scan(open: map<ProcKey, Opened>, intervals: seq<Interval>, dropped: nat, earliest: Option<int>)

  function Earlier(e: Option<int>, t: int): Option<int> {
    if e.None? || t < e.value then Some(t) else e
  }

  function Pair(s: Scan, e: Transition, w: Window): Scan {
    var earliest := Earlier(s.earliest, e.at);
    if !e.stopped then
      var closed := if e.key in s.open then Clip(w, s.open[e.key].at, e.at, s.open[e.key].workload) else [];
      Scan(s.open[e.key := Opened(e.at, e.workload)], s.intervals + closed, s.dropped, earliest)
    else if e.key in s.open then
      var workload := if s.open[e.key].workload.Some? then s.open[e.key].workload else e.workload;
      Scan(s.open - {e.key}, s.intervals + Clip(w, s.open[e.key].at, e.at, workload), s.dropped, earliest)
    else if e.firstSeen.Some? && e.firstSeen.value <= e.at then
      Scan(s.open, s.intervals + Clip(w, e.firstSeen.value, e.at, e.workload), s.dropped,
           Earlier(earliest, e.firstSeen.value))
    else Scan(s.open, s.intervals, s.dropped + 1, earliest)
  }

  function PairAll(log: seq<Transition>, w: Window): Scan {
    if log == [] then Scan(map[], [], 0, None) else Pair(PairAll(log[..|log| - 1], w), log[|log| - 1], w)
  }

  // ---- the live table fills in -------------------------------------------

  /** When a process occupying the device now began to. */
  function Began(open: map<ProcKey, Opened>, active: Table, k: ProcKey): int
    requires k in active
  {
    if k in open then open[k].at else active[k].firstSeen
  }

  function LiveSpan(open: map<ProcKey, Opened>, active: Table, w: Window, k: ProcKey): multiset<(int, int)>
    requires k in active
  {
    Spans(Clip(w, Began(open, active, k), w.ActiveUntil(), None))
  }

  function Spans(s: seq<Interval>): multiset<(int, int)> {
    if s == [] then multiset{} else Spans(s[..|s| - 1]) + multiset{Span(s[|s| - 1])}
  }

  /** The spans of the live processes `keys`, in whatever order they are taken. */
  ghost function LiveSpans(
    open: map<ProcKey, Opened>, active: Table, w: Window, keys: set<ProcKey>): multiset<(int, int)>
    requires keys <= active.Keys
  {
    if keys == {} then multiset{}
    else
      var k :| k in keys;
      LiveSpans(open, active, w, keys - {k}) + LiveSpan(open, active, w, k)
  }

  lemma {:induction false} LiveSpansRemove(
    open: map<ProcKey, Opened>, active: Table, w: Window, keys: set<ProcKey>, k: ProcKey)
    requires keys <= active.Keys && k in keys
    ensures LiveSpans(open, active, w, keys) ==
            LiveSpans(open, active, w, keys - {k}) + LiveSpan(open, active, w, k)
  {
    hide LiveSpan;
    var j :| j in keys && LiveSpans(open, active, w, keys) ==
                          LiveSpans(open, active, w, keys - {j}) + LiveSpan(open, active, w, j);
    if j != k {
      LiveSpansRemove(open, active, w, keys - {j}, k);
      LiveSpansRemove(open, active, w, keys - {k}, j);
      assert keys - {j} - {k} == keys - {k} - {j};
    }
  }

  lemma SpansAppend(a: seq<Interval>, i: Interval)
    ensures Spans(a + [i]) == Spans(a) + multiset{Span(i)}
  {
  }

  lemma {:induction false} SpansConcat(a: seq<Interval>, b: seq<Interval>)
    ensures Spans(a + b) == Spans(a) + Spans(b)
  {
    hide Spans;
    if b == [] {
      NoSpans(a);
      assert a + b == a;
    } else {
      var past := b[..|b| - 1];
      var last := b[|b| - 1];
      assert past + [last] == b;
      SpansConcat(a, past);
      SpansAppend(a + past, last);
      SpansAppend(past, last);
      Snoc(a, past, last);
    }
  }

  lemma Snoc(a: seq<Interval>, past: seq<Interval>, last: Interval)
    ensures a + (past + [last]) == a + past + [last]
  {
  }

  /** The spans the pairing yields: ended runs, then everything the live table still lists. */
  ghost function PairedSpans(log: seq<Transition>, active: Table, w: Window): multiset<(int, int)> {
    var s := PairAll(log, w);
    Spans(s.intervals) + LiveSpans(s.open, active, w, active.Keys)
  }

  predicate Inside(s: seq<Interval>, w: Window) {
    forall i :: i in s ==> w.start <= i.start < i.end <= w.now
  }

  method PairIntervals(log: seq<Transition>, active: Table, w: Window)
    returns (intervals: seq<Interval>, dropped: nat, earliest: Option<int>)
    ensures Spans(intervals) == PairedSpans(log, active, w)
    ensures dropped == PairAll(log, w).dropped + |PairAll(log, w).open.Keys - active.Keys|
    ensures earliest == PairAll(log, w).earliest
    ensures Inside(intervals, w)
    ensures PairAll(log, w).intervals <= intervals
    ensures FromTable(intervals[|PairAll(log, w).intervals|..], PairAll(log, w).open, active, w)
  {
    hide Spans, LiveSpans, FromTable, Inside, PairAll;
    var s := ScanLog(log, w);
    ClippedAll(log, w);
    var more, orphans := FillIn(s.open, active, w);
    SpansConcat(s.intervals, more);
    InsideConcat(s.intervals, more, w);
    intervals, dropped, earliest := s.intervals + more, s.dropped + orphans, s.earliest;
    assert intervals[|s.intervals|..] == more;
  }

  lemma InsideConcat(a: seq<Interval>, b: seq<Interval>, w: Window)
    requires Inside(a, w) && Inside(b, w)
    ensures Inside(a + b, w)
  {
  }

  /** The workload a live run is attributed to: its start's, or the table's when the start is lost. */
  function LiveWorkload(open: map<ProcKey, Opened>, active: Table, k: ProcKey): Option<Workload>
    requires k in active
  {
    if k in open then open[k].workload else active[k].workload
  }

  ghost predicate LiveRun(i: Interval, open: map<ProcKey, Opened>, active: Table, w: Window, k: ProcKey) {
    k in active && i in Clip(w, Began(open, active, k), w.ActiveUntil(), LiveWorkload(open, active, k))
  }

  /** Every one of these runs is a live process's, with its owner. */
  ghost predicate FromTable(runs: seq<Interval>, open: map<ProcKey, Opened>, active: Table, w: Window) {
    forall i :: i in runs ==> exists k :: LiveRun(i, open, active, w, k)
  }

  lemma MoreFromTable(runs: seq<Interval>, open: map<ProcKey, Opened>, active: Table, w: Window, k: ProcKey)
    requires FromTable(runs, open, active, w) && k in active
    ensures
      var run := Clip(w, Began(open, active, k), w.ActiveUntil(), LiveWorkload(open, active, k));
      FromTable(runs + run, open, active, w)
  {
    var run := Clip(w, Began(open, active, k), w.ActiveUntil(), LiveWorkload(open, active, k));
    forall i | i in run ensures LiveRun(i, open, active, w, k) {}
    hide Clip;
  }

  /** The runs collected while the live keys `rest` are still to come. */
  ghost predicate Closing(
    open: map<ProcKey, Opened>, active: Table, w: Window, rest: set<ProcKey>, runs: seq<Interval>)
  {
    && rest <= active.Keys
    && Spans(runs) + LiveSpans(open, active, w, rest) == LiveSpans(open, active, w, active.Keys)
    && Inside(runs, w) && FromTable(runs, open, active, w)
  }

  lemma ClosingStep(
    open: map<ProcKey, Opened>, active: Table, w: Window, rest: set<ProcKey>, runs: seq<Interval>, k: ProcKey)
    requires Closing(open, active, w, rest, runs) && k in rest
    ensures
      var run := Clip(w, Began(open, active, k), w.ActiveUntil(), LiveWorkload(open, active, k));
      Closing(open, active, w, rest - {k}, runs + run)
  {
    hide LiveSpans, Spans, Clip, Inside, FromTable, Began, LiveWorkload;
    TakeLive(open, active, w, rest, k, runs, LiveWorkload(open, active, k));
    MoreFromTable(runs, open, active, w, k);
  }

  lemma ClosingStarts(open: map<ProcKey, Opened>, active: Table, w: Window)
    ensures Closing(open, active, w, active.Keys, [])
  {
    hide LiveSpans;
    NoLiveSpans(open, active, w);
  }

  lemma ClosingEnds(open: map<ProcKey, Opened>, active: Table, w: Window, runs: seq<Interval>)
    requires Closing(open, active, w, {}, runs)
    ensures Spans(runs) == LiveSpans(open, active, w, active.Keys)
    ensures Inside(runs, w) && FromTable(runs, open, active, w)
  {
    hide Spans, Inside, FromTable;
    NoLiveSpans(open, active, w);
    hide LiveSpans;
  }

  /** Unmatched starts reach to the confirmed table when it lists them; the table fills in the rest. */
  method FillIn(open: map<ProcKey, Opened>, active: Table, w: Window) returns (runs: seq<Interval>, orphans: nat)
    ensures Spans(runs) == LiveSpans(open, active, w, active.Keys)
    ensures orphans == |open.Keys - active.Keys|
    ensures Inside(runs, w) && FromTable(runs, open, active, w)
  {
    hide LiveSpans, Spans, Clip, Inside, FromTable, Closing;
    orphans := |open.Keys - active.Keys|;
    runs := CloseOpen(open, active, w);
    var left := active.Keys - open.Keys;
    while left != {}
      invariant left <= active.Keys - open.Keys
      invariant Closing(open, active, w, left, runs)
      decreases |left|
    {
      var k :| k in left;
      ClosingStep(open, active, w, left, runs, k);
      runs := runs + Clip(w, active[k].firstSeen, w.ActiveUntil(), active[k].workload);
      left := left - {k};
    }
    ClosingEnds(open, active, w, runs);
  }

  method CloseOpen(open: map<ProcKey, Opened>, active: Table, w: Window) returns (runs: seq<Interval>)
    ensures Closing(open, active, w, active.Keys - open.Keys, runs)
  {
    hide LiveSpans, Spans, Clip, Closing, Remaining;
    runs := [];
    var left := open.Keys * active.Keys;
    ghost var rest := active.Keys;
    ClosingStarts(open, active, w);
    RemainingEnds(open, active, rest);
    while left != {}
      invariant Remaining(open, active, left, rest)
      invariant Closing(open, active, w, rest, runs)
      decreases |left|
    {
      var k :| k in left;
      TakeRemaining(open, active, left, rest, k);
      ClosingStep(open, active, w, rest, runs, k);
      runs := runs + Clip(w, open[k].at, w.ActiveUntil(), open[k].workload);
      rest := rest - {k};
      left := left - {k};
    }
    RemainingEnds(open, active, rest);
  }

  /** The live keys not yet taken: those still to do, and those without an open start. */
  predicate Remaining(open: map<ProcKey, Opened>, active: Table, left: set<ProcKey>, rest: set<ProcKey>) {
    left <= open.Keys && left <= rest <= active.Keys && rest == active.Keys - open.Keys + left
  }

  lemma RemainingEnds(open: map<ProcKey, Opened>, active: Table, rest: set<ProcKey>)
    ensures Remaining(open, active, open.Keys * active.Keys, active.Keys)
    ensures Remaining(open, active, {}, rest) ==> rest == active.Keys - open.Keys
  {
  }

  lemma TakeRemaining(open: map<ProcKey, Opened>, active: Table, left: set<ProcKey>, rest: set<ProcKey>, k: ProcKey)
    requires Remaining(open, active, left, rest) && k in left
    ensures k in open && k in active && k in rest && Remaining(open, active, left - {k}, rest - {k})
  {
  }

  lemma TakeLive(
    open: map<ProcKey, Opened>, active: Table, w: Window, keys: set<ProcKey>, k: ProcKey, runs: seq<Interval>,
    workload: Option<Workload>)
    requires keys <= active.Keys && k in keys
    ensures
      var run := Clip(w, Began(open, active, k), w.ActiveUntil(), workload);
      && Spans(runs + run) + LiveSpans(open, active, w, keys - {k}) == Spans(runs) + LiveSpans(open, active, w, keys)
      && (Inside(runs, w) ==> Inside(runs + run, w))
  {
    hide Spans, LiveSpans, Clip, Inside, Began;
    var began := Began(open, active, k);
    LiveSpansRemove(open, active, w, keys, k);
    ClipSpan(w, began, w.ActiveUntil(), workload, None);
    SpansConcat(runs, Clip(w, began, w.ActiveUntil(), workload));
    ClipInside(runs, w, began, w.ActiveUntil(), workload);
  }

  lemma ClipInside(runs: seq<Interval>, w: Window, a: int, b: int, workload: Option<Workload>)
    ensures Inside(runs, w) ==> Inside(runs + Clip(w, a, b, workload), w)
  {
  }

  lemma NoLiveSpans(open: map<ProcKey, Opened>, active: Table, w: Window)
    ensures LiveSpans(open, active, w, {}) == multiset{}
    ensures Spans([]) == multiset{} && Inside([], w) && FromTable([], open, active, w)
  {
  }

  method ScanLog(log: seq<Transition>, w: Window) returns (s: Scan)
    ensures s == PairAll(log, w)
  {
    hide Clip;
    var open: map<ProcKey, Opened> := map[];
    var intervals: seq<Interval> := [];
    var dropped: nat := 0;
    var earliest: Option<int> := None;
    for i := 0 to |log|
      invariant Scan(open, intervals, dropped, earliest) == PairAll(log[..i], w)
    {
      var e := log[i];
      earliest := Earlier(earliest, e.at);
      if !e.stopped {
        if e.key in open {
          intervals := intervals + Clip(w, open[e.key].at, e.at, open[e.key].workload);
        }
        open := open[e.key := Opened(e.at, e.workload)];
      } else if e.key in open {
        var workload := if open[e.key].workload.Some? then open[e.key].workload else e.workload;
        intervals := intervals + Clip(w, open[e.key].at, e.at, workload);
        open := open - {e.key};
      } else if e.firstSeen.Some? && e.firstSeen.value <= e.at {
        earliest := Earlier(earliest, e.firstSeen.value);
        intervals := intervals + Clip(w, e.firstSeen.value, e.at, e.workload);
      } else {
        dropped := dropped + 1;
      }
      assert log[..i + 1][..i] == log[..i];
    }
    assert log[..|log|] == log;
    s := Scan(open, intervals, dropped, earliest);
  }

  lemma {:induction false} ClippedAll(log: seq<Transition>, w: Window)
    ensures Inside(PairAll(log, w).intervals, w)
  {
    if log != [] {
      ClippedAll(log[..|log| - 1], w);
    }
  }

  // ---- losing old transitions --------------------------------------------

  /** The run a stop ends, from the first observation it carries. */
  function StopSpan(e: Transition, w: Window): multiset<(int, int)> {
    if e.stopped && e.firstSeen.Some? then Spans(Clip(w, e.firstSeen.value, e.at, None)) else multiset{}
  }

  function StopSpans(log: seq<Transition>, w: Window): multiset<(int, int)> {
    if log == [] then multiset{} else StopSpans(log[..|log| - 1], w) + StopSpan(log[|log| - 1], w)
  }

  ghost predicate OpenSame(s: Scan, log: seq<Transition>) {
    forall k :: (if k in s.open then Some(s.open[k].at) else None) == OpenAt(log, k)
  }

  lemma ClipSpan(w: Window, a: int, b: int, x: Option<Workload>, y: Option<Workload>)
    ensures Spans(Clip(w, a, b, x)) == Spans(Clip(w, a, b, y))
    ensures b < a ==> Spans(Clip(w, a, b, x)) == multiset{}
  {
  }

  /** One transition of a collector's log. */
  lemma PairOne(s: Scan, past: seq<Transition>, e: Transition, w: Window)
    requires OpenSame(s, past) && Fits(past, e)
    ensures OpenSame(Pair(s, e, w), past + [e])
    ensures Spans(Pair(s, e, w).intervals) ==
            Spans(s.intervals) + if e.stopped then Spans(Clip(w, e.firstSeen.value, e.at, None)) else multiset{}
  {
    hide Clip, Spans, Open;
    OpenAppend(past, e);
    assert (if e.key in s.open then Some(s.open[e.key].at) else None) == OpenAt(past, e.key);
    PairOpen(s, past, e, w);
    if e.stopped {
      var start := e.firstSeen.value;
      var workload := if e.key in s.open && s.open[e.key].workload.Some? then s.open[e.key].workload else e.workload;
      ClipSpan(w, start, e.at, workload, None);
      SpansConcat(s.intervals, Clip(w, start, e.at, workload));
      NoSpans(s.intervals);
    } else {
      NoSpans(s.intervals);
    }
  }

  lemma NoSpans(s: seq<Interval>)
    ensures s + [] == s && Spans([]) == multiset{} && Spans(s) + multiset{} == Spans(s)
  {
  }

  lemma PairOpen(s: Scan, past: seq<Transition>, e: Transition, w: Window)
    requires OpenSame(s, past)
    ensures OpenSame(Pair(s, e, w), past + [e])
  {
  }

  /** On a collector's log the pairing yields the runs of its stops and leaves open what the log leaves open. */
  lemma {:induction false} PairStamped(log: seq<Transition>, w: Window)
    requires Stamped(log)
    ensures Spans(PairAll(log, w).intervals) == StopSpans(log, w)
    ensures OpenSame(PairAll(log, w), log)
  {
    hide Clip, Spans, Pair, OpenSame;
    if log == [] {
      NothingPaired(w);
    } else {
      var past := log[..|log| - 1];
      var e := log[|log| - 1];
      PairStamped(past, w);
      assert past + [e] == log;
      PairOne(PairAll(past, w), past, e, w);
    }
  }

  lemma NothingPaired(w: Window)
    ensures Spans(PairAll([], w).intervals) == multiset{} && OpenSame(PairAll([], w), [])
  {
  }

  lemma {:induction false} SuffixStamped(log: seq<Transition>, i: nat)
    requires Stamped(log) && i <= |log|
    ensures Stamped(log[i..])
    ensures forall k :: OpenAt(log[i..], k).Some? ==> OpenAt(log[i..], k) == OpenAt(log, k)
  {
    if i == |log| {
      assert log[i..] == [];
    } else {
      var past := log[..|log| - 1];
      var e := log[|log| - 1];
      SuffixStamped(past, i);
      assert log[i..] == past[i..] + [e];
      StampedAppend(past[i..], e);
      OpenPrefix(log);
      OpenPrefix(log[i..]);
      assert log[i..][..|log[i..]| - 1] == past[i..];
      hide OpenAt, Stamped;
    }
  }

  lemma OpenPrefix(log: seq<Transition>)
    requires log != []
    ensures
      var e := log[|log| - 1];
      forall k :: OpenAt(log, k) ==
        if k != e.key then OpenAt(log[..|log| - 1], k) else if e.stopped then None else Some(e.at)
  {
  }

  lemma StopSpansAppend(log: seq<Transition>, e: Transition, w: Window)
    ensures StopSpans(log + [e], w) == StopSpans(log, w) + StopSpan(e, w)
  {
  }

  lemma NoStops(a: seq<Transition>, w: Window)
    ensures StopSpans(a, w) + StopSpans([], w) == StopSpans(a, w)
  {
  }

  lemma SumOfThree(a: multiset<(int, int)>, b: multiset<(int, int)>, c: multiset<(int, int)>)
    ensures a + b + c == a + (b + c)
  {
  }

  lemma {:induction false} StopSpansSplit(a: seq<Transition>, b: seq<Transition>, w: Window)
    ensures StopSpans(a + b, w) == StopSpans(a, w) + StopSpans(b, w)
  {
    hide StopSpan, StopSpans;
    if b == [] {
      assert a + b == a;
      NoStops(a, w);
    } else {
      var past := b[..|b| - 1];
      var e := b[|b| - 1];
      StopSpansSplit(a, past, w);
      StopSpansAppend(a + past, e, w);
      assert a + b == a + past + [e];
      assert past + [e] == b;
      StopSpansAppend(past, e, w);
      SumOfThree(StopSpans(a, w), StopSpans(past, w), StopSpan(e, w));
    }
  }

  /** The runs of the live table, each from its first-seen stamp. */
  ghost function TableSpans(live: Table, w: Window): multiset<(int, int)> {
    LiveSpans(map[], live, w, live.Keys)
  }

  lemma LiveSpansSame(open: map<ProcKey, Opened>, live: Table, w: Window, keys: set<ProcKey>)
    requires keys <= live.Keys
    requires forall k :: k in keys ==> Began(open, live, k) == live[k].firstSeen
    ensures LiveSpans(open, live, w, keys) == LiveSpans(map[], live, w, keys)
  {
  }

  /** Nothing the log leaves open is missing from the table or began at another time. */
  ghost predicate OpenIsLive(log: seq<Transition>, live: Table) {
    forall k :: OpenAt(log, k).Some? ==> OpenAt(log, k) == FirstSeen(live, k)
  }

  /** What the pairing yields for a collector's log and table, and that no start is left an orphan. */
  lemma PairedStamped(log: seq<Transition>, live: Table, w: Window)
    requires Stamped(log) && OpenIsLive(log, live)
    ensures PairedSpans(log, live, w) == StopSpans(log, w) + TableSpans(live, w)
    ensures PairAll(log, w).open.Keys <= live.Keys
  {
    PairStamped(log, w);
    var s := PairAll(log, w);
    hide Stamped, PairAll, StopSpans, OpenAt, LiveSpans;
    forall k | k in s.open ensures k in live && s.open[k].at == live[k].firstSeen {
      assert (if k in s.open then Some(s.open[k].at) else None) == OpenAt(log, k);
      assert OpenAt(log, k) == FirstSeen(live, k);
    }
    LiveSpansSame(s.open, live, w, live.Keys);
  }

  lemma SuffixIsLive(log: seq<Transition>, live: Table, i: nat)
    requires Stamped(log) && LogMatches(log, live) && i <= |log|
    ensures Stamped(log[i..]) && OpenIsLive(log[i..], live) && OpenIsLive(log, live)
  {
    SuffixStamped(log, i);
    hide OpenAt, Stamped;
    assert forall k :: OpenAt(log, k) == FirstSeen(live, k);
  }

  /** A ring that lost its oldest transitions yields the runs of the full log except those whose stop was lost,
      each with the same start and end. */
  lemma TruncationHarmless(log: seq<Transition>, live: Table, i: nat, w: Window)
    requires Stamped(log) && LogMatches(log, live) && i <= |log|
    ensures PairedSpans(log, live, w) == StopSpans(log[..i], w) + PairedSpans(log[i..], live, w)
  {
    hide Stamped, PairedSpans, StopSpans, TableSpans, OpenIsLive, LogMatches;
    SuffixIsLive(log, live, i);
    PairedStamped(log, live, w);
    PairedStamped(log[i..], live, w);
    StopSpansSplit(log[..i], log[i..], w);
    assert log[..i] + log[i..] == log;
  }

  // ---- one owner's runs on one GPU ---------------------------------------

  predicate InOrder(s: seq<Interval>) {
    forall i, j :: 0 <= i < j < |s| ==> s[i].start <= s[j].start
  }

  /** sorted() by start and end. */
  method SortByStart(s: seq<Interval>) returns (r: seq<Interval>)
    ensures InOrder(r) && multiset(r) == multiset(s)
  {
    r := [];
    for n := 0 to |s|
      invariant InOrder(r) && multiset(r) == multiset(s[..n])
    {
      var at := 0;
      while at < |r| && (r[at].start < s[n].start || (r[at].start == s[n].start && r[at].end <= s[n].end))
        invariant at <= |r|
        invariant forall i :: 0 <= i < at ==> r[i].start <= s[n].start
      {
        at := at + 1;
      }
      Insert(r, at, s[n]);
      assert s[..n + 1] == s[..n] + [s[n]];
      r := r[..at] + [s[n]] + r[at..];
    }
    assert s[..|s|] == s;
  }

  lemma Insert(r: seq<Interval>, at: nat, i: Interval)
    requires at <= |r| && InOrder(r)
    requires forall j :: 0 <= j < at ==> r[j].start <= i.start
    requires at < |r| ==> i.start <= r[at].start
    ensures InOrder(r[..at] + [i] + r[at..])
    ensures multiset(r[..at] + [i] + r[at..]) == multiset(r) + multiset{i}
  {
    Spliced(r, at, i);
    forall j | at <= j < |r| ensures i.start <= r[j].start {
      assert r[at].start <= r[j].start;
    }
  }

  /** The wall-clock union: separated intervals that cover the same seconds. */
  method MergeIntervals(intervals: seq<Interval>) returns (merged: seq<Interval>)
    requires Unmerged(intervals)
    ensures Separated(merged)
    ensures Points(merged) == Points(intervals)
    ensures Total(merged) == |Points(intervals)|
    ensures AllFresh(merged)
  {
    hide Points, Separated, InOrder, Seconds;
    var ordered := SortByStart(intervals);
    PointsOfMultiset(ordered, intervals);
    merged := [];
    EmptySeparated();
    for n := 0 to |ordered|
      invariant Separated(merged) && AllFresh(merged)
      invariant Points(merged) == Points(ordered[..n])
      invariant n > 0 ==> merged != [] && merged[|merged| - 1].start <= ordered[n - 1].start
      invariant n == 0 ==> merged == []
    {
      var next := ordered[n];
      assert next in multiset(ordered);
      assert next in intervals && NonEmpty(next);
      assert ordered[..n + 1] == ordered[..n] + [next];
      PointsAppend(ordered[..n], next);
      if n > 0 {
        Ordered(ordered, n);
      }
      merged := MergeNext(merged, next);
    }
    assert ordered[..|ordered|] == ordered;
    TotalIsMeasure(merged);
  }

  /** An interval that starts no later than the last one ends extends it, any other follows it. */
  method MergeNext(merged: seq<Interval>, next: Interval) returns (longer: seq<Interval>)
    requires Separated(merged) && AllFresh(merged) && NonEmpty(next)
    requires merged != [] ==> merged[|merged| - 1].start <= next.start
    ensures Separated(longer) && AllFresh(longer)
    ensures Points(longer) == Points(merged) + Seconds(next.start, next.end)
    ensures longer != [] && longer[|longer| - 1].start <= next.start
  {
    hide Points, Separated, Seconds;
    if merged != [] && next.start <= merged[|merged| - 1].end {
      var last := |merged| - 1;
      Extend(merged, Max(merged[last].end, next.end), next);
      longer := merged[last := merged[last].(end := Max(merged[last].end, next.end))];
    } else {
      Append(merged, Run(next.start, next.end, next.owner));
      longer := merged + [Run(next.start, next.end, next.owner)];
    }
  }

  lemma EmptySeparated()
    ensures Separated([])
  {
  }

  lemma Ordered(s: seq<Interval>, n: nat)
    requires InOrder(s) && 0 < n < |s|
    ensures s[n - 1].start <= s[n].start
  {
  }

  lemma Append(merged: seq<Interval>, next: Interval)
    requires Separated(merged) && NonEmpty(next)
    requires merged != [] ==> merged[|merged| - 1].end < next.start
    ensures Separated(merged + [next]) && Points(merged + [next]) == Points(merged) + Seconds(next.start, next.end)
  {
    PointsAppend(merged, next);
    hide Points, Seconds;
    forall i | 0 <= i < |merged| ensures merged[i].end < next.start {
      if i < |merged| - 1 {
        assert merged[i].end < merged[|merged| - 1].start < merged[|merged| - 1].end;
      }
    }
  }

  lemma Extend(merged: seq<Interval>, end: int, next: Interval)
    requires Separated(merged) && merged != []
    requires
      var last := merged[|merged| - 1];
      last.start <= next.start <= last.end && end == Max(last.end, next.end)
    ensures
      var last := |merged| - 1;
      var longer := merged[last := merged[last].(end := end)];
      Separated(longer) && Points(longer) == Points(merged) + Seconds(next.start, next.end)
  {
    var n := |merged| - 1;
    var longer := merged[n := merged[n].(end := end)];
    assert longer[..n] == merged[..n];
  }

  lemma PointsOfMultiset(a: seq<Interval>, b: seq<Interval>)
    requires multiset(a) == multiset(b)
    ensures Points(a) == Points(b)
  {
    PointsSubset(a, b);
    PointsSubset(b, a);
  }

  lemma PointsSubset(a: seq<Interval>, b: seq<Interval>)
    requires multiset(a) == multiset(b)
    ensures Points(a) <= Points(b)
  {
    forall t | t in Points(a) ensures t in Points(b) {
      PointsWithin(a, t);
      var i :| 0 <= i < |a| && a[i].start <= t < a[i].end;
      assert a[i] in multiset(b);
      var j :| 0 <= j < |b| && b[j] == a[i];
      PointsWithin(b, t);
    }
  }
}
