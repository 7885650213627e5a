/**
  Long-window reports: idle shares from hourly aggregates, an owner's seconds
  on one GPU, and their split into UTC days.
 */
module Reports {
  import opened Common
  import opened Intervals
  import opened Occupancy

  const HOUR := 3600
  const DAY := 86400

  // ---- hourly classification ---------------------------------------------

  datatype Bucket = Bucket(start: int, samples: nat, busy: nat)

  /** One bucket an hour, sorted, each starting on the hour. */
  predicate Hourly(s: seq<Bucket>) {
    forall i, j :: 0 <= i < j < |s| ==> s[i].start + HOUR <= s[j].start
  }

  function SampledIn(h: Bucket, a: int, b: int): int {
    if h.samples > 0 then Overlap(h.start, h.start + HOUR, a, b) else 0
  }

  /** The idle share of the hour, applied to the part of [a, b) inside it. */
  function IdleIn(h: Bucket, a: int, b: int): real {
    if h.samples > 0
    then Overlap(h.start, h.start + HOUR, a, b) as real * (1.0 - h.busy as real / h.samples as real)
    else 0.0
  }

  function SampledSum(s: seq<Bucket>, a: int, b: int): int {
    if s == [] then 0 else SampledSum(s[..|s| - 1], a, b) + SampledIn(s[|s| - 1], a, b)
  }

  function IdleSum(s: seq<Bucket>, a: int, b: int): real {
    if s == [] then 0.0 else IdleSum(s[..|s| - 1], a, b) + IdleIn(s[|s| - 1], a, b)
  }

  lemma {:induction false} NothingIn(s: seq<Bucket>, from: nat, to: nat, a: int, b: int)
    requires from <= to <= |s|
    requires forall i :: from <= i < to ==> s[i].start + HOUR <= a || s[i].start >= b
    ensures SampledSum(s[..to], a, b) == SampledSum(s[..from], a, b)
    ensures IdleSum(s[..to], a, b) == IdleSum(s[..from], a, b)
  {
    if from < to {
      NothingIn(s, from, to - 1, a, b);
      assert s[..to][..to - 1] == s[..to - 1];
      assert Overlap(s[to - 1].start, s[to - 1].start + HOUR, a, b) == 0;
    }
  }

  method BisectLeft(s: seq<Bucket>, a: int) returns (lo: nat)
    requires Hourly(s)
    ensures lo <= |s|
    ensures forall i :: 0 <= i < lo ==> s[i].start < a
    ensures forall i :: lo <= i < |s| ==> s[i].start >= a
  {
    lo := 0;
    var hi := |s|;
    while lo < hi
      invariant lo <= hi <= |s|
      invariant forall i :: 0 <= i < lo ==> s[i].start < a
      invariant forall i :: hi <= i < |s| ==> s[i].start >= a
    {
      var mid := (lo + hi) / 2;
      if s[mid].start < a {
        lo := mid + 1;
      } else {
        hi := mid;
      }
    }
  }

  /** One interval: the walk over the hours it touches gives the sums over all of them. */
  method MeasureHours(buckets: seq<Bucket>, a: int, b: int) returns (sampled: int, idle: real)
    requires Hourly(buckets)
    ensures sampled == SampledSum(buckets, a, b)
    ensures idle == IdleSum(buckets, a, b)
  {
    hide IdleIn, SampledIn, IdleSum, SampledSum;
    var lo := BisectLeft(buckets, a);
    var position := if lo == 0 then 0 else lo - 1;
    forall i | 0 <= i < position ensures buckets[i].start + HOUR <= a {
      assert buckets[i].start + HOUR <= buckets[lo - 1].start;
    }
    NothingIn(buckets, 0, position, a, b);
    sampled, idle := 0, 0.0;
    NoBuckets(buckets, a, b);
    while position < |buckets| && buckets[position].start < b
      invariant 0 <= position <= |buckets|
      invariant sampled == SampledSum(buckets[..position], a, b)
      invariant idle == IdleSum(buckets[..position], a, b)
    {
      TakeBucket(buckets, position, a, b);
      sampled, idle := AddHour(buckets[position], a, b, sampled, idle);
      position := position + 1;
    }
    forall i | position <= i < |buckets| ensures buckets[i].start >= b {
      assert i == position || buckets[position].start + HOUR <= buckets[i].start;
    }
    NothingIn(buckets, position, |buckets|, a, b);
    assert buckets[..|buckets|] == buckets;
  }

  method AddHour(h: Bucket, a: int, b: int, before: int, idleBefore: real) returns (sampled: int, idle: real)
    ensures sampled == before + SampledIn(h, a, b) && idle == idleBefore + IdleIn(h, a, b)
  {
    sampled, idle := before, idleBefore;
    var overlap := Min(b, h.start + HOUR) - Max(a, h.start);
    if overlap > 0 && h.samples > 0 {
      sampled := sampled + overlap;
      idle := idle + overlap as real * (1.0 - h.busy as real / h.samples as real);
    }
  }

  lemma NoBuckets(s: seq<Bucket>, a: int, b: int)
    ensures SampledSum(s[..0], a, b) == 0 && IdleSum(s[..0], a, b) == 0.0
  {
  }

  lemma TakeBucket(s: seq<Bucket>, n: nat, a: int, b: int)
    requires n < |s|
    ensures SampledSum(s[..n + 1], a, b) == SampledSum(s[..n], a, b) + SampledIn(s[n], a, b)
    ensures IdleSum(s[..n + 1], a, b) == IdleSum(s[..n], a, b) + IdleIn(s[n], a, b)
  {
    assert s[..n + 1][..n] == s[..n];
  }

  ghost predicate ClassifiedHourly(before: Interval, after: Interval, buckets: seq<Bucket>) {
    after == before.(sampled := SampledSum(buckets, before.start, before.end) as real,
                     idle := IdleSum(buckets, before.start, before.end))
  }

  method ClassifyHourly(intervals: seq<Interval>, buckets: seq<Bucket>) returns (out: seq<Interval>)
    requires Hourly(buckets) && AllFresh(intervals)
    ensures |out| == |intervals|
    ensures forall i :: 0 <= i < |out| ==> ClassifiedHourly(intervals[i], out[i], buckets)
  {
    out := intervals;
    if buckets == [] || intervals == [] {
      return;
    }
    for n := 0 to |intervals|
      invariant |out| == |intervals|
      invariant forall i :: 0 <= i < n ==> ClassifiedHourly(intervals[i], out[i], buckets)
      invariant forall i :: n <= i < |intervals| ==> out[i] == intervals[i]
    {
      hide SampledSum, IdleSum;
      var sampled, idle := MeasureHours(buckets, intervals[n].start, intervals[n].end);
      out := out[n := intervals[n].(sampled := sampled as real, idle := idle)];
    }
  }

  lemma PartOf(x: real, share: real)
    requires 0.0 <= x && 0.0 <= share <= 1.0
    ensures 0.0 <= x * (1.0 - share) <= x
  {
    assert x * (1.0 - share) == x - x * share;
  }

  lemma ShareOf(part: nat, whole: nat)
    requires part <= whole && whole > 0
    ensures 0.0 <= part as real / whole as real <= 1.0
  {
  }

  lemma IdleShare(h: Bucket, a: int, b: int)
    requires h.busy <= h.samples
    ensures 0.0 <= IdleIn(h, a, b) <= SampledIn(h, a, b) as real
  {
    if h.samples > 0 {
      ShareOf(h.busy, h.samples);
      PartOf(Overlap(h.start, h.start + HOUR, a, b) as real, h.busy as real / h.samples as real);
    }
  }

  /** Idle is part of sampled, and sampled is part of the interval. */
  lemma {:induction false} HourlyBounds(s: seq<Bucket>, a: int, b: int)
    requires Hourly(s) && a <= b
    requires forall h :: h in s ==> h.busy <= h.samples
    ensures 0.0 <= IdleSum(s, a, b) <= SampledSum(s, a, b) as real
    ensures SampledSum(s, a, b) <= if s == [] then 0 else Max(0, Min(s[|s| - 1].start + HOUR, b) - a)
  {
    if s != [] {
      HourlyBounds(s[..|s| - 1], a, b);
      IdleShare(s[|s| - 1], a, b);
      hide IdleIn;
    }
  }

  // ---- one owner on one GPU ----------------------------------------------

  function OwnedBy(s: seq<Interval>, owner: Option<string>): seq<Interval> {
    if s == [] then []
    else OwnedBy(s[..|s| - 1], owner) + if s[|s| - 1].owner == owner then [s[|s| - 1]] else []
  }

  function OwnersOf(s: seq<Interval>): set<Option<string>> {
    set i | i in s :: i.owner
  }

  lemma OwnedIsUnmerged(s: seq<Interval>, owner: Option<string>)
    requires Unmerged(s)
    ensures Unmerged(OwnedBy(s, owner))
  {
  }

  lemma OwnersSnoc(s: seq<Interval>, i: Interval)
    ensures OwnersOf(s + [i]) == OwnersOf(s) + {i.owner}
  {
  }

  lemma OwnedSnoc(s: seq<Interval>, i: Interval, owner: Option<string>)
    ensures OwnedBy(s + [i], owner) == OwnedBy(s, owner) + if i.owner == owner then [i] else []
  {
  }

  lemma NobodyElse(s: seq<Interval>, owner: Option<string>)
    requires owner !in OwnersOf(s)
    ensures OwnedBy(s, owner) == []
  {
  }

  method GroupByOwner(intervals: seq<Interval>) returns (groups: map<Option<string>, seq<Interval>>)
    ensures groups.Keys == OwnersOf(intervals)
    ensures forall o :: o in groups ==> groups[o] == OwnedBy(intervals, o)
  {
    hide OwnedBy, OwnersOf;
    groups := map[];
    NoOwners();
    for n := 0 to |intervals|
      invariant groups.Keys == OwnersOf(intervals[..n])
      invariant forall o :: o in groups ==> groups[o] == OwnedBy(intervals[..n], o)
    {
      var i := intervals[n];
      assert intervals[..n + 1] == intervals[..n] + [i];
      OwnersSnoc(intervals[..n], i);
      if i.owner !in groups {
        NobodyElse(intervals[..n], i.owner);
      }
      forall o | o in groups || o == i.owner
        ensures OwnedBy(intervals[..n + 1], o) == OwnedBy(intervals[..n], o) + if i.owner == o then [i] else []
      {
        OwnedSnoc(intervals[..n], i, o);
      }
      groups := groups[i.owner := (if i.owner in groups then groups[i.owner] else []) + [i]];
    }
    assert intervals[..|intervals|] == intervals;
  }

  lemma NoOwners()
    ensures OwnersOf([]) == {}
  {
  }

  /** Concurrent processes of one owner on one GPU occupy it once: the owner's seconds are the seconds in
      which at least one of its processes held the device. */
  method SecondsByOwner(intervals: seq<Interval>) returns (seconds: map<Option<string>, int>)
    requires Unmerged(intervals)
    ensures seconds.Keys == OwnersOf(intervals)
    ensures forall o :: o in seconds ==> seconds[o] == |Points(OwnedBy(intervals, o))|
  {
    hide OwnedBy, OwnersOf, Points, Unmerged;
    var groups := GroupByOwner(intervals);
    seconds := map[];
    var left := groups.Keys;
    while left != {}
      invariant left <= groups.Keys
      invariant seconds.Keys == groups.Keys - left
      invariant forall o :: o in seconds ==> seconds[o] == |Points(OwnedBy(intervals, o))|
      decreases |left|
    {
      var o :| o in left;
      OwnedIsUnmerged(intervals, o);
      var merged := MergeIntervals(groups[o]);
      seconds := seconds[o := Total(merged)];
      left := left - {o};
    }
  }

  lemma OwnedInside(s: seq<Interval>, o: Option<string>, w: Window)
    requires Inside(s, w)
    ensures Inside(OwnedBy(s, o), w)
  {
  }

  lemma PointsInside(s: seq<Interval>, w: Window)
    requires Inside(s, w)
    ensures Points(s) <= Seconds(w.start, w.now)
  {
  }

  /** No owner holds one GPU for longer than the window. */
  lemma OwnerWithinWindow(s: seq<Interval>, o: Option<string>, w: Window)
    requires Inside(s, w) && w.start <= w.now
    ensures |Points(OwnedBy(s, o))| <= w.now - w.start
  {
    OwnedInside(s, o, w);
    PointsInside(OwnedBy(s, o), w);
    Within(Points(OwnedBy(s, o)), Seconds(w.start, w.now));
  }

  lemma Within(a: set<int>, b: set<int>)
    requires a <= b
    ensures |a| <= |b|
  {
    assert b == a + (b - a);
  }

  // ---- days --------------------------------------------------------------

  /** The seconds of [a, b) the intervals hold. */
  function Held(s: seq<Interval>, a: int, b: int): int {
    if s == [] then 0
    else Held(s[..|s| - 1], a, b) + Overlap(s[|s| - 1].start, s[|s| - 1].end, a, b)
  }

  function DaySeconds(s: seq<Interval>, day: int): int {
    Held(s, day * DAY, (day + 1) * DAY)
  }

  datatype DayKey = DayKey(day: int, owner: Option<string>)

  function Amount(days: map<DayKey, int>, k: DayKey): int {
    if k in days then days[k] else 0
  }

  /** What one interval up to `cursor` adds to each day of its owner. */
  ghost predicate Split(before: map<DayKey, int>, after: map<DayKey, int>, owner: Option<string>, s: seq<Interval>,
                        start: int, cursor: int)
  {
    forall k: DayKey ::
      Amount(after, k) == Amount(before, k) +
        if k.owner == owner then DaySeconds(s, k.day) + Overlap(start, cursor, k.day * DAY, (k.day + 1) * DAY) else 0
  }

  method SplitByDay(owner: Option<string>, merged: seq<Interval>, days: map<DayKey, int>)
    returns (split: map<DayKey, int>)
    requires forall i :: 0 <= i < |merged| ==> NonEmpty(merged[i])
    ensures forall k: DayKey ::
              Amount(split, k) == Amount(days, k) + if k.owner == owner then DaySeconds(merged, k.day) else 0
  {
    hide Held;
    split := days;
    NoneHeld();
    for n := 0 to |merged|
      invariant forall k: DayKey ::
          Amount(split, k) == Amount(days, k) + if k.owner == owner then DaySeconds(merged[..n], k.day) else 0
    {
      var interval := merged[n];
      split := SplitOne(owner, interval, split, days, merged[..n]);
      forall k: DayKey ensures DaySeconds(merged[..n + 1], k.day) ==
        DaySeconds(merged[..n], k.day) + Overlap(interval.start, interval.end, k.day * DAY, (k.day + 1) * DAY)
      {
        HeldStep(merged, n, k.day * DAY, (k.day + 1) * DAY);
      }
    }
    assert merged[..|merged|] == merged;
  }

  method SplitOne(
    owner: Option<string>, interval: Interval, from: map<DayKey, int>, ghost days: map<DayKey, int>,
    ghost past: seq<Interval>)
    returns (split: map<DayKey, int>)
    requires NonEmpty(interval)
    requires forall k: DayKey ::
        Amount(from, k) == Amount(days, k) + if k.owner == owner then DaySeconds(past, k.day) else 0
    ensures Split(days, split, owner, past, interval.start, interval.end)
  {
    hide Held;
    split := from;
    var cursor := interval.start;
    while cursor < interval.end
      invariant interval.start <= cursor <= interval.end
      invariant Split(days, split, owner, past, interval.start, cursor)
      decreases interval.end - cursor
    {
      var day := cursor / DAY;
      var segmentEnd := Min(interval.end, (day + 1) * DAY);
      var k := DayKey(day, owner);
      var next := split[k := Amount(split, k) + segmentEnd - cursor];
      DayStep(days, split, next, owner, past, interval.start, cursor, segmentEnd);
      split := next;
      cursor := segmentEnd;
    }
  }

  lemma DayStep(
    days: map<DayKey, int>, split: map<DayKey, int>, next: map<DayKey, int>, owner: Option<string>, past: seq<Interval>,
    start: int, cursor: int, end: int)
    requires Split(days, split, owner, past, start, cursor)
    requires start <= cursor < end <= (cursor / DAY + 1) * DAY
    requires
      var k := DayKey(cursor / DAY, owner);
      next == split[k := Amount(split, k) + end - cursor]
    ensures Split(days, next, owner, past, start, end)
  {
  }

  lemma NoneHeld()
    ensures forall d :: DaySeconds([], d) == 0
  {
  }

  lemma HeldStep(s: seq<Interval>, n: nat, a: int, b: int)
    requires n < |s|
    ensures Held(s[..n + 1], a, b) == Held(s[..n], a, b) + Overlap(s[n].start, s[n].end, a, b)
  {
    assert s[..n + 1][..n] == s[..n];
  }

  lemma HeldAdds(s: seq<Interval>, a: int, b: int, c: int)
    requires a <= b <= c
    ensures Held(s, a, c) == Held(s, a, b) + Held(s, b, c)
  {
  }

  function DaysTotal(s: seq<Interval>, lo: int, hi: int): int
    requires lo <= hi
    decreases hi - lo
  {
    if lo == hi then 0 else DaysTotal(s, lo, hi - 1) + DaySeconds(s, hi - 1)
  }

  lemma {:induction false} DaysAddUp(s: seq<Interval>, lo: int, hi: int)
    requires lo <= hi
    ensures DaysTotal(s, lo, hi) == Held(s, lo * DAY, hi * DAY)
    decreases hi - lo
  {
    if lo == hi {
      NothingHeld(s, lo * DAY);
    } else {
      DaysAddUp(s, lo, hi - 1);
      HeldAdds(s, lo * DAY, (hi - 1) * DAY, hi * DAY);
    }
  }

  lemma NothingHeld(s: seq<Interval>, a: int)
    ensures Held(s, a, a) == 0
  {
  }

  lemma AllHeld(s: seq<Interval>, a: int, b: int)
    requires forall i :: 0 <= i < |s| ==> a <= s[i].start < s[i].end <= b
    ensures Held(s, a, b) == Total(s)
  {
  }

  /** The day amounts add up to exactly the total. */
  lemma DaysConserve(s: seq<Interval>, lo: int, hi: int)
    requires lo <= hi
    requires forall i :: 0 <= i < |s| ==> lo * DAY <= s[i].start < s[i].end <= hi * DAY
    ensures DaysTotal(s, lo, hi) == Total(s)
  {
    DaysAddUp(s, lo, hi);
    AllHeld(s, lo * DAY, hi * DAY);
  }

  lemma HeldBounded(s: seq<Interval>, a: int, b: int)
    requires Separated(s) && a <= b
    ensures 0 <= Held(s, a, b) <= if s == [] then 0 else Max(0, Min(s[|s| - 1].end, b) - a)
  {
  }

  /** One owner on one GPU never gets more than a day's seconds in a day. */
  lemma DayBounded(s: seq<Interval>, day: int)
    requires Separated(s)
    ensures 0 <= DaySeconds(s, day) <= DAY
  {
    HeldBounded(s, day * DAY, (day + 1) * DAY);
  }
}
