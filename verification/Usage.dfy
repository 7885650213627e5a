/**
  Idle and active seconds of occupancy intervals.  Sorting, prefix sums, two
  bisections and two trims give each interval exactly the overlap it has with
  the kept sample segments.
 */
module Usage {
  import opened Common
  import opened Intervals

  const MAX_SAMPLE_GAP_SECONDS := 60

  /** A utilization sample: when, and whether the device was idle, if that is known. */
  datatype Sample = Sample(epoch: int, idle: Option<bool>)

  datatype Segment = Segment(start: int, end: int, idle: bool)

  // ---- segments ----------------------------------------------------------

  predicate Kept(a: Sample, b: Sample) {
    a.idle.Some? && a.epoch < b.epoch && b.epoch - a.epoch <= MAX_SAMPLE_GAP_SECONDS
  }

  /** Each consecutive pair of samples classifies the time between them. */
  function Segments(s: seq<Sample>): seq<Segment> {
    if |s| < 2 then []
    else
      var a := s[|s| - 2];
      var b := s[|s| - 1];
      Segments(s[..|s| - 1]) + if Kept(a, b) then [Segment(a.epoch, b.epoch, a.idle.value)] else []
  }

  /** Segments in order that do not overlap. */
  predicate Chain(s: seq<Segment>) {
    && (forall i :: 0 <= i < |s| ==> s[i].start < s[i].end)
    && forall i, j :: 0 <= i < j < |s| ==> s[i].end <= s[j].start
  }

  predicate Before(a: Sample, b: Sample) {
    a.epoch < b.epoch || (a.epoch == b.epoch && Rank(a) <= Rank(b))
  }

  function Rank(s: Sample): int {
    if s.idle.None? then 0 else if s.idle.value then 2 else 1
  }

  predicate InTime(s: seq<Sample>) {
    forall i, j :: 0 <= i < j < |s| ==> Before(s[i], s[j])
  }

  lemma {:induction false} SegmentsChain(s: seq<Sample>)
    requires InTime(s)
    ensures Chain(Segments(s))
    ensures Segments(s) != [] ==> |s| >= 2 && Segments(s)[|Segments(s)| - 1].end <= s[|s| - 1].epoch
  {
    if |s| >= 2 {
      var past := s[..|s| - 1];
      SegmentsChain(past);
      var a, b := s[|s| - 2], s[|s| - 1];
      assert Before(a, b) && past[|past| - 1] == a;
      ChainGrows(Segments(past), a, b);
      hide InTime;
    }
  }

  /** A chain that ends by `a` goes on with the time from `a` to `b`. */
  lemma ChainGrows(before: seq<Segment>, a: Sample, b: Sample)
    requires Chain(before) && (before != [] ==> before[|before| - 1].end <= a.epoch <= b.epoch)
    ensures
      var longer := before + if Kept(a, b) then [Segment(a.epoch, b.epoch, a.idle.value)] else [];
      Chain(longer) && (longer != [] ==> longer[|longer| - 1].end <= b.epoch)
  {
    if before != [] {
      forall i | 0 <= i < |before| ensures before[i].end <= a.epoch {
        if i < |before| - 1 {
          assert before[i].end <= before[|before| - 1].start;
        }
      }
    }
  }

  /** Python compares the classification of two samples of one second: they must be comparable. */
  predicate Comparable(s: seq<Sample>) {
    forall i, j :: 0 <= i < j < |s| && s[i].epoch == s[j].epoch ==> s[i].idle.Some? == s[j].idle.Some?
  }

  method SortSamples(s: seq<Sample>) returns (r: seq<Sample>)
    requires Comparable(s)
    ensures InTime(r) && multiset(r) == multiset(s) && |r| == |s|
  {
    hide Before;
    r := [];
    for n := 0 to |s|
      invariant InTime(r) && multiset(r) == multiset(s[..n]) && |r| == n
    {
      var at := 0;
      while at < |r| && Before(r[at], s[n])
        invariant at <= |r|
        invariant forall i :: 0 <= i < at ==> Before(r[i], s[n])
      {
        at := at + 1;
      }
      InsertSample(r, at, s[n]);
      assert s[..n + 1] == s[..n] + [s[n]];
      r := r[..at] + [s[n]] + r[at..];
    }
    assert s[..|s|] == s;
  }

  lemma InsertSample(r: seq<Sample>, at: nat, x: Sample)
    requires at <= |r| && InTime(r)
    requires forall i :: 0 <= i < at ==> Before(r[i], x)
    requires at < |r| ==> !Before(r[at], x)
    ensures InTime(r[..at] + [x] + r[at..])
    ensures multiset(r[..at] + [x] + r[at..]) == multiset(r) + multiset{x}
  {
    Spliced(r, at, x);
    forall j | at <= j < |r| ensures Before(x, r[j]) {
      if j > at {
        assert Before(r[at], r[j]);
      }
    }
    InTimeInserted(r, at, x);
  }

  lemma InTimeInserted(r: seq<Sample>, at: nat, x: Sample)
    requires at <= |r| && InTime(r)
    requires forall i :: 0 <= i < at ==> Before(r[i], x)
    requires forall i :: at <= i < |r| ==> Before(x, r[i])
    ensures InTime(r[..at] + [x] + r[at..])
  {
    hide Before;
  }

  // ---- the naive sums ----------------------------------------------------

  function Counted(s: Segment, idleOnly: bool, seconds: int): int {
    if idleOnly && !s.idle then 0 else seconds
  }

  /** The overlap of [a, b) with every segment, added up. */
  function OverlapSum(s: seq<Segment>, idleOnly: bool, a: int, b: int): int {
    if s == [] then 0
    else
      var last := s[|s| - 1];
      OverlapSum(s[..|s| - 1], idleOnly, a, b) + Counted(last, idleOnly, Overlap(last.start, last.end, a, b))
  }

  function Length(s: seq<Segment>, idleOnly: bool): int {
    if s == [] then 0
    else
      var last := s[|s| - 1];
      Length(s[..|s| - 1], idleOnly) + Counted(last, idleOnly, last.end - last.start)
  }

  /** Idle is part of sampled, and sampled is part of the interval. */
  lemma {:induction false} OverlapBounds(s: seq<Segment>, a: int, b: int)
    requires Chain(s) && a <= b
    ensures 0 <= OverlapSum(s, true, a, b) <= OverlapSum(s, false, a, b)
    ensures OverlapSum(s, false, a, b) <= if s == [] then 0 else Max(0, Min(s[|s| - 1].end, b) - a)
  {
    if s != [] {
      OverlapBounds(s[..|s| - 1], a, b);
    }
  }

  // ---- the fast form -----------------------------------------------------

  function LeftTrim(s: seq<Segment>, lo: nat, idleOnly: bool, a: int): int
    requires lo < |s|
  {
    Counted(s[lo], idleOnly, Max(0, a - s[lo].start))
  }

  function RightTrim(s: seq<Segment>, hi: nat, idleOnly: bool, b: int): int
    requires 0 < hi <= |s|
  {
    Counted(s[hi - 1], idleOnly, Max(0, s[hi - 1].end - b))
  }

  /** `lo` segments end by `a`; the ones from `hi` on start at `b` or later. */
  predicate Bisected(s: seq<Segment>, a: int, b: int, lo: nat, hi: nat) {
    && lo <= |s| && hi <= |s|
    && (forall i :: 0 <= i < lo ==> s[i].end <= a) && (forall i :: lo <= i < |s| ==> s[i].end > a)
    && (forall i :: 0 <= i < hi ==> s[i].start < b) && (forall i :: hi <= i < |s| ==> s[i].start >= b)
  }

  /** What the prefix form says the first n segments contribute. */
  function Trimmed(s: seq<Segment>, idleOnly: bool, a: int, b: int, lo: nat, hi: nat, n: nat): int
    requires lo <= |s| && hi <= |s| && n <= |s|
  {
    if n <= lo || hi <= lo then 0
    else if n < hi then Length(s[..n], idleOnly) - Length(s[..lo], idleOnly) - LeftTrim(s, lo, idleOnly, a)
    else Length(s[..hi], idleOnly) - Length(s[..lo], idleOnly)
         - LeftTrim(s, lo, idleOnly, a) - RightTrim(s, hi, idleOnly, b)
  }

  lemma LengthStep(s: seq<Segment>, idleOnly: bool, n: nat)
    requires n < |s|
    ensures Length(s[..n + 1], idleOnly) == Length(s[..n], idleOnly) + Counted(s[n], idleOnly, s[n].end - s[n].start)
  {
    assert s[..n + 1][..n] == s[..n];
  }

  lemma OverlapStep(s: seq<Segment>, idleOnly: bool, a: int, b: int, n: nat)
    requires n < |s|
    ensures OverlapSum(s[..n + 1], idleOnly, a, b) ==
            OverlapSum(s[..n], idleOnly, a, b) + Counted(s[n], idleOnly, Overlap(s[n].start, s[n].end, a, b))
  {
    assert s[..n + 1][..n] == s[..n];
  }

  /** One more segment adds its overlap to the prefix form. */
  lemma TrimmedStep(s: seq<Segment>, idleOnly: bool, a: int, b: int, lo: nat, hi: nat, n: nat)
    requires Chain(s) && a < b && Bisected(s, a, b, lo, hi) && n < |s|
    ensures Trimmed(s, idleOnly, a, b, lo, hi, n + 1) ==
            Trimmed(s, idleOnly, a, b, lo, hi, n) + Counted(s[n], idleOnly, Overlap(s[n].start, s[n].end, a, b))
  {
    hide Length;
    LengthStep(s, idleOnly, n);
    if lo < n {
      assert s[lo].end <= s[n].start;
    }
    if n + 1 < hi {
      assert s[n].end <= s[hi - 1].start;
    }
  }

  lemma SumOfNone(s: seq<Segment>, idleOnly: bool, a: int, b: int, lo: nat, hi: nat)
    requires lo <= |s| && hi <= |s|
    ensures OverlapSum(s[..0], idleOnly, a, b) == Trimmed(s, idleOnly, a, b, lo, hi, 0) == 0
  {
  }

  lemma {:induction false} SumOfFirst(s: seq<Segment>, idleOnly: bool, a: int, b: int, lo: nat, hi: nat, n: nat)
    requires Chain(s) && a < b && Bisected(s, a, b, lo, hi) && n <= |s|
    ensures OverlapSum(s[..n], idleOnly, a, b) == Trimmed(s, idleOnly, a, b, lo, hi, n)
  {
    hide OverlapSum, Chain, Counted, Length;
    if n == 0 {
      SumOfNone(s, idleOnly, a, b, lo, hi);
    } else {
      SumOfFirst(s, idleOnly, a, b, lo, hi, n - 1);
      OverlapStep(s, idleOnly, a, b, n - 1);
      TrimmedStep(s, idleOnly, a, b, lo, hi, n - 1);
    }
  }

  method BisectRightEnds(s: seq<Segment>, a: int) returns (lo: nat)
    requires Chain(s)
    ensures lo <= |s|
    ensures forall i :: 0 <= i < lo ==> s[i].end <= a
    ensures forall i :: lo <= i < |s| ==> s[i].end > a
  {
    lo := 0;
    var hi := |s|;
    while lo < hi
      invariant lo <= hi <= |s|
      invariant forall i :: 0 <= i < lo ==> s[i].end <= a
      invariant forall i :: hi <= i < |s| ==> s[i].end > a
    {
      var mid := (lo + hi) / 2;
      if a < s[mid].end {
        hi := mid;
      } else {
        lo := mid + 1;
      }
    }
  }

  method BisectLeftStarts(s: seq<Segment>, b: int) returns (hi: nat)
    requires Chain(s)
    ensures hi <= |s|
    ensures forall i :: 0 <= i < hi ==> s[i].start < b
    ensures forall i :: hi <= i < |s| ==> s[i].start >= b
  {
    var lo := 0;
    hi := |s|;
    while lo < hi
      invariant lo <= hi <= |s|
      invariant forall i :: 0 <= i < lo ==> s[i].start < b
      invariant forall i :: hi <= i < |s| ==> s[i].start >= b
    {
      var mid := (lo + hi) / 2;
      if s[mid].start < b {
        lo := mid + 1;
      } else {
        hi := mid;
      }
    }
  }

  method BuildSegments(samples: seq<Sample>) returns (segments: seq<Segment>)
    ensures segments == Segments(samples)
  {
    segments := [];
    var position := 0;
    while position < |samples| - 1
      invariant position <= |samples|
      invariant segments == Segments(samples[..if position < |samples| then position + 1 else position])
    {
      var a := samples[position];
      var b := samples[position + 1];
      assert samples[..position + 2][..position + 1] == samples[..position + 1];
      if Kept(a, b) {
        segments := segments + [Segment(a.epoch, b.epoch, a.idle.value)];
      }
      position := position + 1;
    }
    assert samples[..|samples|] == samples;
  }

  method PrefixSums(s: seq<Segment>) returns (sampled: seq<int>, idle: seq<int>)
    ensures |sampled| == |idle| == |s| + 1
    ensures forall n :: 0 <= n <= |s| ==> sampled[n] == Length(s[..n], false) && idle[n] == Length(s[..n], true)
  {
    sampled, idle := [0], [0];
    for i := 0 to |s|
      invariant |sampled| == |idle| == i + 1
      invariant forall n :: 0 <= n <= i ==> sampled[n] == Length(s[..n], false) && idle[n] == Length(s[..n], true)
    {
      var duration := s[i].end - s[i].start;
      assert s[..i + 1][..i] == s[..i];
      sampled := sampled + [sampled[i] + duration];
      idle := idle + [idle[i] + if s[i].idle then duration else 0];
    }
  }

  /** One interval against the prefix sums. */
  method Measure(s: seq<Segment>, sampledPrefix: seq<int>, idlePrefix: seq<int>, a: int, b: int)
    returns (sampled: int, idle: int)
    requires Chain(s) && a < b
    requires |sampledPrefix| == |idlePrefix| == |s| + 1
    requires forall n :: 0 <= n <= |s| ==>
               sampledPrefix[n] == Length(s[..n], false) && idlePrefix[n] == Length(s[..n], true)
    ensures sampled == OverlapSum(s, false, a, b)
    ensures idle == OverlapSum(s, true, a, b)
  {
    var lo := BisectRightEnds(s, a);
    var hi := BisectLeftStarts(s, b);
    SumOfFirst(s, false, a, b, lo, hi, |s|);
    SumOfFirst(s, true, a, b, lo, hi, |s|);
    OverlapBounds(s, a, b);
    assert s[..|s|] == s;
    if lo >= hi {
      return 0, 0;
    }
    sampled := sampledPrefix[hi] - sampledPrefix[lo];
    idle := idlePrefix[hi] - idlePrefix[lo];
    var leftTrim := Max(0, a - s[lo].start);
    var rightTrim := Max(0, s[hi - 1].end - b);
    sampled := sampled - (leftTrim + rightTrim);
    if s[lo].idle {
      idle := idle - leftTrim;
    }
    if s[hi - 1].idle {
      idle := idle - rightTrim;
    }
    sampled, idle := Max(0, sampled), Max(0, idle);
  }

  /** Every interval gets the overlap it has with all kept segments, and with the idle ones. */
  ghost predicate Classified(before: Interval, after: Interval, s: seq<Segment>) {
    after == before.(sampled := OverlapSum(s, false, before.start, before.end) as real,
                     idle := OverlapSum(s, true, before.start, before.end) as real)
  }

  method Classify(intervals: seq<Interval>, samples: seq<Sample>)
    returns (out: seq<Interval>, ghost ordered: seq<Sample>)
    requires Comparable(samples)
    requires Unmerged(intervals)
    ensures InTime(ordered) && multiset(ordered) == multiset(samples)
    ensures |out| == |intervals|
    ensures forall i :: 0 <= i < |out| ==> Classified(intervals[i], out[i], Segments(ordered))
  {
    hide OverlapSum, Length, InTime, Segments, Chain;
    var sorted := SortSamples(samples);
    ordered := sorted;
    out := intervals;
    if |samples| < 2 || intervals == [] {
      FewSamples(ordered, intervals);
      return;
    }
    var segments := BuildSegments(sorted);
    SegmentsChain(sorted);
    var sampledPrefix, idlePrefix := PrefixSums(segments);
    for n := 0 to |intervals|
      invariant |out| == |intervals|
      invariant forall i :: 0 <= i < n ==> Classified(intervals[i], out[i], segments)
      invariant forall i :: n <= i < |intervals| ==> out[i] == intervals[i]
    {
      var interval := intervals[n];
      var sampled, idle := Measure(segments, sampledPrefix, idlePrefix, interval.start, interval.end);
      out := out[n := interval.(sampled := sampled as real, idle := idle as real)];
    }
  }

  lemma FewSamples(ordered: seq<Sample>, intervals: seq<Interval>)
    requires |ordered| < 2 || intervals == []
    requires AllFresh(intervals)
    ensures forall i :: 0 <= i < |intervals| ==> Classified(intervals[i], intervals[i], Segments(ordered))
  {
  }
}
