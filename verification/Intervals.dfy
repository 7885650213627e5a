/** Occupancy intervals and the seconds they cover. */
module Intervals {
  import opened Common

  /** The seconds [start, end) one process held a GPU, cut to the report's window. */
  datatype Interval = Interval(start: int, end: int, owner: Option<string>, sampled: real, idle: real)

  function Run(start: int, end: int, owner: Option<string>): Interval {
    Interval(start, end, owner, 0.0, 0.0)
  }

  /** Not classified yet. */
  predicate Fresh(i: Interval) {
    i.sampled == 0.0 && i.idle == 0.0
  }

  predicate AllFresh(s: seq<Interval>) {
    forall i :: 0 <= i < |s| ==> Fresh(s[i])
  }

  function Span(i: Interval): (int, int) {
    (i.start, i.end)
  }

  function Seconds(a: int, b: int): (r: set<int>)
    ensures forall t :: t in r <==> a <= t < b
    ensures |r| == Max(0, b - a)
    decreases b - a
  {
    if b <= a then {} else Seconds(a, b - 1) + {b - 1}
  }

  /** The seconds covered by at least one interval. */
  function Points(s: seq<Interval>): set<int> {
    if s == [] then {} else Points(s[..|s| - 1]) + Seconds(s[|s| - 1].start, s[|s| - 1].end)
  }

  function Total(s: seq<Interval>): int {
    if s == [] then 0 else Total(s[..|s| - 1]) + s[|s| - 1].end - s[|s| - 1].start
  }

  ghost predicate Covered(s: seq<Interval>, t: int) {
    exists i :: 0 <= i < |s| && s[i].start <= t < s[i].end
  }

  lemma CoveredByLast(s: seq<Interval>, t: int)
    requires s != []
    ensures Covered(s, t) <==> Covered(s[..|s| - 1], t) || s[|s| - 1].start <= t < s[|s| - 1].end
  {
    var past := s[..|s| - 1];
    if i :| 0 <= i < |past| && past[i].start <= t < past[i].end {
      assert s[i] == past[i];
    }
    if i :| 0 <= i < |s| && s[i].start <= t < s[i].end && i < |past| {
      assert past[i] == s[i];
    }
  }

  lemma {:induction false} PointsWithin(s: seq<Interval>, t: int)
    ensures t in Points(s) <==> Covered(s, t)
  {
    if s != [] {
      PointsWithin(s[..|s| - 1], t);
      CoveredByLast(s, t);
      hide Covered;
    }
  }

  lemma PointsAppend(s: seq<Interval>, i: Interval)
    ensures Points(s + [i]) == Points(s) + Seconds(i.start, i.end)
    ensures Total(s + [i]) == Total(s) + i.end - i.start
  {
  }

  predicate NonEmpty(i: Interval) {
    i.start < i.end
  }

  /** As the pairing yields them. */
  predicate Unmerged(s: seq<Interval>) {
    forall i :: 0 <= i < |s| ==> NonEmpty(s[i]) && Fresh(s[i])
  }

  /** In order, none empty, and with a gap between any two. */
  predicate Separated(s: seq<Interval>) {
    && (forall i :: 0 <= i < |s| ==> NonEmpty(s[i]))
    && forall i, j :: 0 <= i < j < |s| ==> s[i].end < s[j].start
  }

  /** Separated intervals cover as many seconds as their lengths add up to. */
  lemma {:induction false} TotalIsMeasure(s: seq<Interval>)
    requires Separated(s)
    ensures |Points(s)| == Total(s)
  {
    if s != [] {
      var past := s[..|s| - 1];
      var last := s[|s| - 1];
      TotalIsMeasure(past);
      forall t | t in Points(past) ensures t < last.start {
        PointsWithin(past, t);
      }
      assert Points(past) !! Seconds(last.start, last.end);
    }
  }

  /** The part of [a, b) inside [s, e). */
  function Overlap(s: int, e: int, a: int, b: int): nat {
    Max(0, Min(e, b) - Max(s, a))
  }
}
