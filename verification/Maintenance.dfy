/**
  Recurring maintenance windows: a window covers the instants S + kP up to
  S + kP + D for every integer k, and the end it reports is the next one.
 */
module Maintenance {
  import opened Common

  const MINUTE := 60
  const DAY := 86400

  /** The weekday of instant 0, with Monday as 0. */
  const EPOCH_WEEKDAY := 3

  datatype Recurrence = Daily | Weekly(weekday: nat)

  datatype Window =
    | Until(until: int)
    | Recurring(recurrence: Recurrence, startMinutes: nat, durationMinutes: nat)

  /** What the configuration admits: the duration stays below the period. */
  predicate Admitted(w: Window) {
    w.Recurring? ==>
      && w.startMinutes < 1440
      && 1 <= w.durationMinutes <= (if w.recurrence.Daily? then 1439 else 10079)
      && (w.recurrence.Weekly? ==> w.recurrence.weekday <= 6)
  }

  function Period(r: Recurrence): int {
    if r.Daily? then DAY else 7 * DAY
  }

  function Weekday(day: int): int {
    (day + EPOCH_WEEKDAY) % 7
  }

  /** By `EndIsNext` the least instance end after `now`. */
  function InstanceEnd(w: Window, now: int): int
    requires w.Recurring?
  {
    var day := now / DAY;
    var daysBack := if w.recurrence.Daily? then 0 else (Weekday(day) - w.recurrence.weekday) % 7;
    var candidate := (day - daysBack) * DAY + w.startMinutes * MINUTE;
    var start := if candidate > now then candidate - Period(w.recurrence) else candidate;
    var end := start + w.durationMinutes * MINUTE;
    if end <= now then start + Period(w.recurrence) + w.durationMinutes * MINUTE else end
  }

  function IsActive(w: Window, now: int): bool {
    match w
    case Until(until) => until > now
    case Recurring(_, _, duration) =>
      InstanceEnd(w, now) - duration * MINUTE <= now < InstanceEnd(w, now)
  }

  // ---- what a window means -----------------------------------------------

  /** The start of instance k. */
  function Start(w: Window, k: int): int
    requires w.Recurring?
  {
    k * Period(w.recurrence) + w.startMinutes * MINUTE
    + if w.recurrence.Daily? then 0 else (w.recurrence.weekday - EPOCH_WEEKDAY) * DAY
  }

  function End(w: Window, k: int): int
    requires w.Recurring?
  {
    Start(w, k) + w.durationMinutes * MINUTE
  }

  ghost predicate Covered(w: Window, now: int) {
    match w
    case Until(until) => now < until
    case Recurring(_, _, _) => exists k :: Start(w, k) <= now < End(w, k)
  }

  /** A weekday of an instance falls on its configured weekday, at its configured time. */
  lemma StartsWhenConfigured(w: Window, k: int)
    requires Admitted(w) && w.Recurring?
    ensures Start(w, k) % DAY == w.startMinutes * MINUTE
    ensures w.recurrence.Weekly? ==> Weekday(Start(w, k) / DAY) == w.recurrence.weekday
  {
    if w.recurrence.Weekly? {
      var day := 7 * k + w.recurrence.weekday - EPOCH_WEEKDAY;
      assert Start(w, k) == day * DAY + w.startMinutes * MINUTE;
      SplitDay(day, w.startMinutes * MINUTE);
    } else {
      SplitDay(k, w.startMinutes * MINUTE);
    }
  }

  lemma SplitDay(day: int, seconds: int)
    requires 0 <= seconds < DAY
    ensures (day * DAY + seconds) / DAY == day && (day * DAY + seconds) % DAY == seconds
  {
  }

  /** The instance whose period contains `now`. */
  lemma CurrentInstance(w: Window, now: int) returns (k: int)
    requires Admitted(w) && w.Recurring?
    ensures Start(w, k) <= now < Start(w, k) + Period(w.recurrence)
    ensures InstanceEnd(w, now) == if End(w, k) <= now then End(w, k + 1) else End(w, k)
  {
    var day := now / DAY;
    var daysBack := if w.recurrence.Daily? then 0 else (Weekday(day) - w.recurrence.weekday) % 7;
    var candidate := (day - daysBack) * DAY + w.startMinutes * MINUTE;
    assert day * DAY <= now < day * DAY + DAY;
    if w.recurrence.Daily? {
      k := if candidate > now then day - 1 else day;
    } else {
      var weeks := (day - daysBack - w.recurrence.weekday + EPOCH_WEEKDAY) / 7;
      WholeWeeks(day, w.recurrence.weekday);
      assert Start(w, weeks) == candidate;
      k := if candidate > now then weeks - 1 else weeks;
    }
  }

  lemma WholeWeeks(day: int, weekday: nat)
    requires weekday <= 6
    ensures
      var back := (Weekday(day) - weekday) % 7;
      0 <= back <= 6 && (day - back - weekday + EPOCH_WEEKDAY) % 7 == 0
  {
  }

  lemma Ascending(w: Window, i: int, j: int)
    requires w.Recurring? && i <= j
    ensures Start(w, i) + (j - i) * Period(w.recurrence) == Start(w, j)
    ensures i < j ==> Start(w, i) + Period(w.recurrence) <= Start(w, j)
  {
    var p := Period(w.recurrence);
    assert j * p == i * p + (j - i) * p;
    if i < j {
      assert (j - i) * p >= p;
    }
  }

  /** A window is active exactly at the instants one of its instances covers. */
  lemma ActiveIffCovered(w: Window, now: int)
    requires Admitted(w)
    ensures IsActive(w, now) <==> Covered(w, now)
  {
    if w.Recurring? {
      var k := CurrentInstance(w, now);
      Ascending(w, k, k + 1);
      if Covered(w, now) {
        var j :| Start(w, j) <= now < End(w, j);
        if j < k {
          Ascending(w, j, k);
        } else if k < j {
          Ascending(w, k, j);
        }
        assert j == k;
      }
      if IsActive(w, now) {
        assert Start(w, k) <= now < End(w, k);
      }
    }
  }

  /** The reported end is the least end of an instance that is still to come. */
  lemma EndIsNext(w: Window, now: int)
    requires Admitted(w) && w.Recurring?
    ensures InstanceEnd(w, now) > now
    ensures exists k :: InstanceEnd(w, now) == End(w, k)
    ensures forall k :: End(w, k) > now ==> InstanceEnd(w, now) <= End(w, k)
  {
    var c := CurrentInstance(w, now);
    Ascending(w, c, c + 1);
    var next := if End(w, c) <= now then c + 1 else c;
    assert InstanceEnd(w, now) == End(w, next);
    forall k | End(w, k) > now ensures InstanceEnd(w, now) <= End(w, k) {
      if k < next {
        Ascending(w, k, c);
        if k < c {
          Ascending(w, k, c);
        }
      } else {
        Ascending(w, next, k);
      }
    }
  }

  /** Instances never overlap. */
  lemma InstancesApart(w: Window, i: int, j: int)
    requires Admitted(w) && w.Recurring? && i < j
    ensures End(w, i) < Start(w, j)
  {
    Ascending(w, i, j);
  }
}
