/**
  Raw GPU samples, their hourly aggregates, and the boundary below which
  samples are gone for good.  The tables are maps by primary key; times are
  seconds and measurements exact integers.
 */
module GpuRollups {
  import opened Common

  const HOUR := 3600
  const ROLLUP_RETENTION_HOURS := 2160

  datatype Gpu = Gpu(host: string, id: string)
  datatype RawKey = RawKey(gpu: Gpu, at: int)
  datatype HourKey = HourKey(gpu: Gpu, hour: int)

  datatype Raw = Raw(utilization: Option<int>, memoryUsed: Option<int>, memoryTotal: Option<nat>)

  datatype Point = Point(gpu: string, at: int, raw: Raw)

  datatype Sums = Sums(
    samples: int,
    utilizationSamples: int,
    busySamples: int,
    utilizationSum: int,
    memorySamples: int,
    memoryUsedSum: int)
  {
    function Plus(o: Sums): Sums {
      Sums(samples + o.samples, utilizationSamples + o.utilizationSamples, busySamples + o.busySamples,
           utilizationSum + o.utilizationSum, memorySamples + o.memorySamples, memoryUsedSum + o.memoryUsedSum)
    }

    function Minus(o: Sums): Sums {
      Sums(samples - o.samples, utilizationSamples - o.utilizationSamples, busySamples - o.busySamples,
           utilizationSum - o.utilizationSum, memorySamples - o.memorySamples, memoryUsedSum - o.memoryUsedSum)
    }
  }

  const Zero := Sums(0, 0, 0, 0, 0, 0)

  datatype Hourly = Hourly(sums: Sums, memoryTotalMax: Option<nat>)

  datatype Tables = Tables(
    history: map<RawKey, Raw>,
    busy: map<RawKey, int>,
    hourly: map<HourKey, Hourly>,
    retired: map<HourKey, Option<nat>>,
    cutoff: Option<int>)

  function HourOf(k: RawKey): HourKey {
    HourKey(k.gpu, k.at / HOUR)
  }

  function BusyFlag(raw: Raw, busyPct: int): int {
    if raw.utilization.Some? && raw.utilization.value >= busyPct then 1 else 0
  }

  /** What one sample adds to its hour, given the busy flag it was stored with. */
  function Weight(raw: Raw, busy: int): Sums {
    Sums(1, if raw.utilization.Some? then 1 else 0, busy, raw.utilization.GetOr(0),
         if raw.memoryUsed.Some? then 1 else 0, raw.memoryUsed.GetOr(0))
  }

  /** coalesce(x, 0) */
  function Coalesce(x: Option<nat>): nat {
    x.GetOr(0)
  }

  function MaxCoalesced(a: Option<nat>, b: Option<nat>): Option<nat> {
    Some(Max(Coalesce(a), Coalesce(b)))
  }

  /** max() over two values, nulls ignored. */
  function MaxOption(a: Option<nat>, b: Option<nat>): Option<nat> {
    if a.None? then b else if b.None? then a else Some(Max(a.value, b.value))
  }

  // ---- aggregates over a table -------------------------------------------

  /** The rows of one hour. */
  function In<V>(m: map<RawKey, V>, h: HourKey): map<RawKey, V> {
    map k | k in m && HourOf(k) == h :: m[k]
  }

  /** `r` is the greatest memory total of these rows, null read as 0. */
  ghost predicate IsPeak(rows: map<RawKey, Raw>, r: nat) {
    && (forall k :: k in rows ==> Coalesce(rows[k].memoryTotal) <= r)
    && (r == 0 || exists k :: k in rows && Coalesce(rows[k].memoryTotal) == r)
  }

  /** max(memory_total_mib) over rows: null when there is none. */
  ghost function MaxTotal(rows: map<RawKey, Raw>): (m: Option<nat>)
    ensures IsPeak(rows, Coalesce(m))
  {
    if rows == map[] then None
    else
      var k :| k in rows;
      var rest := MaxTotal(rows - {k});
      var m := MaxOption(rest, rows[k].memoryTotal);
      assert forall j :: j in rows ==> j == k || j in rows - {k};
      m
  }

  // ---- the statements ----------------------------------------------------

  function AdvanceCutoff(t: Tables, cutoff: int): Tables {
    t.(cutoff := Some(if t.cutoff.Some? then Max(t.cutoff.value, cutoff) else cutoff))
  }

  /** The maxima of the expiring rows of these hours join the retired ones. */
  ghost function Archive(
    retired: map<HourKey, Option<nat>>, gone: map<RawKey, Raw>, hours: set<HourKey>): map<HourKey, Option<nat>>
  {
    map h | h in retired.Keys + hours ::
      if h !in hours then retired[h]
      else if h in retired then MaxCoalesced(retired[h], MaxTotal(In(gone, h)))
      else MaxTotal(In(gone, h))
  }

  function HoursOf(rows: map<RawKey, Raw>): set<HourKey> {
    set k | k in rows :: HourOf(k)
  }

  /** Delete the raw rows before the boundary, keeping their maxima by hour. */
  ghost function PruneRaw(t: Tables, cutoff: int): Tables {
    var gone := map k | k in t.history && k.at < cutoff :: t.history[k];
    t.(history := map k | k in t.history && k.at >= cutoff :: t.history[k],
       busy := map k | k in t.busy && k.at >= cutoff :: t.busy[k],
       retired := Archive(t.retired, gone, HoursOf(gone)))
  }

  function Upsert(t: Tables, h: HourKey, w: Sums, memoryTotal: Option<nat>): Tables {
    t.(hourly := t.hourly[h :=
      if h in t.hourly
      then Hourly(t.hourly[h].sums.Plus(w), MaxCoalesced(t.hourly[h].memoryTotalMax, memoryTotal))
      else Hourly(w, memoryTotal)])
  }

  /** Take the contribution of a replaced sample out of its hour. */
  function Subtract(t: Tables, h: HourKey, w: Sums): Tables {
    if h in t.hourly then t.(hourly := t.hourly[h := t.hourly[h].(sums := t.hourly[h].sums.Minus(w))]) else t
  }

  /** Recompute a maximum from the retained rows and the expired maximum. */
  ghost function Remax(t: Tables, h: HourKey): Tables {
    if h in t.hourly then
      t.(hourly := t.hourly[h := t.hourly[h].(memoryTotalMax :=
        MaxOption(MaxTotal(In(t.history, h)), if h in t.retired then t.retired[h] else None))])
    else t
  }

  /** One point: raw row replaced or inserted, aggregate adjusted. */
  ghost function WritePoint(t: Tables, host: string, p: Point, busyPct: Option<int>): Tables {
    var k := RawKey(Gpu(host, p.gpu), p.at);
    var h := HourOf(k);
    var replaced := k in t.history;
    var legacy := replaced && busyPct.Some? && k !in t.busy;
    var t1 := if replaced && busyPct.Some? && !legacy then Subtract(t, h, Weight(t.history[k], t.busy[k])) else t;
    var t2 := t1.(history := t1.history[k := p.raw]);
    if busyPct.None? || legacy then t2
    else
      var flag := BusyFlag(p.raw, busyPct.value);
      var t3 := Upsert(t2, h, Weight(p.raw, flag), p.raw.memoryTotal).(busy := t2.busy[k := flag]);
      if replaced then Remax(t3, h) else t3
  }

  ghost function WritePoints(t: Tables, host: string, points: seq<Point>, busyPct: Option<int>): Tables {
    if points == [] then t
    else WritePoint(WritePoints(t, host, points[..|points| - 1], busyPct), host, points[|points| - 1], busyPct)
  }

  /** Points at or above the boundary. */
  function Retained(points: seq<Point>, cutoff: int): (r: seq<Point>)
    ensures forall p :: p in r <==> p in points && p.at >= cutoff
  {
    if points == [] then []
    else Retained(points[..|points| - 1], cutoff)
         + if points[|points| - 1].at >= cutoff then [points[|points| - 1]] else []
  }

  lemma RetainedSnoc(points: seq<Point>, last: Point, cutoff: int)
    ensures Retained(points + [last], cutoff) == Retained(points, cutoff) + if last.at >= cutoff then [last] else []
  {
    assert (points + [last])[..|points|] == points;
  }

  /** Retained points keep their order. */
  lemma {:induction false} RetainedInOrder(points: seq<Point>, more: seq<Point>, cutoff: int)
    ensures Retained(points + more, cutoff) == Retained(points, cutoff) + Retained(more, cutoff)
  {
    hide Retained;
    if more == [] {
      assert points + more == points;
      NothingRetained(Retained(points, cutoff), cutoff);
    } else {
      var past, last := more[..|more| - 1], more[|more| - 1];
      RetainedInOrder(points, past, cutoff);
      assert more == past + [last] && points + more == points + past + [last];
      RetainedSnoc(past, last, cutoff);
      RetainedSnoc(points + past, last, cutoff);
    }
  }

  lemma NothingRetained(kept: seq<Point>, cutoff: int)
    ensures kept + Retained([], cutoff) == kept
  {
  }

  /** ... and their number. */
  lemma {:induction false} RetainedCount(points: seq<Point>, cutoff: int, p: Point)
    ensures multiset(Retained(points, cutoff))[p] == if p.at >= cutoff then multiset(points)[p] else 0
  {
    if points != [] {
      var past, last := points[..|points| - 1], points[|points| - 1];
      RetainedCount(past, cutoff, p);
      assert points == past + [last];
      RetainedSnoc(past, last, cutoff);
      hide Retained;
    }
  }

  /** The hours the startup backfill adds: those with raw rows from the latest rolled-up hour on
      and no aggregate yet. */
  ghost function Missing(t: Tables): set<HourKey> {
    set k | k in t.history && (forall h :: h in t.hourly ==> k.at >= h.hour * HOUR) && HourOf(k) !in t.hourly ::
        HourOf(k)
  }

  /** Aggregates older than the long retention go. */
  function PruneHours(t: Tables, hourCutoff: int): Tables {
    t.(hourly := map h | h in t.hourly && h.hour * HOUR >= hourCutoff :: t.hourly[h],
       retired := map h | h in t.retired && h.hour * HOUR >= hourCutoff :: t.retired[h])
  }

  /** One retention run at wall-clock time `now`. */
  ghost function Prune(t: Tables, now: int, retention: nat): Tables {
    var t1 := AdvanceCutoff(t, now - retention * HOUR);
    PruneHours(PruneRaw(t1, t1.cutoff.value), now - Max(retention, ROLLUP_RETENTION_HOURS) * HOUR)
  }

  datatype HostPoints = HostPoints(host: string, points: seq<Point>)

  predicate HasPoints(writes: seq<HostPoints>) {
    exists i :: 0 <= i < |writes| && writes[i].points != []
  }

  /** The writes of a batch that lose a point to the boundary. */
  function Filtered(writes: seq<HostPoints>, cutoff: int): nat {
    if writes == [] then 0
    else
      var last := writes[|writes| - 1];
      Filtered(writes[..|writes| - 1], cutoff) + if Retained(last.points, cutoff) != last.points then 1 else 0
  }

  ghost function WriteAll(t: Tables, writes: seq<HostPoints>, cutoff: int, busyPct: int): Tables {
    if writes == [] then t
    else
      var last := writes[|writes| - 1];
      WritePoints(WriteAll(t, writes[..|writes| - 1], cutoff, busyPct), last.host, Retained(last.points, cutoff),
                  Some(busyPct))
  }

  /** One committed batch: the boundary moves first, then only retained points are written. */
  ghost function WriteBatch(t: Tables, writes: seq<HostPoints>, now: int, retention: nat, busyPct: int): Tables {
    if HasPoints(writes) then
      var t1 := AdvanceCutoff(t, now - retention * HOUR);
      WriteAll(t1, writes, t1.cutoff.value, busyPct)
    else t
  }
}
