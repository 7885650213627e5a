/**
  The tables as the writer changes them: raw rows replaced one by one, maxima
  archived before a prune, hours backfilled at startup.  Every method carries
  out exactly the step that the runs of GpuRollupRuns are made of.
 */
module GpuRollupStore {
  import opened Common
  import opened GpuRollups
  import opened GpuRollupRuns

  // ---- the aggregates the statements ask for -----------------------------

  lemma {:induction false} MaxTotalRemove(rows: map<RawKey, Raw>, k: RawKey)
    requires k in rows
    ensures MaxTotal(rows) == MaxOption(MaxTotal(rows - {k}), rows[k].memoryTotal)
  {
    var j :| j in rows && MaxTotal(rows) == MaxOption(MaxTotal(rows - {j}), rows[j].memoryTotal);
    if j != k {
      MaxTotalRemove(rows - {j}, k);
      MaxTotalRemove(rows - {k}, j);
      assert rows - {j} - {k} == rows - {k} - {j};
      assert (rows - {j})[k] == rows[k] && (rows - {k})[j] == rows[j];
      MaxSwap(MaxTotal(rows - {j} - {k}), rows[k].memoryTotal, rows[j].memoryTotal);
    }
  }

  lemma MaxSwap(m: Option<nat>, a: Option<nat>, b: Option<nat>)
    ensures MaxOption(MaxOption(m, a), b) == MaxOption(MaxOption(m, b), a)
  {
  }

  /** max(memory_total_mib), in whatever order the rows come. */
  method MaxMemory(rows: map<RawKey, Raw>) returns (m: Option<nat>)
    ensures m == MaxTotal(rows)
  {
    m := None;
    var rest := rows;
    while rest != map[]
      invariant MaxOption(MaxTotal(rest), m) == MaxTotal(rows)
      decreases |rest|
    {
      var k :| k in rest;
      MaxTotalRemove(rest, k);
      m := MaxOption(rest[k].memoryTotal, m);
      rest := rest - {k};
    }
  }

  lemma FlaggedRemove(rows: map<RawKey, Raw>, busyPct: int, k: RawKey)
    requires k in rows
    ensures Flagged(rows, busyPct) - {k} == Flagged(rows - {k}, busyPct)
  {
  }

  lemma PlusZero(a: Sums)
    ensures a.Plus(Zero) == a == Zero.Plus(a)
  {
  }

  lemma PlusAssoc(a: Sums, b: Sums, c: Sums)
    ensures a.Plus(b).Plus(c) == a.Plus(c.Plus(b))
  {
  }

  lemma SumRowsStep(rest: map<RawKey, Raw>, busyPct: int, k: RawKey, s: Sums)
    requires k in rest
    ensures
      Sum(Flagged(rest, busyPct)).Plus(s) ==
      Sum(Flagged(rest - {k}, busyPct)).Plus(s.Plus(Weight(rest[k], BusyFlag(rest[k], busyPct))))
  {
    hide Sum, Weight, BusyFlag, Sums.Plus;
    var w := Weight(rest[k], BusyFlag(rest[k], busyPct));
    SumRemove(Flagged(rest, busyPct), k);
    FlaggedRemove(rest, busyPct, k);
    PlusAssoc(Sum(Flagged(rest - {k}, busyPct)), w, s);
  }

  lemma SumOfNone(busyPct: int)
    ensures Sum(Flagged(map[], busyPct)) == Zero
  {
  }

  /** count(*), count(...), sum(...) at the current busy threshold. */
  method SumRows(rows: map<RawKey, Raw>, busyPct: int) returns (s: Sums)
    ensures s == Sum(Flagged(rows, busyPct))
  {
    hide Weight, BusyFlag, Sum, Flagged, Sums.Plus;
    s := Zero;
    PlusZero(Sum(Flagged(rows, busyPct)));
    var rest := rows;
    while rest != map[]
      invariant Sum(Flagged(rest, busyPct)).Plus(s) == Sum(Flagged(rows, busyPct))
      decreases |rest|
    {
      var k :| k in rest;
      SumRowsStep(rest, busyPct, k, s);
      s := s.Plus(Weight(rest[k], BusyFlag(rest[k], busyPct)));
      rest := rest - {k};
    }
    SumOfNone(busyPct);
    PlusZero(s);
  }

  // ---- the tables --------------------------------------------------------

  class GpuStore {
    var history: map<RawKey, Raw>
    var busy: map<RawKey, int>
    var hourly: map<HourKey, Hourly>
    var retired: map<HourKey, Option<nat>>
    var cutoff: Option<int>

    function View(): Tables
      reads this
    {
      Tables(history, busy, hourly, retired, cutoff)
    }

    constructor ()
      ensures View() == Empty.t
    {
      history, busy, hourly, retired, cutoff := map[], map[], map[], map[], None;
    }

    /** The boundary never moves back when the clock does. */
    method GpuCutoff(wanted: int) returns (c: int)
      modifies `cutoff
      ensures View() == AdvanceCutoff(old(View()), wanted)
      ensures cutoff == Some(c) && c >= wanted && (old(cutoff).Some? ==> c >= old(cutoff).value)
    {
      if cutoff.None? {
        cutoff := Some(wanted);
      } else if cutoff.value < wanted {
        cutoff := Some(wanted);
      }
      c := cutoff.value;
    }

    method UpsertRollup(h: HourKey, w: Sums, memoryTotal: Option<nat>)
      modifies `hourly
      ensures View() == Upsert(old(View()), h, w, memoryTotal)
    {
      if h in hourly {
        var row := hourly[h];
        hourly := hourly[h := Hourly(row.sums.Plus(w), MaxCoalesced(row.memoryTotalMax, memoryTotal))];
      } else {
        hourly := hourly[h := Hourly(w, memoryTotal)];
      }
    }

    method WritePoint(host: string, p: Point, busyPct: Option<int>)
      modifies `history, `busy, `hourly
      ensures View() == GpuRollups.WritePoint(old(View()), host, p, busyPct)
    {
      var k := RawKey(Gpu(host, p.gpu), p.at);
      var h := HourOf(k);
      var replaced := k in history;
      var legacy := false;
      if replaced && busyPct.Some? {
        legacy := k !in busy;
        if !legacy && h in hourly {
          hourly := hourly[h := hourly[h].(sums := hourly[h].sums.Minus(Weight(history[k], busy[k])))];
        }
      }
      history := history[k := p.raw];
      if busyPct.None? || legacy {
        return;
      }
      var flag := BusyFlag(p.raw, busyPct.value);
      UpsertRollup(h, Weight(p.raw, flag), p.raw.memoryTotal);
      busy := busy[k := flag];
      if replaced {
        var kept := MaxMemory(In(history, h));
        hourly := hourly[h := hourly[h].(memoryTotalMax :=
          MaxOption(kept, if h in retired then retired[h] else None))];
      }
    }

    method WriteGpuPoints(host: string, points: seq<Point>, busyPct: Option<int>) returns (count: nat)
      modifies `history, `busy, `hourly
      ensures View() == WritePoints(old(View()), host, points, busyPct)
      ensures count == |points|
    {
      count := 0;
      while count < |points|
        invariant count <= |points|
        invariant View() == WritePoints(old(View()), host, points[..count], busyPct)
      {
        WritePoint(host, points[count], busyPct);
        assert points[..count + 1][..count] == points[..count];
        count := count + 1;
      }
      assert points[..count] == points;
    }

    method WriteRetained(writes: seq<HostPoints>, boundary: int, busyPct: int) returns (filtered: nat)
      modifies `history, `busy, `hourly
      ensures View() == WriteAll(old(View()), writes, boundary, busyPct)
      ensures filtered == Filtered(writes, boundary)
    {
      hide WritePoints, Retained;
      filtered := 0;
      for n := 0 to |writes|
        invariant View() == WriteAll(old(View()), writes[..n], boundary, busyPct)
        invariant filtered == Filtered(writes[..n], boundary)
      {
        var retained := Retained(writes[n].points, boundary);
        if retained != writes[n].points {
          filtered := filtered + 1;
        }
        var _ := WriteGpuPoints(writes[n].host, retained, Some(busyPct));
        assert writes[..n + 1][..n] == writes[..n];
      }
      assert writes[..|writes|] == writes;
    }

    /** The GPU part of one committed batch, and how many of its writes lost points to the boundary. */
    method CommitBatch(writes: seq<HostPoints>, now: int, retention: nat, busyPct: int) returns (filtered: nat)
      modifies this
      ensures View() == Apply(old(View()), Batch(writes, now, retention, busyPct))
      ensures filtered == if HasPoints(writes) then Filtered(writes, cutoff.GetOr(0)) else 0
    {
      hide WriteAll, Filtered;
      filtered := 0;
      if HasPoints(writes) {
        var boundary := GpuCutoff(now - retention * HOUR);
        filtered := WriteRetained(writes, boundary, busyPct);
      }
    }

    /** Archive the maxima of the expiring rows, then delete them. */
    method PruneGpu(boundary: int)
      modifies `history, `busy, `retired
      ensures View() == PruneRaw(old(View()), boundary)
    {
      var gone := map k | k in history && k.at < boundary :: history[k];
      history := map k | k in history && k.at >= boundary :: history[k];
      busy := map k | k in busy && k.at >= boundary :: busy[k];
      Retire(gone);
    }

    method Retire(gone: map<RawKey, Raw>)
      modifies `retired
      ensures retired == Archive(old(retired), gone, HoursOf(gone))
    {
      var left := HoursOf(gone);
      while left != {}
        invariant left <= HoursOf(gone)
        invariant retired == Archive(old(retired), gone, HoursOf(gone) - left)
        decreases |left|
      {
        var h :| h in left;
        var m := MaxMemory(In(gone, h));
        ArchiveStep(old(retired), gone, HoursOf(gone) - left, h);
        assert HoursOf(gone) - left + {h} == HoursOf(gone) - (left - {h});
        retired := retired[h := if h in retired then MaxCoalesced(retired[h], m) else m];
        left := left - {h};
      }
      assert HoursOf(gone) - left == HoursOf(gone);
    }

    method PruneRollups(hourCutoff: int)
      modifies `hourly, `retired
      ensures View() == PruneHours(old(View()), hourCutoff)
    {
      retired := map h | h in retired && h.hour * HOUR >= hourCutoff :: retired[h];
      hourly := map h | h in hourly && h.hour * HOUR >= hourCutoff :: hourly[h];
    }

    method PruneAll(now: int, retention: nat)
      modifies this
      ensures View() == Apply(old(View()), Retention(now, retention))
    {
      hide PruneRaw, PruneHours;
      var boundary := GpuCutoff(now - retention * HOUR);
      PruneGpu(boundary);
      PruneRollups(now - Max(retention, ROLLUP_RETENTION_HOURS) * HOUR);
    }

    /** The startup backfill: every raw hour without a row, from the newest row on, gets its aggregate. */
    method EnsureRollups(busyPct: int)
      modifies `hourly
      ensures View() == Apply(old(View()), Restart(busyPct))
    {
      var hours := set k | k in history && (forall h | h in hourly.Keys :: k.at >= h.hour * HOUR) :: HourOf(k);
      AggregateHours(hours, busyPct);
    }

    method AggregateHours(hours: set<HourKey>, busyPct: int)
      modifies `hourly
      ensures hourly == Aggregated(old(hourly), history, hours, busyPct)
    {
      hide Flagged, In, Aggregated;
      var left := hours;
      NothingAggregated(hourly, history, busyPct);
      assert hours - left == {};
      while left != {}
        invariant left <= hours
        invariant hourly == Aggregated(old(hourly), history, hours - left, busyPct)
        decreases |left|
      {
        var h :| h in left;
        AggregateNext(old(hourly), history, hours - left, busyPct, h);
        assert hours - (left - {h}) == hours - left + {h};
        if h !in hourly {
          var sums := SumRows(In(history, h), busyPct);
          var peak := MaxMemory(In(history, h));
          hourly := hourly[h := Hourly(sums, peak)];
        }
        left := left - {h};
      }
      assert hours - left == hours;
    }
  }

  lemma NothingAggregated(hourly: map<HourKey, Hourly>, history: map<RawKey, Raw>, busyPct: int)
    ensures Aggregated(hourly, history, {}, busyPct) == hourly
  {
  }

  lemma AggregateNext(
    hourly: map<HourKey, Hourly>, history: map<RawKey, Raw>, hours: set<HourKey>, busyPct: int, h: HourKey)
    requires h !in hours
    ensures
      var before := Aggregated(hourly, history, hours, busyPct);
      Aggregated(hourly, history, hours + {h}, busyPct) ==
      if h in before then before
      else before[h := Hourly(Sum(Flagged(In(history, h), busyPct)), MaxTotal(In(history, h)))]
  {
    hide Flagged, In;
  }

  lemma ArchiveStep(retired: map<HourKey, Option<nat>>, gone: map<RawKey, Raw>, hours: set<HourKey>, h: HourKey)
    requires h !in hours
    ensures
      var before := Archive(retired, gone, hours);
      var m := MaxTotal(In(gone, h));
      Archive(retired, gone, hours + {h}) == before[h := if h in before then MaxCoalesced(before[h], m) else m]
  {
  }
}
