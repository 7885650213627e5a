/**
  Rollup exactness over whole runs: whatever batches, replacements, prunes and
  clock moves come, every hourly row is the aggregate of the last admitted
  value of every sample ever admitted in its hour, each counted once.
 */
module GpuRollupRuns {
  import opened Common
  import opened GpuRollups

  /** A sample as it was last admitted, with the busy flag stored for it. */
  datatype Admitted = Admitted(raw: Raw, busy: int)

  /** The tables, every sample ever admitted, and the hours the long retention has let go. */
  datatype World = World(t: Tables, admitted: map<RawKey, Admitted>, dropped: set<HourKey>)

  function RawsOf(m: map<RawKey, Admitted>): map<RawKey, Raw> {
    map k | k in m :: m[k].raw
  }

  // ---- sums --------------------------------------------------------------

  ghost function Sum(m: map<RawKey, Admitted>): Sums {
    if m == map[] then Zero
    else
      var k :| k in m;
      Sum(m - {k}).Plus(Weight(m[k].raw, m[k].busy))
  }

  lemma {:induction false} SumRemove(m: map<RawKey, Admitted>, k: RawKey)
    requires k in m
    ensures Sum(m) == Sum(m - {k}).Plus(Weight(m[k].raw, m[k].busy))
  {
    var j :| j in m && Sum(m) == Sum(m - {j}).Plus(Weight(m[j].raw, m[j].busy));
    if j != k {
      SumRemove(m - {j}, k);
      SumRemove(m - {k}, j);
      var least := m - {j} - {k};
      assert least == m - {k} - {j};
      assert (m - {j})[k] == m[k] && (m - {k})[j] == m[j];
      PlusSwap(Sum(least), Weight(m[k].raw, m[k].busy), Weight(m[j].raw, m[j].busy));
    }
  }

  lemma PlusSwap(s: Sums, a: Sums, b: Sums)
    ensures s.Plus(a).Plus(b) == s.Plus(b).Plus(a)
  {
  }

  lemma SumStore(m: map<RawKey, Admitted>, k: RawKey, a: Admitted)
    ensures Sum(m[k := a]) ==
      (if k in m then Sum(m).Minus(Weight(m[k].raw, m[k].busy)) else Sum(m)).Plus(Weight(a.raw, a.busy))
  {
    SumRemove(m[k := a], k);
    assert m[k := a] - {k} == m - {k};
    if k in m {
      SumRemove(m, k);
    } else {
      assert m - {k} == m;
    }
  }

  // ---- peaks -------------------------------------------------------------

  lemma PeakUnion(a: map<RawKey, Raw>, b: map<RawKey, Raw>, all: map<RawKey, Raw>, ra: nat, rb: nat)
    requires IsPeak(a, ra) && IsPeak(b, rb)
    requires all.Keys == a.Keys + b.Keys
    requires forall k :: k in a ==> all[k] == a[k]
    requires forall k :: k in b ==> all[k] == b[k]
    ensures IsPeak(all, Max(ra, rb))
  {
  }

  lemma PeakOne(k: RawKey, raw: Raw)
    ensures IsPeak(map[k := raw], Coalesce(raw.memoryTotal))
  {
    assert k in map[k := raw];
  }

  // ---- the invariant -----------------------------------------------------

  ghost predicate Agrees(admitted: map<RawKey, Admitted>, history: map<RawKey, Raw>, busy: map<RawKey, int>) {
    && busy.Keys == history.Keys <= admitted.Keys
    && forall k :: k in history ==> admitted[k] == Admitted(history[k], busy[k])
  }

  /** What is no longer in the raw table lies below the boundary. */
  ghost predicate GoneIsExpired(admitted: map<RawKey, Admitted>, history: map<RawKey, Raw>, cutoff: Option<int>) {
    forall k :: k in admitted && k !in history ==> cutoff.Some? && k.at < cutoff.value
  }

  ghost predicate DroppedIsClosed(dropped: set<HourKey>, cutoff: Option<int>) {
    forall h :: h in dropped ==> cutoff.Some? && (h.hour + 1) * HOUR <= cutoff.value
  }

  /** An hour is let go only once its last raw row is gone. */
  ghost predicate RawIsOpen(history: map<RawKey, Raw>, dropped: set<HourKey>) {
    forall k :: k in history ==> HourOf(k) !in dropped
  }

  ghost predicate HourAdmitted(m: map<RawKey, Admitted>, h: HourKey) {
    exists k :: k in m && HourOf(k) == h
  }

  ghost predicate HoursKnown(hourly: map<HourKey, Hourly>, admitted: map<RawKey, Admitted>, dropped: set<HourKey>) {
    forall h :: h in hourly <==> HourAdmitted(admitted, h) && h !in dropped
  }

  ghost predicate SumsExact(hourly: map<HourKey, Hourly>, admitted: map<RawKey, Admitted>) {
    forall h :: h in hourly ==> hourly[h].sums == Sum(In(admitted, h))
  }

  ghost predicate PeakExact(row: Hourly, admitted: map<RawKey, Admitted>, h: HourKey) {
    IsPeak(RawsOf(In(admitted, h)), Coalesce(row.memoryTotalMax))
  }

  ghost predicate PeaksExact(hourly: map<HourKey, Hourly>, admitted: map<RawKey, Admitted>) {
    forall h :: h in hourly ==> PeakExact(hourly[h], admitted, h)
  }

  function RetiredPeak(retired: map<HourKey, Option<nat>>, h: HourKey): Option<nat> {
    if h in retired then retired[h] else None
  }

  /** The samples that retention has deleted. */
  function Expired(admitted: map<RawKey, Admitted>, history: map<RawKey, Raw>): map<RawKey, Raw> {
    RawsOf(admitted - history.Keys)
  }

  /** The expired maxima of every hour still kept. */
  ghost predicate RetiredExact(
    expired: map<RawKey, Raw>, retired: map<HourKey, Option<nat>>, dropped: set<HourKey>)
  {
    forall h :: h !in dropped ==> IsPeak(In(expired, h), Coalesce(RetiredPeak(retired, h)))
  }

  ghost predicate Exact(w: World) {
    && Agrees(w.admitted, w.t.history, w.t.busy)
    && GoneIsExpired(w.admitted, w.t.history, w.t.cutoff)
    && DroppedIsClosed(w.dropped, w.t.cutoff)
    && RawIsOpen(w.t.history, w.dropped)
    && HoursKnown(w.t.hourly, w.admitted, w.dropped)
    && SumsExact(w.t.hourly, w.admitted)
    && PeaksExact(w.t.hourly, w.admitted)
    && RetiredExact(Expired(w.admitted, w.t.history), w.t.retired, w.dropped)
  }

  // ---- admitting a point -------------------------------------------------

  function KeyOf(host: string, p: Point): RawKey {
    RawKey(Gpu(host, p.gpu), p.at)
  }

  function ValueOf(p: Point, busyPct: int): Admitted {
    Admitted(p.raw, BusyFlag(p.raw, busyPct))
  }

  ghost function Admit(w: World, host: string, p: Point, busyPct: int): World {
    w.(t := WritePoint(w.t, host, p, Some(busyPct)), admitted := w.admitted[KeyOf(host, p) := ValueOf(p, busyPct)])
  }

  ghost predicate Admissible(w: World, p: Point) {
    w.t.cutoff.Some? && p.at >= w.t.cutoff.value
  }

  lemma InStore<V>(m: map<RawKey, V>, k: RawKey, v: V, h: HourKey)
    ensures In(m[k := v], h) == if HourOf(k) == h then In(m, h)[k := v] else In(m, h)
  {
  }

  /** An admissible point is in the raw table or was never admitted, and its hour is open. */
  lemma AdmissibleKey(w: World, host: string, p: Point)
    requires Exact(w) && Admissible(w, p)
    ensures
      var k := KeyOf(host, p);
      && (k in w.admitted <==> k in w.t.history)
      && HourOf(k) !in w.dropped
      && (k in w.t.history ==> HourOf(k) in w.t.hourly && k in w.t.busy)
  {
  }

  /** What one point does to the tables when its sample is new or its busy flag is stored. */
  lemma WriteEffect(t: Tables, host: string, p: Point, busyPct: int)
    requires
      var k := KeyOf(host, p);
      k in t.history ==> HourOf(k) in t.hourly && k in t.busy
    ensures
      var k := KeyOf(host, p);
      var h := HourOf(k);
      var flag := BusyFlag(p.raw, busyPct);
      var u := WritePoint(t, host, p, Some(busyPct));
      && u.history == t.history[k := p.raw]
      && u.busy == t.busy[k := flag]
      && u.retired == t.retired && u.cutoff == t.cutoff
      && u.hourly.Keys == t.hourly.Keys + {h}
      && (forall o :: o in t.hourly && o != h ==> u.hourly[o] == t.hourly[o])
      && u.hourly[h].sums ==
           (if k in t.history then t.hourly[h].sums.Minus(Weight(t.history[k], t.busy[k]))
            else if h in t.hourly then t.hourly[h].sums else Zero).Plus(Weight(p.raw, flag))
      && u.hourly[h].memoryTotalMax ==
           (if k in t.history then
              MaxOption(MaxTotal(In(u.history, h)), if h in t.retired then t.retired[h] else None)
            else if h in t.hourly then MaxCoalesced(t.hourly[h].memoryTotalMax, p.raw.memoryTotal)
            else p.raw.memoryTotal)
  {
    hide In, MaxTotal, MaxOption, MaxCoalesced, BusyFlag, Weight;
  }

  lemma StoreAgrees(
    admitted: map<RawKey, Admitted>, history: map<RawKey, Raw>, busy: map<RawKey, int>, k: RawKey, a: Admitted)
    requires Agrees(admitted, history, busy)
    ensures Agrees(admitted[k := a], history[k := a.raw], busy[k := a.busy])
  {
  }

  lemma StoreGone(
    admitted: map<RawKey, Admitted>, history: map<RawKey, Raw>, cutoff: Option<int>, k: RawKey, a: Admitted)
    requires GoneIsExpired(admitted, history, cutoff)
    ensures GoneIsExpired(admitted[k := a], history[k := a.raw], cutoff)
  {
  }

  lemma StoreOpen(history: map<RawKey, Raw>, dropped: set<HourKey>, k: RawKey, raw: Raw)
    requires RawIsOpen(history, dropped) && HourOf(k) !in dropped
    ensures RawIsOpen(history[k := raw], dropped)
  {
  }

  lemma StoreExpired(admitted: map<RawKey, Admitted>, history: map<RawKey, Raw>, k: RawKey, a: Admitted)
    requires k in admitted <==> k in history
    ensures Expired(admitted[k := a], history[k := a.raw]) == Expired(admitted, history)
  {
  }

  lemma StoreHours(
    hourly: map<HourKey, Hourly>, next: map<HourKey, Hourly>, admitted: map<RawKey, Admitted>, dropped: set<HourKey>,
    k: RawKey, a: Admitted)
    requires HoursKnown(hourly, admitted, dropped) && HourOf(k) !in dropped
    requires next.Keys == hourly.Keys + {HourOf(k)}
    ensures HoursKnown(next, admitted[k := a], dropped)
  {
  }

  lemma NothingAdmitted(m: map<RawKey, Admitted>, h: HourKey)
    requires !HourAdmitted(m, h)
    ensures In(m, h) == map[]
  {
  }

  lemma AdmitSums(w: World, host: string, p: Point, busyPct: int)
    requires Exact(w) && Admissible(w, p)
    ensures
      var next := Admit(w, host, p, busyPct);
      SumsExact(next.t.hourly, next.admitted)
  {
    AdmissibleKey(w, host, p);
    WriteEffect(w.t, host, p, busyPct);
    hide PeaksExact, RetiredExact, GoneIsExpired, DroppedIsClosed, WritePoint;
    var k := KeyOf(host, p);
    var a := ValueOf(p, busyPct);
    var next := Admit(w, host, p, busyPct);
    forall h | h in next.t.hourly ensures next.t.hourly[h].sums == Sum(In(next.admitted, h)) {
      InStore(w.admitted, k, a, h);
      if h == HourOf(k) {
        SumStore(In(w.admitted, h), k, a);
        if h !in w.t.hourly {
          NothingAdmitted(w.admitted, h);
        }
      }
    }
  }

  /** A replaced sample: the maximum is taken again, over the retained and the expired rows. */
  lemma ReplacePeak(
    admitted: map<RawKey, Admitted>, history: map<RawKey, Raw>, busy: map<RawKey, int>,
    retired: map<HourKey, Option<nat>>, h: HourKey)
    requires Agrees(admitted, history, busy)
    requires IsPeak(In(Expired(admitted, history), h), Coalesce(RetiredPeak(retired, h)))
    ensures IsPeak(RawsOf(In(admitted, h)), Coalesce(MaxOption(MaxTotal(In(history, h)), RetiredPeak(retired, h))))
  {
    var kept := In(history, h);
    var a := MaxTotal(kept);
    PeakUnion(kept, In(Expired(admitted, history), h), RawsOf(In(admitted, h)),
              Coalesce(a), Coalesce(RetiredPeak(retired, h)));
  }

  /** A new sample: the maximum is raised to it. */
  lemma InsertPeak(m: map<RawKey, Admitted>, k: RawKey, a: Admitted, r: nat)
    requires k !in m && IsPeak(RawsOf(In(m, HourOf(k))), r)
    ensures IsPeak(RawsOf(In(m[k := a], HourOf(k))), Max(r, Coalesce(a.raw.memoryTotal)))
  {
    var h := HourOf(k);
    PeakOne(k, a.raw);
    PeakUnion(RawsOf(In(m, h)), map[k := a.raw], RawsOf(In(m[k := a], h)), r, Coalesce(a.raw.memoryTotal));
  }

  lemma AdmitPeakHere(w: World, host: string, p: Point, busyPct: int)
    requires Exact(w) && Admissible(w, p)
    ensures
      var h := HourOf(KeyOf(host, p));
      var next := Admit(w, host, p, busyPct);
      h in next.t.hourly && PeakExact(next.t.hourly[h], next.admitted, h)
  {
    AdmissibleKey(w, host, p);
    WriteEffect(w.t, host, p, busyPct);
    var k := KeyOf(host, p);
    var h := HourOf(k);
    var a := ValueOf(p, busyPct);
    if k in w.t.history {
      StoreAgrees(w.admitted, w.t.history, w.t.busy, k, a);
      StoreExpired(w.admitted, w.t.history, k, a);
      ReplacePeak(w.admitted[k := a], w.t.history[k := p.raw], w.t.busy[k := a.busy], w.t.retired, h);
    } else if h in w.t.hourly {
      assert PeakExact(w.t.hourly[h], w.admitted, h);
      InsertPeak(w.admitted, k, a, Coalesce(w.t.hourly[h].memoryTotalMax));
    } else {
      NothingAdmitted(w.admitted, h);
      InsertPeak(w.admitted, k, a, 0);
    }
    hide WritePoint, Agrees, GoneIsExpired, DroppedIsClosed, SumsExact, IsPeak, MaxTotal, In, RawsOf, HoursKnown;
    hide MaxOption, Weight, BusyFlag, Expired;
  }

  lemma AdmitPeaks(w: World, host: string, p: Point, busyPct: int)
    requires Exact(w) && Admissible(w, p)
    ensures
      var next := Admit(w, host, p, busyPct);
      PeaksExact(next.t.hourly, next.admitted)
  {
    AdmitPeakHere(w, host, p, busyPct);
    WriteEffect(w.t, host, p, busyPct) by { AdmissibleKey(w, host, p); }
    var k := KeyOf(host, p);
    var a := ValueOf(p, busyPct);
    var next := Admit(w, host, p, busyPct);
    forall h | h in next.t.hourly ensures PeakExact(next.t.hourly[h], next.admitted, h) {
      if h != HourOf(k) {
        InStore(w.admitted, k, a, h);
        assert PeakExact(w.t.hourly[h], w.admitted, h);
      }
    }
    hide WritePoint, IsPeak, In, RawsOf, KeyOf, MaxTotal, Weight, MaxOption, Agrees, GoneIsExpired, DroppedIsClosed;
    hide HoursKnown, SumsExact, RetiredExact;
  }

  lemma AdmitExact(w: World, host: string, p: Point, busyPct: int)
    requires Exact(w) && Admissible(w, p)
    ensures Exact(Admit(w, host, p, busyPct))
  {
    hide Agrees, GoneIsExpired, DroppedIsClosed, HoursKnown, SumsExact, PeaksExact, RetiredExact, WritePoint, Expired;
    hide RawIsOpen, In, MaxTotal, MaxOption, Weight, BusyFlag, KeyOf;
    AdmissibleKey(w, host, p);
    WriteEffect(w.t, host, p, busyPct);
    var k := KeyOf(host, p);
    var a := ValueOf(p, busyPct);
    StoreAgrees(w.admitted, w.t.history, w.t.busy, k, a);
    StoreGone(w.admitted, w.t.history, w.t.cutoff, k, a);
    StoreOpen(w.t.history, w.dropped, k, p.raw);
    StoreExpired(w.admitted, w.t.history, k, a);
    StoreHours(w.t.hourly, Admit(w, host, p, busyPct).t.hourly, w.admitted, w.dropped, k, a);
    AdmitSums(w, host, p, busyPct);
    AdmitPeaks(w, host, p, busyPct);
  }

  // ---- admitting a batch -------------------------------------------------

  /** A sample that was admitted and has been deleted by retention. */
  predicate Gone(w: World, k: RawKey) {
    k in w.admitted && k !in w.t.history
  }

  /** Deleted samples stay deleted and keep their last admitted value. */
  ghost predicate StaysGone(w: World, next: World) {
    forall k :: Gone(w, k) ==> Gone(next, k) && next.admitted[k] == w.admitted[k]
  }

  ghost function AdmitPoints(w: World, host: string, points: seq<Point>, busyPct: int): World {
    if points == [] then w
    else Admit(AdmitPoints(w, host, points[..|points| - 1], busyPct), host, points[|points| - 1], busyPct)
  }

  ghost function AdmitAll(w: World, writes: seq<HostPoints>, cutoff: int, busyPct: int): World {
    if writes == [] then w
    else
      var last := writes[|writes| - 1];
      AdmitPoints(AdmitAll(w, writes[..|writes| - 1], cutoff, busyPct), last.host, Retained(last.points, cutoff),
          busyPct)
  }

  lemma ExactGone(w: World)
    requires Exact(w)
    ensures GoneIsExpired(w.admitted, w.t.history, w.t.cutoff)
  {
  }

  lemma AdmitKeepsGone(w: World, host: string, p: Point, busyPct: int)
    requires Exact(w) && Admissible(w, p)
    ensures Admit(w, host, p, busyPct).t.cutoff == w.t.cutoff
    ensures StaysGone(w, Admit(w, host, p, busyPct))
  {
    hide Exact, WritePoint, MaxTotal, In, Weight, MaxOption, BusyFlag;
    AdmissibleKey(w, host, p);
    WriteEffect(w.t, host, p, busyPct);
    ExactGone(w);
    var next := Admit(w, host, p, busyPct);
    assert next.t.history == w.t.history[KeyOf(host, p) := p.raw];
  }

  lemma AdmitTables(w: World, host: string, p: Point, busyPct: int)
    ensures Admit(w, host, p, busyPct).t == WritePoint(w.t, host, p, Some(busyPct))
  {
    hide WritePoint;
  }

  lemma {:induction false} AdmitPointsExact(w: World, host: string, points: seq<Point>, busyPct: int)
    requires Exact(w) && w.t.cutoff.Some? && forall p :: p in points ==> p.at >= w.t.cutoff.value
    ensures
      var next := AdmitPoints(w, host, points, busyPct);
      && Exact(next) && next.t.cutoff == w.t.cutoff && StaysGone(w, next)
      && next.t == WritePoints(w.t, host, points, Some(busyPct))
  {
    hide Exact, WritePoint, Admit, Gone;
    if points != [] {
      var past := points[..|points| - 1];
      var p := points[|points| - 1];
      AdmitPointsExact(w, host, past, busyPct);
      var mid := AdmitPoints(w, host, past, busyPct);
      AdmitExact(mid, host, p, busyPct);
      AdmitKeepsGone(mid, host, p, busyPct);
      AdmitTables(mid, host, p, busyPct);
    }
  }

  lemma {:induction false} AdmitAllExact(w: World, writes: seq<HostPoints>, cutoff: int, busyPct: int)
    requires Exact(w) && w.t.cutoff == Some(cutoff)
    ensures
      var next := AdmitAll(w, writes, cutoff, busyPct);
      && Exact(next) && next.t.cutoff == w.t.cutoff && StaysGone(w, next)
      && next.t == WriteAll(w.t, writes, cutoff, busyPct)
  {
    hide Exact, AdmitPoints, WritePoints, Gone, Retained;
    if writes != [] {
      var past := writes[..|writes| - 1];
      var last := writes[|writes| - 1];
      AdmitAllExact(w, past, cutoff, busyPct);
      AdmitPointsExact(AdmitAll(w, past, cutoff, busyPct), last.host, Retained(last.points, cutoff), busyPct);
    }
  }

  // ---- moving the boundary and deleting ----------------------------------

  function Advance(w: World, cutoff: int): World {
    w.(t := AdvanceCutoff(w.t, cutoff))
  }

  lemma AdvanceExact(w: World, cutoff: int)
    requires Exact(w)
    ensures Exact(Advance(w, cutoff)) && StaysGone(w, Advance(w, cutoff))
    ensures Advance(w, cutoff).t.cutoff.Some? && Advance(w, cutoff).t.cutoff.value >= cutoff
  {
  }

  ghost function DropRaw(w: World): World
    requires w.t.cutoff.Some?
  {
    w.(t := PruneRaw(w.t, w.t.cutoff.value))
  }

  /** The raw rows before the boundary. */
  function Leaving(history: map<RawKey, Raw>, cutoff: int): map<RawKey, Raw> {
    map k | k in history && k.at < cutoff :: history[k]
  }

  lemma LeavingExpires(
    admitted: map<RawKey, Admitted>, history: map<RawKey, Raw>, busy: map<RawKey, int>, next: map<RawKey, Raw>,
    cutoff: int, h: HourKey)
    requires Agrees(admitted, history, busy)
    requires next == map k | k in history && k.at >= cutoff :: history[k]
    ensures
      var all := In(Expired(admitted, next), h);
      var before := In(Expired(admitted, history), h);
      var leaving := In(Leaving(history, cutoff), h);
      && all.Keys == before.Keys + leaving.Keys
      && (forall k :: k in before ==> all[k] == before[k])
      && (forall k :: k in leaving ==> all[k] == leaving[k])
  {
  }

  lemma PrunedPeak(t: Tables, cutoff: int, h: HourKey)
    ensures
      Coalesce(RetiredPeak(PruneRaw(t, cutoff).retired, h)) ==
      Max(Coalesce(RetiredPeak(t.retired, h)), Coalesce(MaxTotal(In(Leaving(t.history, cutoff), h))))
  {
  }

  lemma DropRawRetired(w: World)
    requires Exact(w) && w.t.cutoff.Some?
    ensures
      var next := DropRaw(w);
      RetiredExact(Expired(next.admitted, next.t.history), next.t.retired, next.dropped)
  {
    var next := DropRaw(w);
    forall h | h !in next.dropped
      ensures IsPeak(In(Expired(next.admitted, next.t.history), h), Coalesce(RetiredPeak(next.t.retired, h)))
    {
      var leaving := In(Leaving(w.t.history, w.t.cutoff.value), h);
      LeavingExpires(w.admitted, w.t.history, w.t.busy, next.t.history, w.t.cutoff.value, h);
      PrunedPeak(w.t, w.t.cutoff.value, h);
      PeakUnion(In(Expired(w.admitted, w.t.history), h), leaving, In(Expired(next.admitted, next.t.history), h),
                Coalesce(RetiredPeak(w.t.retired, h)), Coalesce(MaxTotal(leaving)));
    }
    hide IsPeak, In, Expired, HoursKnown, SumsExact, PeaksExact, DroppedIsClosed, RawIsOpen, Leaving, RetiredPeak;
  }

  lemma FilterRaw(
    admitted: map<RawKey, Admitted>, history: map<RawKey, Raw>, busy: map<RawKey, int>, cutoff: int,
    dropped: set<HourKey>)
    requires Agrees(admitted, history, busy) && GoneIsExpired(admitted, history, Some(cutoff))
    requires RawIsOpen(history, dropped)
    ensures
      var kept := map k | k in history && k.at >= cutoff :: history[k];
      var flags := map k | k in busy && k.at >= cutoff :: busy[k];
      Agrees(admitted, kept, flags) && GoneIsExpired(admitted, kept, Some(cutoff)) && RawIsOpen(kept, dropped)
  {
  }

  lemma ShrinkStaysGone(w: World, next: World)
    requires next.admitted == w.admitted && next.t.history.Keys <= w.t.history.Keys
    ensures StaysGone(w, next)
  {
  }

  lemma DropRawExact(w: World)
    requires Exact(w) && w.t.cutoff.Some?
    ensures Exact(DropRaw(w)) && StaysGone(w, DropRaw(w)) && DropRaw(w).t.cutoff == w.t.cutoff
    ensures forall k :: k in DropRaw(w).t.history ==> k.at >= w.t.cutoff.value
  {
    var next := DropRaw(w);
    FilterRaw(w.admitted, w.t.history, w.t.busy, w.t.cutoff.value, w.dropped);
    DropRawRetired(w);
    assert next.t.history.Keys <= w.t.history.Keys;
    ShrinkStaysGone(w, next);
    hide Agrees, GoneIsExpired, RawIsOpen, Expired, HoursKnown, SumsExact, PeaksExact, DroppedIsClosed, RetiredExact;
    hide StaysGone;
  }

  // ---- the long retention ------------------------------------------------

  ghost function DropHours(w: World, hourCutoff: int): World {
    w.(t := PruneHours(w.t, hourCutoff),
       dropped := w.dropped + set h | h in w.t.hourly && h.hour * HOUR < hourCutoff)
  }

  lemma DropHoursKnown(w: World, hourCutoff: int)
    requires HoursKnown(w.t.hourly, w.admitted, w.dropped)
    ensures
      var next := DropHours(w, hourCutoff);
      HoursKnown(next.t.hourly, next.admitted, next.dropped)
  {
  }

  lemma DropHoursRetired(w: World, hourCutoff: int)
    requires HoursKnown(w.t.hourly, w.admitted, w.dropped)
    requires RetiredExact(Expired(w.admitted, w.t.history), w.t.retired, w.dropped)
    ensures
      var next := DropHours(w, hourCutoff);
      RetiredExact(Expired(w.admitted, w.t.history), next.t.retired, next.dropped)
  {
  }

  lemma DropHoursOpen(w: World, hourCutoff: int)
    requires w.t.cutoff.Some? && hourCutoff + HOUR <= w.t.cutoff.value
    requires RawIsOpen(w.t.history, w.dropped) && DroppedIsClosed(w.dropped, w.t.cutoff)
    requires forall k :: k in w.t.history ==> k.at >= w.t.cutoff.value
    ensures
      var next := DropHours(w, hourCutoff);
      RawIsOpen(w.t.history, next.dropped) && DroppedIsClosed(next.dropped, w.t.cutoff)
  {
  }

  lemma DropHoursExact(w: World, hourCutoff: int)
    requires Exact(w) && w.t.cutoff.Some? && hourCutoff + HOUR <= w.t.cutoff.value
    requires forall k :: k in w.t.history ==> k.at >= w.t.cutoff.value
    ensures Exact(DropHours(w, hourCutoff)) && StaysGone(w, DropHours(w, hourCutoff))
  {
    var next := DropHours(w, hourCutoff);
    DropHoursKnown(w, hourCutoff);
    DropHoursRetired(w, hourCutoff);
    DropHoursOpen(w, hourCutoff);
    ShrinkStaysGone(w, next);
    hide Agrees, GoneIsExpired, RawIsOpen, Expired, HoursKnown, SumsExact, PeaksExact, DroppedIsClosed, RetiredExact;
    hide StaysGone;
  }

  // ---- runs --------------------------------------------------------------

  /** One thing that happens to the tables; each carries the wall clock and configuration of its moment. */
  datatype Op =
    | Batch(writes: seq<HostPoints>, now: int, retention: nat, busyPct: int)
    | Retention(now: int, retention: nat)
    | Restart(busyPct: int)

  /** Raw rows with the flags the current threshold gives them. */
  function Flagged(rows: map<RawKey, Raw>, busyPct: int): map<RawKey, Admitted> {
    map k | k in rows :: Admitted(rows[k], BusyFlag(rows[k], busyPct))
  }

  /** Aggregates of these hours from the raw rows; hours that have one keep it. */
  ghost function Aggregated(
    hourly: map<HourKey, Hourly>, history: map<RawKey, Raw>, hours: set<HourKey>, busyPct: int): map<HourKey, Hourly>
  {
    map h | h in hourly.Keys + hours ::
      if h in hourly then hourly[h]
      else Hourly(Sum(Flagged(In(history, h), busyPct)), MaxTotal(In(history, h)))
  }

  /** The startup backfill of the hours that have no aggregate. */
  ghost function Backfill(t: Tables, busyPct: int): Tables {
    t.(hourly := Aggregated(t.hourly, t.history, Missing(t), busyPct))
  }

  ghost function Apply(t: Tables, op: Op): Tables {
    match op
    case Batch(writes, now, retention, busyPct) => WriteBatch(t, writes, now, retention, busyPct)
    case Retention(now, retention) => Prune(t, now, retention)
    case Restart(busyPct) => Backfill(t, busyPct)
  }

  ghost function Commit(w: World, writes: seq<HostPoints>, now: int, retention: nat, busyPct: int): World {
    if HasPoints(writes) then
      var advanced := Advance(w, now - retention * HOUR);
      AdmitAll(advanced, writes, advanced.t.cutoff.value, busyPct)
    else w
  }

  ghost function Retain(w: World, now: int, retention: nat): World {
    DropHours(DropRaw(Advance(w, now - retention * HOUR)), now - Max(retention, ROLLUP_RETENTION_HOURS) * HOUR)
  }

  ghost function Step(w: World, op: Op): World {
    match op
    case Batch(writes, now, retention, busyPct) => Commit(w, writes, now, retention, busyPct)
    case Retention(now, retention) => Retain(w, now, retention)
    case Restart(busyPct) => w.(t := Backfill(w.t, busyPct))
  }

  const Empty := World(Tables(map[], map[], map[], map[], None), map[], {})

  ghost function Run(ops: seq<Op>): World {
    if ops == [] then Empty else Step(Run(ops[..|ops| - 1]), ops[|ops| - 1])
  }

  /** The raw retention stays at least an hour below the retention of the aggregates. */
  predicate Bounded(op: Op) {
    op.Retention? ==> op.retention < ROLLUP_RETENTION_HOURS
  }

  lemma BackfillIdle(t: Tables, busyPct: int)
    requires Missing(t) == {}
    ensures Backfill(t, busyPct) == t
  {
  }

  lemma StaysGoneTrans(a: World, b: World, c: World)
    requires StaysGone(a, b) && StaysGone(b, c)
    ensures StaysGone(a, c)
  {
  }

  lemma RetainExact(w: World, now: int, retention: nat)
    requires Exact(w) && retention < ROLLUP_RETENTION_HOURS
    ensures Exact(Retain(w, now, retention)) && StaysGone(w, Retain(w, now, retention))
  {
    hide Exact, StaysGone, DropHours, PruneRaw, AdvanceCutoff, Expired;
    var advanced := Advance(w, now - retention * HOUR);
    AdvanceExact(w, now - retention * HOUR);
    DropRawExact(advanced);
    var pruned := DropRaw(advanced);
    var hourCutoff := now - Max(retention, ROLLUP_RETENTION_HOURS) * HOUR;
    assert pruned.t.cutoff == advanced.t.cutoff && hourCutoff + HOUR <= pruned.t.cutoff.value;
    DropHoursExact(pruned, hourCutoff);
    StaysGoneTrans(w, advanced, pruned);
    StaysGoneTrans(w, pruned, DropHours(pruned, hourCutoff));
  }

  lemma CommitExact(w: World, writes: seq<HostPoints>, now: int, retention: nat, busyPct: int)
    requires Exact(w)
    ensures
      var next := Commit(w, writes, now, retention, busyPct);
      Exact(next) && StaysGone(w, next) && next.t == WriteBatch(w.t, writes, now, retention, busyPct)
  {
    if HasPoints(writes) {
      var advanced := Advance(w, now - retention * HOUR);
      AdvanceExact(w, now - retention * HOUR);
      var next := AdmitAll(advanced, writes, advanced.t.cutoff.value, busyPct);
      AdmitAllExact(advanced, writes, advanced.t.cutoff.value, busyPct);
      StaysGoneTrans(w, advanced, next);
    } else {
      ShrinkStaysGone(w, w);
    }
    hide Exact, StaysGone, AdmitAll, WriteAll, HasPoints, AdvanceCutoff;
  }

  lemma StepExact(w: World, op: Op)
    requires Exact(w) && Bounded(op)
    ensures Exact(Step(w, op)) && StaysGone(w, Step(w, op))
  {
    match op
    case Batch(writes, now, retention, busyPct) => CommitExact(w, writes, now, retention, busyPct);
    case Retention(now, retention) => RetainExact(w, now, retention);
    case Restart(busyPct) =>
      BackfillIdle(w.t, busyPct);
      ShrinkStaysGone(w, w);
    hide Exact, StaysGone, Commit, WriteBatch, Retain, Missing, Backfill, MaxTotal, In;
  }

  // ---- the theorems ------------------------------------------------------

  /** Every aggregate is the aggregate of the last admitted values of its hour. */
  ghost predicate AggregatesExact(w: World) {
    forall h :: h in w.t.hourly ==>
      && w.t.hourly[h].sums == Sum(In(w.admitted, h))
      && IsPeak(RawsOf(In(w.admitted, h)), Coalesce(w.t.hourly[h].memoryTotalMax))
  }

  /** Every retained raw row is a last admitted value and has its stored busy flag and an aggregate. */
  ghost predicate RawCounted(w: World) {
    forall k :: k in w.t.history ==>
      && k in w.t.busy && HourOf(k) in w.t.hourly
      && k in w.admitted && w.admitted[k] == Admitted(w.t.history[k], w.t.busy[k])
  }

  /** An hour that lost its aggregate lies wholly below the boundary. */
  ghost predicate LostIsExpired(w: World) {
    forall k :: k in w.admitted && HourOf(k) !in w.t.hourly ==>
      w.t.cutoff.Some? && (HourOf(k).hour + 1) * HOUR <= w.t.cutoff.value
  }

  ghost predicate RollupsExact(w: World) {
    AggregatesExact(w) && RawCounted(w) && LostIsExpired(w)
  }

  lemma LostMeans(w: World)
    requires Exact(w)
    ensures LostIsExpired(w)
  {
  }

  lemma {:induction false} RunExact(ops: seq<Op>)
    requires forall op :: op in ops ==> Bounded(op)
    ensures Exact(Run(ops))
  {
    if ops == [] {
      assert Exact(Empty);
    } else {
      RunExact(ops[..|ops| - 1]);
      StepExact(Run(ops[..|ops| - 1]), ops[|ops| - 1]);
    }
    hide Exact, Step;
  }

  /** Whatever happened, the aggregates are exact and the startup backfill has nothing to add. */
  lemma AlwaysExact(ops: seq<Op>, busyPct: int)
    requires forall op :: op in ops ==> Bounded(op)
    ensures RollupsExact(Run(ops)) && Backfill(Run(ops).t, busyPct) == Run(ops).t
  {
    RunExact(ops);
    BackfillIdle(Run(ops).t, busyPct);
  }

  lemma {:induction false} RunStaysGone(ops: seq<Op>, later: seq<Op>)
    requires forall op :: op in ops || op in later ==> Bounded(op)
    ensures StaysGone(Run(ops), Run(ops + later))
    decreases |later|
  {
    hide Exact, Step, StaysGone, Bounded;
    if later == [] {
      assert ops + later == ops;
      ShrinkStaysGone(Run(ops), Run(ops));
    } else {
      var past := later[..|later| - 1];
      var op := later[|later| - 1];
      var all := ops + later;
      assert all[..|all| - 1] == ops + past && all[|all| - 1] == op;
      RunStaysGone(ops, past);
      RunExact(ops + past);
      StepExact(Run(ops + past), op);
      StaysGoneTrans(Run(ops), Run(ops + past), Run(all));
    }
  }

  /** A sample deleted by retention never comes back and never changes what it contributed. */
  lemma NeverReadmitted(ops: seq<Op>, later: seq<Op>, k: RawKey)
    requires forall op :: op in ops || op in later ==> Bounded(op)
    requires k in Run(ops).admitted && k !in Run(ops).t.history
    ensures
      var next := Run(ops + later);
      k !in next.t.history && k in next.admitted && next.admitted[k] == Run(ops).admitted[k]
  {
    hide Run;
    RunStaysGone(ops, later);
    assert Gone(Run(ops), k);
  }

  // ---- busy shares -------------------------------------------------------

  /** A stored flag is 0 or 1, and 1 only for a sample with a utilization. */
  predicate FlagsSound(m: map<RawKey, Admitted>) {
    forall k :: k in m ==> 0 <= m[k].busy <= if m[k].raw.utilization.Some? then 1 else 0
  }

  lemma PointsSound(w: World, host: string, points: seq<Point>, busyPct: int)
    requires FlagsSound(w.admitted)
    ensures FlagsSound(AdmitPoints(w, host, points, busyPct).admitted)
  {
  }

  lemma {:induction false} BatchSound(w: World, writes: seq<HostPoints>, cutoff: int, busyPct: int)
    requires FlagsSound(w.admitted)
    ensures FlagsSound(AdmitAll(w, writes, cutoff, busyPct).admitted)
  {
    hide FlagsSound, AdmitPoints;
    if writes != [] {
      var past := writes[..|writes| - 1];
      var last := writes[|writes| - 1];
      BatchSound(w, past, cutoff, busyPct);
      PointsSound(AdmitAll(w, past, cutoff, busyPct), last.host, Retained(last.points, cutoff), busyPct);
    }
  }

  lemma {:induction false} RunSound(ops: seq<Op>)
    ensures FlagsSound(Run(ops).admitted)
  {
    hide AdmitAll, Backfill, PruneRaw, PruneHours, HasPoints;
    if ops != [] {
      var w := Run(ops[..|ops| - 1]);
      var op := ops[|ops| - 1];
      RunSound(ops[..|ops| - 1]);
      if op.Batch? && HasPoints(op.writes) {
        var advanced := Advance(w, op.now - op.retention * HOUR);
        BatchSound(advanced, op.writes, advanced.t.cutoff.value, op.busyPct);
      }
      hide FlagsSound;
    }
  }

  lemma SumSound(m: map<RawKey, Admitted>)
    requires FlagsSound(m)
    ensures 0 <= Sum(m).busySamples <= Sum(m).utilizationSamples <= Sum(m).samples == |m|
    decreases |m|
  {
  }

  /** In every run an aggregate's busy samples are among its utilization samples, and those among its samples. */
  lemma SharesBounded(ops: seq<Op>, h: HourKey)
    requires forall op :: op in ops ==> Bounded(op)
    requires h in Run(ops).t.hourly
    ensures
      var sums := Run(ops).t.hourly[h].sums;
      0 <= sums.busySamples <= sums.utilizationSamples <= sums.samples == |In(Run(ops).admitted, h)|
  {
    hide Run, Backfill, IsPeak;
    AlwaysExact(ops, 0);
    RunSound(ops);
    SumSound(In(Run(ops).admitted, h));
  }

  predicate Retains(ops: seq<Op>, retention: nat) {
    forall op :: op in ops && !op.Restart? ==> op.retention == retention
  }

  /** A retention run whose boundary falls inside an hour with samples on both sides of it. */
  lemma RetainLoses(w: World, k: RawKey, now: int, retention: nat)
    requires retention >= ROLLUP_RETENTION_HOURS && k in w.t.history
    requires w.t.cutoff.Some? ==> w.t.cutoff.value <= k.at
    requires HourOf(k).hour * HOUR < now - retention * HOUR <= k.at
    ensures !RollupsExact(Retain(w, now, retention))
  {
    hide MaxTotal, MaxCoalesced, AggregatesExact, LostIsExpired;
    var next := Retain(w, now, retention);
    assert k in next.t.history && HourOf(k) !in next.t.hourly;
  }

  lemma AdmitOne(w: World, host: string, p: Point, cutoff: int, busyPct: int)
    requires p.at >= cutoff
    ensures AdmitAll(w, [HostPoints(host, [p])], cutoff, busyPct) == Admit(w, host, p, busyPct)
  {
    hide Admit;
    var writes := [HostPoints(host, [p])];
    assert writes[..0] == [] && [p][..0] == [];
    assert Retained([], cutoff) == [];
    assert Retained([p], cutoff) == [p];
    assert AdmitPoints(w, host, [], busyPct) == w;
  }

  /** With a raw retention as long as that of the aggregates an hour loses its aggregate while later samples
      of it stay. */
  lemma LongRetentionLoses(retention: nat)
    requires retention >= ROLLUP_RETENTION_HOURS
    ensures exists ops :: Retains(ops, retention) && !RollupsExact(Run(ops))
  {
    hide RollupsExact, Retain, AdmitAll, MaxTotal;
    var now := retention * HOUR + 1;
    var p := Point("gpu", 2, Raw(None, None, None));
    var writes := [HostPoints("host", [p])];
    assert writes[0].points != [];
    var ops := [Batch(writes, now, retention, 0), Retention(now, retention)];
    assert ops[..1] == [ops[0]] && [ops[0]][..0] == [];
    var advanced := Advance(Empty, 1);
    AdmitOne(advanced, "host", p, 1, 0);
    var w := Run([ops[0]]);
    assert Run([]) == Empty;
    assert w == Commit(Empty, writes, now, retention, 0) == Admit(advanced, "host", p, 0);
    RetainLoses(w, KeyOf("host", p), now, retention);
    assert Run(ops) == Retain(w, now, retention);
  }

  /** The raw retention for which the aggregates are exact over every run: less than theirs. */
  lemma ExactIff(retention: nat)
    ensures (forall ops :: Retains(ops, retention) ==> RollupsExact(Run(ops))) <==> retention < ROLLUP_RETENTION_HOURS
  {
    if retention < ROLLUP_RETENTION_HOURS {
      forall ops | Retains(ops, retention) ensures RollupsExact(Run(ops)) {
        AlwaysExact(ops, 0);
      }
    } else {
      LongRetentionLoses(retention);
    }
    hide RollupsExact, Run;
  }
}
