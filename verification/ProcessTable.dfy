/**
  What the table of process transitions gives back of one device.  The query
  takes the newest rows of the visible and of the hidden ones apart, so it can
  split a process's two transitions of one second; the rows that are left are
  ordered by rank and cut once more.
 */
module ProcessTable {
  import opened Common
  import opened ProcessOrder
  import opened ProcessTransitions
  import opened ProcessDevices
  import opened ProcessRestore
  import opened ProcessClock
  import opened ProcessAlternation

  // ---- rank and turn -----------------------------------------------------

  /** For rows that differ in their key, following in turn is following in rank. */
  lemma TurnIsRank(log: seq<Transition>, a: Transition, b: Transition)
    requires Keyed(log) && a in log && b in log && a.key == b.key && !SameRow(a, b)
    ensures Turn(a, b) <==> Before(log, a, b)
  {
    hide Second;
    NameTotal(a.key.name, b.key.name);
    if a.at == b.at {
      SecondIs(log, a, b);
    }
  }

  lemma SecondIs(log: seq<Transition>, a: Transition, b: Transition)
    requires Keyed(log) && a in log && b in log && a.key == b.key && a.at == b.at && a.stopped != b.stopped
    ensures Second(log, a) == (a.stopped == SameInstance(a.workload, b.workload))
    ensures Second(log, b) == (b.stopped == SameInstance(a.workload, b.workload))
  {
    TwinOf(log, a, b);
    TwinOf(log, b, a);
  }

  /** A log without repeated rows is in turn iff its processes' transitions are in rank. */
  lemma InTurnIffKeysRanked(log: seq<Transition>)
    requires Keyed(log)
    ensures InTurn(log) <==> KeysRanked(log)
  {
    hide Turn, Before, SameRow;
    forall i, j | 0 <= i < j < |log| && log[i].key == log[j].key
      ensures Turn(log[i], log[j]) <==> Before(log, log[i], log[j])
    {
      assert !SameRow(log[i], log[j]);
      TurnIsRank(log, log[i], log[j]);
    }
    forall i, j | 0 <= i < j < |log| && log[i].key != log[j].key ensures Turn(log[i], log[j]) {
      OthersTurn(log[i], log[j]);
    }
  }

  lemma OthersTurn(a: Transition, b: Transition)
    requires a.key != b.key
    ensures Turn(a, b)
  {
  }

  /** Rows in rank are in turn, and their times never fall back. */
  lemma RankedInTurn(log: seq<Transition>, rows: seq<Transition>)
    requires Keyed(log) && multiset(rows) == multiset(log) && Ranked(log, rows)
    ensures InTurn(rows)
    ensures forall i, j :: 0 <= i <= j < |rows| ==> rows[i].at <= rows[j].at
  {
    hide Turn, Second;
    forall i, j | 0 <= i < j < |rows| ensures Turn(rows[i], rows[j]) && rows[i].at <= rows[j].at {
      RowsOf(log, rows, i);
      RowsOf(log, rows, j);
      if rows[i].key == rows[j].key {
        NotSameRow(log, rows[i], rows[j]);
        TurnIsRank(log, rows[i], rows[j]);
      } else {
        OthersTurn(rows[i], rows[j]);
      }
    }
  }

  lemma RowsOf(log: seq<Transition>, rows: seq<Transition>, i: nat)
    requires multiset(rows) == multiset(log) && i < |rows|
    ensures rows[i] in log
  {
    assert rows[i] in multiset(log);
  }

  lemma NotSameRow(log: seq<Transition>, a: Transition, b: Transition)
    requires Before(log, a, b) && Keyed(log) && a in log && b in log
    ensures !SameRow(a, b)
  {
    BeforeOnce(log, a, b);
    hide Before;
    if SameRow(a, b) {
      OneRow(log, a, b);
    }
  }

  lemma OneRow(log: seq<Transition>, a: Transition, b: Transition)
    requires Keyed(log) && a in log && b in log && SameRow(a, b)
    ensures a == b
  {
  }

  // ---- the query and the order -------------------------------------------

  /** The query lists rows newest first: by time, within a second starts before stops, and higher processes first. */
  predicate Older(a: Transition, b: Transition) {
    || a.at < b.at
    || (a.at == b.at && ((a.stopped && !b.stopped) || (a.stopped == b.stopped && Less(a.key, b.key))))
  }

  /** The stored rows of one visibility that retention has left. */
  ghost function Partition(table: set<Transition>, since: int, visible: bool): set<Transition> {
    set e | e in table && e.at >= since && e.visible == visible
  }

  /** The first `n` rows of the query. */
  ghost predicate Newest(rows: set<Transition>, n: nat, kept: set<Transition>) {
    && kept <= rows && |kept| == Min(n, |rows|)
    && forall e, f :: e in rows && e !in kept && f in kept ==> Older(e, f)
  }

  /** Exactly these rows, once each. */
  ghost predicate Lists(rows: seq<Transition>, kept: set<Transition>) {
    |rows| == |kept| && forall e :: e in rows <==> e in kept
  }

  function LastRows(rows: seq<Transition>, n: nat): seq<Transition> {
    if |rows| <= n then rows else rows[|rows| - n..]
  }

  /** Both queries, the rank order of what they gave, and its newest `n` rows. */
  ghost predicate Cut(
    table: set<Transition>, since: int, n: nat, hidden: set<Transition>, visible: set<Transition>,
    rows: seq<Transition>, r: seq<Transition>)
  {
    && Newest(Partition(table, since, false), n, hidden)
    && Newest(Partition(table, since, true), n, visible)
    && Lists(rows, hidden + visible) && Ranked(rows, rows) && r == LastRows(rows, n)
  }

  /** What a restart gets of a device whose rows the table holds. */
  ghost predicate TableCut(table: set<Transition>, since: int, n: nat, r: seq<Transition>) {
    exists hidden, visible, rows :: Cut(table, since, n, hidden, visible, rows, r)
  }

  /** No two rows of a table share second, process and kind. */
  ghost predicate KeyedRows(table: set<Transition>) {
    forall a, b :: a in table && b in table && a != b ==> !SameRow(a, b)
  }

  // ---- later seconds are read whole --------------------------------------

  lemma {:induction false} ElementsBound(kept: set<Transition>, rows: seq<Transition>)
    requires forall e :: e in kept ==> e in rows
    ensures |kept| <= |rows|
  {
    if rows != [] {
      var last := rows[|rows| - 1];
      ElementsBound(kept - {last}, rows[..|rows| - 1]);
    }
  }

  lemma RankedOrder(rows: seq<Transition>, i: nat, j: nat)
    requires Ranked(rows, rows) && i <= j < |rows|
    ensures rows[i].at <= rows[j].at
  {
    hide Second;
  }

  lemma RankedTimes(rows: seq<Transition>, i: nat, j: nat)
    requires Ranked(rows, rows) && i < |rows| && j < |rows| && rows[i].at < rows[j].at
    ensures i < j
  {
    hide Ranked;
    if j <= i {
      RankedOrder(rows, j, i);
    }
  }

  /** The rows that rank after the time of one of them. */
  lemma RowsAfter(rows: seq<Transition>, j: nat, kept: set<Transition>)
    requires Ranked(rows, rows) && j < |rows|
    requires forall e :: e in kept ==> e in rows && e.at > rows[j].at
    ensures |kept| <= |rows| - j - 1
  {
    forall e | e in kept ensures e in rows[j + 1..] {
      var i :| 0 <= i < |rows| && rows[i] == e;
      RankedTimes(rows, j, i);
      assert rows[j + 1..][i - j - 1] == e;
    }
    ElementsBound(kept, rows[j + 1..]);
  }

  lemma LastRowsAre(rows: seq<Transition>, n: nat, e: Transition)
    ensures e in LastRows(rows, n) <==> exists j :: 0 <= j < |rows| && j >= |rows| - n && rows[j] == e
  {
    var r := LastRows(rows, n);
    var skipped := |rows| - |r|;
    assert forall i :: 0 <= i < |r| ==> r[i] == rows[skipped + i];
    if j: int :| 0 <= j < |rows| && j >= |rows| - n && rows[j] == e {
      assert r[j - skipped] == e;
    }
  }

  lemma CutRows(
    table: set<Transition>, since: int, n: nat, hidden: set<Transition>, visible: set<Transition>,
    rows: seq<Transition>, r: seq<Transition>)
    requires Cut(table, since, n, hidden, visible, rows, r)
    ensures forall e :: e in rows ==> e in table && e.at >= since
    ensures forall e :: e in r ==> e in rows
    ensures |r| <= n
  {
    hide Ranked;
    assert forall e :: e in hidden + visible ==> e in table && e.at >= since;
  }

  /** Where a row is read back, so is every row of a later second. */
  lemma LaterRead(table: set<Transition>, since: int, n: nat, r: seq<Transition>, e: Transition, f: Transition)
    requires TableCut(table, since, n, r) && e in r && f in table && f.at > e.at
    ensures f in r
  {
    hide Ranked, Newest, Lists;
    var hidden, visible, rows :| Cut(table, since, n, hidden, visible, rows, r);
    CutRows(table, since, n, hidden, visible, rows, r);
    LastRowsAre(rows, n, e);
    var j: int :| 0 <= j < |rows| && j >= |rows| - n && rows[j] == e;
    var kept := if f.visible then visible else hidden;
    assert forall g :: g in kept ==> g in rows by {
      ListsBoth(rows, hidden, visible);
    }
    if f !in kept {
      DroppedMeansFull(Partition(table, since, f.visible), n, kept, f);
      RowsAfter(rows, j, kept);
      assert false;
    }
    var i :| 0 <= i < |rows| && rows[i] == f;
    RankedTimes(rows, j, i);
    LastRowsAre(rows, n, f);
  }

  lemma ListsBoth(rows: seq<Transition>, hidden: set<Transition>, visible: set<Transition>)
    requires Lists(rows, hidden + visible)
    ensures forall g :: g in hidden || g in visible ==> g in rows
  {
  }

  lemma DroppedMeansFull(rows: set<Transition>, n: nat, kept: set<Transition>, f: Transition)
    requires Newest(rows, n, kept) && f in rows && f !in kept
    ensures |kept| == n && forall g :: g in kept ==> g.at >= f.at
  {
    if |kept| == |rows| {
      WholeSet(rows, kept);
    }
  }

  lemma WholeSet(rows: set<Transition>, kept: set<Transition>)
    requires kept <= rows && |kept| == |rows|
    ensures kept == rows
  {
    assert rows == kept + (rows - kept);
  }

  // ---- limits ------------------------------------------------------------

  /** Without more rows than the limit all are read back. */
  lemma SmallTableRead(table: set<Transition>, since: int, n: nat, r: seq<Transition>, e: Transition)
    requires TableCut(table, since, n, r) && e in table && e.at >= since
    requires |Partition(table, since, false)| + |Partition(table, since, true)| <= n
    ensures e in r
  {
    hide Ranked, Partition;
    var hidden, visible, rows :| Cut(table, since, n, hidden, visible, rows, r);
    WholeSet(Partition(table, since, false), hidden);
    WholeSet(Partition(table, since, true), visible);
    assert |hidden + visible| <= |hidden| + |visible| by {
      UnionBound(hidden, visible);
    }
    assert e in Partition(table, since, e.visible) by {
      InPartition(table, since, e);
    }
  }

  lemma InPartition(table: set<Transition>, since: int, e: Transition)
    requires e in table && e.at >= since
    ensures e in Partition(table, since, e.visible)
  {
  }

  lemma UnionBound(a: set<Transition>, b: set<Transition>)
    ensures |a + b| <= |a| + |b|
  {
    assert a + b == a + (b - a);
  }

  /** What one restart leaves behind a later one with no larger limit does not read either, except rows of the very
      second in which the first one cut. */
  lemma LeftBehind(
    table: set<Transition>, since: int, n: nat, r: seq<Transition>,
    later: set<Transition>, since': int, n': nat, r': seq<Transition>, e: Transition)
    requires TableCut(table, since, n, r) && TableCut(later, since', n', r')
    requires table <= later && since <= since' && n' <= n
    requires e in table && e !in r && e in r'
    ensures r != [] && e.at == r[0].at
  {
    hide TableCut;
    CutSize(later, since', n', r');
    if |r| < n {
      ShortCut(table, since, n, r, e);
      ReadSince(later, since', n', r', e);
      assert false;
    }
    CutSize(table, since, n, r);
    assert r' != [];
    if e.at > r[0].at {
      LaterRead(table, since, n, r, r[0], e);
      assert false;
    }
    if e.at < r[0].at {
      forall f | f in r ensures f in r' {
        OldestFirst(table, since, n, r, f);
        LaterRead(later, since', n', r', e, f);
      }
      MoreThan(r, r', e);
      assert false;
    }
  }

  lemma CutSize(table: set<Transition>, since: int, n: nat, r: seq<Transition>)
    requires TableCut(table, since, n, r)
    ensures |r| <= n && forall e :: e in r ==> e in table
    ensures forall i, j :: 0 <= i < j < |r| ==> r[i] != r[j]
  {
    hide Ranked, Newest;
    var hidden, visible, rows :| Cut(table, since, n, hidden, visible, rows, r);
    CutRows(table, since, n, hidden, visible, rows, r);
    RankedApart(rows);
  }

  lemma RankedApart(rows: seq<Transition>)
    requires Ranked(rows, rows)
    ensures forall i, j :: 0 <= i < j < |rows| ==> rows[i] != rows[j]
  {
    hide Before;
    forall i, j | 0 <= i < j < |rows| ensures rows[i] != rows[j] {
      BeforeOnce(rows, rows[i], rows[j]);
    }
  }

  /** With fewer rows than the limit nothing was dropped. */
  lemma ShortCut(table: set<Transition>, since: int, n: nat, r: seq<Transition>, e: Transition)
    requires TableCut(table, since, n, r) && |r| < n && e in table && e !in r
    ensures e.at < since
  {
    hide Ranked, Partition;
    var hidden, visible, rows :| Cut(table, since, n, hidden, visible, rows, r);
    WithinUnion(hidden, visible);
    WholeSet(Partition(table, since, false), hidden);
    WholeSet(Partition(table, since, true), visible);
    if e.at >= since {
      InPartition(table, since, e);
      assert false;
    }
  }

  lemma WithinUnion(a: set<Transition>, b: set<Transition>)
    ensures |a| <= |a + b| && |b| <= |a + b|
  {
    assert a + b == a + (b - a) && a + b == b + (a - b);
  }

  lemma ReadSince(table: set<Transition>, since: int, n: nat, r: seq<Transition>, e: Transition)
    requires TableCut(table, since, n, r) && e in r
    ensures e.at >= since
  {
    hide Ranked, Newest;
    var hidden, visible, rows :| Cut(table, since, n, hidden, visible, rows, r);
    CutRows(table, since, n, hidden, visible, rows, r);
  }

  /** What is read back comes in order of time. */
  lemma OldestFirst(table: set<Transition>, since: int, n: nat, r: seq<Transition>, f: Transition)
    requires TableCut(table, since, n, r) && f in r
    ensures r[0].at <= f.at <= r[|r| - 1].at
  {
    hide Ranked, Newest, Lists, Partition, LastRows;
    var hidden, visible, rows :| Cut(table, since, n, hidden, visible, rows, r);
    SuffixTimes(rows, n, f);
  }

  lemma SuffixTimes(rows: seq<Transition>, n: nat, f: Transition)
    requires Ranked(rows, rows) && f in LastRows(rows, n)
    ensures
      var r := LastRows(rows, n);
      r[0].at <= f.at <= r[|r| - 1].at
  {
    hide Ranked;
    var r := LastRows(rows, n);
    var skipped := |rows| - |r|;
    var i :| 0 <= i < |r| && r[i] == f;
    RankedOrder(rows, skipped, skipped + i);
    RankedOrder(rows, skipped + i, |rows| - 1);
  }

  lemma MoreThan(a: seq<Transition>, b: seq<Transition>, e: Transition)
    requires forall i, j :: 0 <= i < j < |a| ==> a[i] != a[j]
    requires (forall f :: f in a ==> f in b) && e in b && e !in a
    ensures |b| > |a|
  {
    var kept := set f | f in a;
    DistinctCount(a);
    ElementsBound(kept + {e}, b);
  }

  lemma {:induction false} DistinctCount(a: seq<Transition>)
    requires forall i, j :: 0 <= i < j < |a| ==> a[i] != a[j]
    ensures |set f | f in a| == |a|
  {
    if a != [] {
      var past, last := a[..|a| - 1], a[|a| - 1];
      DistinctCount(past);
      assert (set f | f in a) == (set f | f in past) + {last};
    }
  }

  // ---- carried out -------------------------------------------------------

  function Elements(rows: seq<Transition>): set<Transition> {
    set e | e in rows
  }

  /** These rows are what one of the two queries gives. */
  ghost predicate Selected(rows: seq<Transition>, table: set<Transition>, since: int, visible: bool, n: nat) {
    Lists(rows, Elements(rows)) && Newest(Partition(table, since, visible), n, Elements(rows))
  }

  lemma SelectedKeyed(
    hidden: seq<Transition>, visible: seq<Transition>, table: set<Transition>, since: int, n: nat)
    requires KeyedRows(table) && Selected(hidden, table, since, false, n) && Selected(visible, table, since, true, n)
    ensures Keyed(hidden + visible)
    ensures |Elements(hidden) + Elements(visible)| == |hidden + visible|
    ensures Elements(hidden + visible) == Elements(hidden) + Elements(visible)
  {
    assert Elements(hidden) !! Elements(visible);
    ListedApart(hidden);
    ListedApart(visible);
    var items := hidden + visible;
    forall i, j | 0 <= i < j < |items| ensures items[i] in table && items[j] in table && items[i] != items[j] {
      assert items[i] in Elements(hidden) || items[i] in Elements(visible);
      assert items[j] in Elements(hidden) || items[j] in Elements(visible);
    }
    hide SameRow;
  }

  lemma {:induction false} ListedApart(rows: seq<Transition>)
    requires Lists(rows, Elements(rows))
    ensures forall i, j :: 0 <= i < j < |rows| ==> rows[i] != rows[j]
  {
    forall i, j | 0 <= i < j < |rows| ensures rows[i] != rows[j] {
      if rows[i] == rows[j] {
        var fewer := rows[..i] + rows[i + 1..];
        TakenOut(rows, i, j);
        ElementsBound(Elements(rows), fewer);
        assert false;
      }
    }
  }

  lemma TakenOut(rows: seq<Transition>, i: nat, j: nat)
    requires i < j < |rows| && rows[i] == rows[j]
    ensures forall e :: e in rows ==> e in rows[..i] + rows[i + 1..]
  {
    var fewer := rows[..i] + rows[i + 1..];
    forall e | e in rows ensures e in fewer {
      var m :| 0 <= m < |rows| && rows[m] == e;
      var at := if m == i then j else m;
      assert fewer[if at < i then at else at - 1] == e;
    }
  }

  /** The rank of rows among themselves is their rank in whatever order they were read. */
  lemma RankedAmong(items: seq<Transition>, rows: seq<Transition>)
    requires Keyed(items) && multiset(rows) == multiset(items) && Ranked(items, rows)
    ensures Ranked(rows, rows)
  {
    hide Second, Keyed;
    forall i | 0 <= i < |rows| ensures rows[i] in items {
      RowsOf(items, rows, i);
    }
    KeyedAmong(items, rows);
    forall i, j | 0 <= i < j < |rows| ensures Before(rows, rows[i], rows[j]) {
      if rows[i].key == rows[j].key {
        NotSameRow(items, rows[i], rows[j]);
        TurnIsRank(items, rows[i], rows[j]);
        TurnIsRank(rows, rows[i], rows[j]);
      }
    }
  }

  lemma KeyedAmong(items: seq<Transition>, rows: seq<Transition>)
    requires Keyed(items) && Ranked(items, rows) && forall i :: 0 <= i < |rows| ==> rows[i] in items
    ensures Keyed(rows)
  {
    hide Before, SameRow, Keyed;
    forall i, j | 0 <= i < j < |rows| ensures !SameRow(rows[i], rows[j]) {
      NotSameRow(items, rows[i], rows[j]);
    }
    assert Keyed(rows) by {
      AllApart(rows);
    }
  }

  lemma AllApart(rows: seq<Transition>)
    requires forall i, j :: 0 <= i < j < |rows| ==> !SameRow(rows[i], rows[j])
    ensures Keyed(rows)
  {
  }

  /** emission_order(items)[-points:], the hidden rows first as their partition is. */
  method RestoreRows(
    hidden: seq<Transition>, visible: seq<Transition>, points: nat, ghost table: set<Transition>, ghost since: int)
    returns (r: seq<Transition>)
    requires Selected(hidden, table, since, false, points) && Selected(visible, table, since, true, points)
    ensures |r| == Min(points, |hidden| + |visible|)
    ensures KeyedRows(table) ==> TableCut(table, since, points, r)
  {
    hide Ranked, Newest, Selected, Lists, Elements, KeyedRows, Keyed;
    var rows := EmissionOrder(hidden + visible);
    assert |rows| == |hidden + visible| by {
      SameLength(rows, hidden + visible);
    }
    r := LastRows(rows, points);
    if KeyedRows(table) {
      SelectedKeyed(hidden, visible, table, since, points);
      RankedAmong(hidden + visible, rows);
      SelectedCut(hidden, visible, points, table, since, rows);
    }
  }

  lemma SelectedCut(
    hidden: seq<Transition>, visible: seq<Transition>, n: nat, table: set<Transition>, since: int,
    rows: seq<Transition>)
    requires Selected(hidden, table, since, false, n) && Selected(visible, table, since, true, n)
    requires multiset(rows) == multiset(hidden + visible) && Ranked(rows, rows)
    requires |Elements(hidden) + Elements(visible)| == |hidden + visible|
    requires Elements(hidden + visible) == Elements(hidden) + Elements(visible)
    ensures TableCut(table, since, n, LastRows(rows, n))
  {
    hide Ranked, Newest;
    SameLength(rows, hidden + visible);
    forall e ensures e in rows <==> e in Elements(hidden) + Elements(visible) {
      assert e in rows <==> e in multiset(rows);
      assert e in hidden + visible <==> e in multiset(hidden + visible);
    }
    assert Cut(table, since, n, Elements(hidden), Elements(visible), rows, LastRows(rows, n));
  }
}
