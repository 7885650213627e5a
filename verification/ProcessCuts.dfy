/**
  Which cuts of a device's stored rows are harmless: what a restart reads back
  is a collector's log, with the same starts open, iff it does not keep one of
  a process's two transitions of a second and lose the later one.
 */
module ProcessCuts {
  import opened Common
  import opened ProcessOrder
  import opened ProcessTransitions
  import opened ProcessDevices
  import opened ProcessRestore
  import opened ProcessClock
  import opened ProcessAlternation
  import opened ProcessTable

  // ---- rows of a log that were read back ---------------------------------

  /** Rows of the log in turn, with every later second of the log whole. */
  ghost predicate Cropped(log: seq<Transition>, r: seq<Transition>) {
    && Keyed(r) && InTurn(r)
    && (forall e :: e in r ==> e in log)
    && forall e, f :: e in r && f in log && f.at > e.at ==> f in r
  }

  /** Where the earlier of two transitions of a process in one second is read back, so is the later. */
  predicate Unsplit(log: seq<Transition>, r: seq<Transition>) {
    forall i, j :: 0 <= i < j < |log| && SameSecond(log[i], log[j]) && log[i] in r ==> log[j] in r
  }

  predicate SameSecond(a: Transition, b: Transition) {
    a.key == b.key && a.at == b.at
  }

  lemma ListedKeyed(table: set<Transition>, rows: seq<Transition>)
    requires KeyedRows(table) && Ranked(rows, rows) && forall e :: e in rows ==> e in table
    ensures Keyed(rows)
  {
    hide Before, SameRow;
    forall i, j | 0 <= i < j < |rows| ensures !SameRow(rows[i], rows[j]) {
      BeforeOnce(rows, rows[i], rows[j]);
    }
  }

  lemma SuffixKeyed(rows: seq<Transition>, n: nat)
    requires Keyed(rows) && InTurn(rows)
    ensures Keyed(LastRows(rows, n)) && InTurn(LastRows(rows, n))
  {
    hide SameRow, Turn;
  }

  /** Rows of a log that a restart got from a table with all rows of the log are cropped. */
  lemma CutCrops(table: set<Transition>, since: int, n: nat, log: seq<Transition>, r: seq<Transition>)
    requires TableCut(table, since, n, r) && KeyedRows(table)
    requires (forall e :: e in log ==> e in table) && forall e :: e in r ==> e in log
    ensures Cropped(log, r)
  {
    hide Ranked, Newest, Lists, KeyedRows, Keyed, InTurn, LastRows;
    var hidden, visible, rows :| Cut(table, since, n, hidden, visible, rows, r);
    CutRows(table, since, n, hidden, visible, rows, r);
    ListedKeyed(table, rows);
    RankedInTurn(rows, rows);
    SuffixKeyed(rows, n);
    forall e, f | e in r && f in log && f.at > e.at ensures f in r {
      LaterRead(table, since, n, r, e, f);
    }
  }

  /** The rows read back, in the order of the log. */
  function Only(log: seq<Transition>, r: seq<Transition>): (s: seq<Transition>)
    ensures forall e :: e in s <==> e in log && e in r
  {
    if log == [] then []
    else Only(log[..|log| - 1], r) + if log[|log| - 1] in r then [log[|log| - 1]] else []
  }

  lemma {:induction false} OnlyInTurn(log: seq<Transition>, r: seq<Transition>)
    requires Keyed(log) && InTurn(log)
    ensures Keyed(Only(log, r)) && InTurn(Only(log, r))
  {
    hide SameRow, Turn, Keyed, InTurn;
    if log == [] {
      NothingInTurn();
    } else {
      var past, e := log[..|log| - 1], log[|log| - 1];
      assert past + [e] == log;
      LastInTurn(past, e);
      OnlyInTurn(past, r);
      OnlySnoc(past, e, r);
      if e in r {
        SnocInTurn(Only(past, r), e);
      }
    }
  }

  lemma NothingInTurn()
    ensures Keyed([]) && InTurn([])
  {
  }

  lemma LastInTurn(past: seq<Transition>, e: Transition)
    requires Keyed(past + [e]) && InTurn(past + [e])
    ensures Keyed(past) && InTurn(past) && forall f :: f in past ==> Turn(f, e) && !SameRow(f, e)
  {
    hide SameRow, Turn;
    var log := past + [e];
    assert forall i :: 0 <= i < |past| ==> past[i] == log[i];
    forall f | f in past ensures Turn(f, e) && !SameRow(f, e) {
      var i :| 0 <= i < |past| && past[i] == f;
      assert log[i] == f && log[|past|] == e;
    }
  }

  lemma SnocInTurn(s: seq<Transition>, e: Transition)
    requires Keyed(s) && InTurn(s) && forall f :: f in s ==> Turn(f, e) && !SameRow(f, e)
    ensures Keyed(s + [e]) && InTurn(s + [e])
  {
    hide SameRow, Turn;
    assert forall i :: 0 <= i < |s| ==> s[i] in s;
  }

  lemma {:induction false} KeyedCount(a: seq<Transition>, e: Transition)
    requires Keyed(a)
    ensures multiset(a)[e] == if e in a then 1 else 0
  {
    if a != [] {
      var past, last := a[..|a| - 1], a[|a| - 1];
      KeyedCount(past, e);
      assert a == past + [last];
      LastApart(a);
    }
  }

  lemma LastApart(a: seq<Transition>)
    requires Keyed(a) && a != []
    ensures a[|a| - 1] !in a[..|a| - 1]
  {
    var past := a[..|a| - 1];
    assert forall i :: 0 <= i < |past| ==> past[i] == a[i];
  }

  lemma KeyedSame(a: seq<Transition>, b: seq<Transition>)
    requires Keyed(a) && Keyed(b) && forall e :: e in a <==> e in b
    ensures multiset(a) == multiset(b)
  {
    hide Keyed;
    forall e ensures multiset(a)[e] == multiset(b)[e] {
      KeyedCount(a, e);
      KeyedCount(b, e);
    }
  }

  lemma TurnsRanked(items: seq<Transition>, log: seq<Transition>, k: ProcKey)
    requires Keyed(items) && Keyed(log) && InTurn(log) && forall e :: e in log ==> e in items
    ensures Ranked(items, OfKey(log, k))
  {
    hide Before, SameRow, Turn, OfKey, Ranked;
    OfKeyRanked(items, log, k);
    forall i, j | 0 <= i < j < |log| && log[i].key == log[j].key == k ensures Before(items, log[i], log[j]) {
      TurnIsRank(items, log[i], log[j]);
    }
  }

  /** Each process's rows come back in the order of the log. */
  lemma OnlySame(log: seq<Transition>, r: seq<Transition>, k: ProcKey)
    requires Keyed(log) && InTurn(log) && Cropped(log, r)
    ensures OfKey(Only(log, r), k) == OfKey(r, k)
  {
    hide Keyed, InTurn, Ranked, OfKey, Only;
    var s := Only(log, r);
    OnlyInTurn(log, r);
    KeyedSame(s, r);
    SameOfKey(s, r, k);
    TurnsRanked(log, s, k);
    TurnsRanked(log, r, k);
    RankedUnique(log, OfKey(s, k), OfKey(r, k));
  }

  /** A log whose starts and stops are those of runs, one at a time. */
  ghost predicate Collected(log: seq<Transition>) {
    Stamped(log) && Alternates(log)
  }

  /** Of each process it still knows, `r` leaves open what the log leaves open. */
  ghost predicate OpensAs(r: seq<Transition>, log: seq<Transition>) {
    forall k :: OfKey(r, k) != [] ==> OpenAt(r, k) == OpenAt(log, k)
  }

  /** Whether a log is a collector's, and what it leaves open, depends on each process alone. */
  lemma SameCollected(a: seq<Transition>, b: seq<Transition>, log: seq<Transition>)
    requires forall k :: OfKey(a, k) == OfKey(b, k)
    ensures Collected(a) ==> Collected(b)
    ensures OpensAs(a, log) ==> OpensAs(b, log)
    ensures forall k :: OpenAt(a, k) == OpenAt(b, k)
  {
    hide OfKey, Open, NoStopTwice, Stamped;
    forall k ensures OpenAt(a, k) == OpenAt(b, k) {
      OpenOfKey(a, k);
      OpenOfKey(b, k);
    }
    if Stamped(a) {
      forall k ensures Stamped(OfKey(b, k)) {
        StampedOfKey(a, k);
      }
      StampedByKey(b);
    }
  }

  // ---- when the rest is a collector's log --------------------------------

  /** Up to a point of the log: what was read back is collected, and agrees on each process it knows. */
  ghost predicate Tracks(log: seq<Transition>, r: seq<Transition>) {
    Collected(Only(log, r)) && OpensAs(Only(log, r), log)
  }

  lemma OnlySnoc(log: seq<Transition>, e: Transition, r: seq<Transition>)
    ensures Only(log + [e], r) == if e in r then Only(log, r) + [e] else Only(log, r)
  {
    assert (log + [e])[..|log|] == log;
  }

  lemma KnownRow(log: seq<Transition>, k: ProcKey)
    ensures OfKey(log, k) != [] <==> exists e :: e in log && e.key == k
  {
    hide OfKey;
    if OfKey(log, k) != [] {
      OfKeyIn(log, k, OfKey(log, k)[0]);
    }
    if e :| e in log && e.key == k {
      OfKeyIn(log, k, e);
    }
  }

  lemma SnocKnown(log: seq<Transition>, e: Transition, k: ProcKey)
    ensures OfKey(log + [e], k) != [] <==> k == e.key || OfKey(log, k) != []
    ensures OpenAt(log + [e], k) ==
            if k != e.key then OpenAt(log, k) else if e.stopped then None else Some(e.at)
  {
    OfKeySnoc(log + [e], k);
    assert (log + [e])[..|log|] == log;
    OpenAppend(log, e);
    hide OfKey;
  }

  /** One transition more that was read back. */
  lemma ReadTracks(past: seq<Transition>, e: Transition, r: seq<Transition>)
    requires Tracks(past, r) && e in r && Collected(past + [e])
    ensures Tracks(past + [e], r)
  {
    hide Stamped, Alternates, OfKey, Open, Only;
    var s := Only(past, r);
    OnlySnoc(past, e, r);
    CollectedStep(past, e);
    KnownInLog(past, r, e.key);
    LastOfKey(s, e.key);
    LastOfKey(past, e.key);
    StampedAppend(s, e);
    AlternatesAppend(s, e);
    forall k | OfKey(s + [e], k) != [] ensures OpenAt(s + [e], k) == OpenAt(past + [e], k) {
      SnocKnown(s, e, k);
      SnocKnown(past, e, k);
    }
  }

  lemma CollectedStep(past: seq<Transition>, e: Transition)
    requires Collected(past + [e])
    ensures Collected(past) && Fits(past, e) && MayFollow(past, e)
  {
    assert (past + [e])[..|past|] == past;
    AlternatesBefore(past, e);
    AlternatesAppend(past, e);
    hide Alternates;
  }

  lemma AlternatesBefore(past: seq<Transition>, e: Transition)
    requires Alternates(past + [e])
    ensures Alternates(past)
  {
    forall k ensures NoStopTwice(OfKey(past, k)) {
      assert NoStopTwice(OfKey(past + [e], k));
      OfKeySnoc(past + [e], k);
      assert (past + [e])[..|past|] == past;
      if k == e.key {
        FirstAlternates(OfKey(past, k), e);
      }
    }
  }

  lemma FirstAlternates(one: seq<Transition>, e: Transition)
    requires NoStopTwice(one + [e])
    ensures NoStopTwice(one)
  {
    var longer := one + [e];
    assert forall i :: 0 <= i < |one| ==> longer[i] == one[i];
  }

  lemma KnownInLog(log: seq<Transition>, r: seq<Transition>, k: ProcKey)
    ensures OfKey(Only(log, r), k) != [] ==> OfKey(log, k) != []
  {
    KnownRow(Only(log, r), k);
    KnownRow(log, k);
    hide OfKey;
  }

  /** A row that was not read back, of a process of which nothing was. */
  lemma LeftTracks(past: seq<Transition>, e: Transition, r: seq<Transition>)
    requires Tracks(past, r) && e !in r && OfKey(Only(past, r), e.key) == []
    ensures Tracks(past + [e], r)
  {
    hide Collected, OfKey, Open, Only;
    OnlySnoc(past, e, r);
    forall k | OfKey(Only(past, r), k) != [] ensures OpenAt(Only(past, r), k) == OpenAt(past + [e], k) {
      SnocKnown(past, e, k);
    }
  }

  lemma PrefixSnoc(log: seq<Transition>, m: nat)
    requires m < |log|
    ensures log[..m + 1] == log[..m] + [log[m]]
  {
  }

  lemma {:induction false} PrefixCollected(log: seq<Transition>, m: nat)
    requires Collected(log) && m <= |log|
    ensures Collected(log[..m])
    decreases |log| - m
  {
    hide Collected;
    if m == |log| {
      assert log[..m] == log;
    } else {
      PrefixCollected(log, m + 1);
      PrefixSnoc(log, m);
      CollectedStep(log[..m], log[m]);
    }
  }

  /** Rows of one process in one second: they differ in kind, so there are at most two. */
  lemma TwoInSecond(log: seq<Transition>, i: nat, j: nat, m: nat)
    requires Keyed(log) && InTurn(log) && i < j < |log| && m < |log| && m != i && m != j
    requires log[i].key == log[j].key == log[m].key && log[i].at == log[j].at
    ensures log[m].at != log[i].at && log[i].stopped != log[j].stopped && !(i < m < j)
    ensures j < m ==> log[m].at > log[i].at
  {
    assert i < m ==> Turn(log[i], log[m]);
    assert m < j ==> Turn(log[m], log[j]);
    assert !SameRow(log[i], log[j]);
    assert i < m ==> !SameRow(log[i], log[m]);
    assert m < i ==> !SameRow(log[m], log[i]);
    assert j < m ==> !SameRow(log[j], log[m]);
    assert m < j ==> !SameRow(log[m], log[j]);
  }

  lemma FollowsOne(log: seq<Transition>, r: seq<Transition>, i: nat, m: nat)
    requires InTurn(log) && Cropped(log, r) && Unsplit(log, r) && i < m < |log| && log[i] in r && log[m] !in r
    ensures log[i].key != log[m].key
  {
    assert Turn(log[i], log[m]);
  }

  /** A row follows one that was read back only if it was read back itself. */
  lemma FollowsRead(log: seq<Transition>, r: seq<Transition>, m: nat)
    requires Keyed(log) && InTurn(log) && Cropped(log, r) && Unsplit(log, r) && m < |log| && log[m] !in r
    ensures OfKey(Only(log[..m], r), log[m].key) == []
  {
    hide OfKey, Only, Keyed;
    var s := Only(log[..m], r);
    KnownRow(s, log[m].key);
    forall g | g in s ensures g.key != log[m].key {
      var i :| 0 <= i < m && log[..m][i] == g;
      FollowsOne(log, r, i, m);
    }
  }

  lemma {:induction false} UnsplitTracks(log: seq<Transition>, r: seq<Transition>, m: nat)
    requires Keyed(log) && InTurn(log) && Collected(log) && Cropped(log, r) && Unsplit(log, r) && m <= |log|
    ensures Tracks(log[..m], r)
  {
    hide Keyed, InTurn, Collected, Cropped, Unsplit, Tracks;
    if m == 0 {
      assert log[..0] == [];
      NothingTracks(r);
    } else {
      UnsplitTracks(log, r, m - 1);
      PrefixSnoc(log, m - 1);
      if log[m - 1] in r {
        PrefixCollected(log, m);
        ReadTracks(log[..m - 1], log[m - 1], r);
      } else {
        FollowsRead(log, r, m - 1);
        LeftTracks(log[..m - 1], log[m - 1], r);
      }
    }
  }

  lemma NothingTracks(r: seq<Transition>)
    ensures Tracks([], r)
  {
  }

  // ---- and when it is not ------------------------------------------------

  /** The process is known, and open in one of the two logs alone. */
  ghost predicate Astray(s: seq<Transition>, log: seq<Transition>, k: ProcKey) {
    OfKey(s, k) != [] && OfKey(log, k) != [] && (k in Open(s) <==> k !in Open(log))
  }

  /** What comes next of a process gone astray does not fit. */
  lemma AstrayNext(s: seq<Transition>, log: seq<Transition>, e: Transition)
    requires Astray(s, log, e.key) && Collected(log + [e])
    ensures !Collected(s + [e])
  {
    hide OfKey, Open, Stamped, Alternates;
    CollectedStep(log, e);
    assert OpenAt(s, e.key).Some? <==> OpenAt(log, e.key).None?;
    if Collected(s + [e]) {
      CollectedStep(s, e);
      assert false;
    }
  }

  lemma AstrayStep(s: seq<Transition>, log: seq<Transition>, e: Transition, k: ProcKey)
    requires Astray(s, log, k) && e.key != k
    ensures Astray(s, log + [e], k) && Astray(s + [e], log + [e], k)
  {
    hide OfKey, Open;
    SnocKnown(s, e, k);
    SnocKnown(log, e, k);
    StillOpen(s, s + [e], k);
    StillOpen(log, log + [e], k);
  }

  /** Once astray, a log is never collected again to its end. */
  lemma {:induction false} AstrayEnds(log: seq<Transition>, r: seq<Transition>, m: nat, k: ProcKey)
    requires Collected(log) && m <= |log|
    requires Astray(Only(log[..m], r), log[..m], k)
    requires forall n :: m <= n < |log| && log[n].key == k ==> log[n] in r
    ensures !Tracks(log, r)
    decreases |log| - m
  {
    hide Collected, OfKey, Open, Only, Astray;
    var s := Only(log[..m], r);
    if m == |log| {
      assert log[..m] == log;
      AstrayTracks(log, r, k);
    } else {
      PrefixSnoc(log, m);
      OnlySnoc(log[..m], log[m], r);
      if log[m].key == k {
        PrefixCollected(log, m + 1);
        AstrayNext(s, log[..m], log[m]);
        UncollectedEnds(log, r, m + 1);
      } else {
        AstrayStep(s, log[..m], log[m], k);
        AstrayEnds(log, r, m + 1, k);
      }
    }
  }

  lemma AstrayTracks(log: seq<Transition>, r: seq<Transition>, k: ProcKey)
    requires Astray(Only(log, r), log, k)
    ensures !Tracks(log, r)
  {
    hide OfKey, Open, Only, Collected;
    assert OpenAt(Only(log, r), k) != OpenAt(log, k);
  }

  lemma {:induction false} UncollectedEnds(log: seq<Transition>, r: seq<Transition>, m: nat)
    requires m <= |log| && !Collected(Only(log[..m], r))
    ensures !Tracks(log, r)
    decreases |log| - m
  {
    hide Collected, Only;
    if m == |log| {
      assert log[..m] == log;
    } else {
      PrefixSnoc(log, m);
      OnlySnoc(log[..m], log[m], r);
      if Collected(Only(log[..m + 1], r)) {
        CollectedStep(Only(log[..m], r), log[m]);
        assert false;
      }
      UncollectedEnds(log, r, m + 1);
    }
  }

  /** Nothing more of a process: it stays as open as it is. */
  lemma {:induction false} Quiet(log: seq<Transition>, r: seq<Transition>, i: nat, m: nat, k: ProcKey)
    requires i < m <= |log| && log[i].key == k && log[i] in r
    requires forall n :: i < n < m ==> log[n].key != k
    ensures OfKey(Only(log[..m], r), k) != []
    ensures k in Open(Only(log[..m], r)) <==> !log[i].stopped
  {
    hide OfKey, Open, Only;
    var past, e := log[..m - 1], log[m - 1];
    PrefixSnoc(log, m - 1);
    OnlySnoc(past, e, r);
    SnocKnown(Only(past, r), e, k);
    if m - 1 > i {
      Quiet(log, r, i, m - 1, k);
      StillOpenAt(Only(past, r), Only(past, r) + [e], k);
    } else {
      OpenSnoc(Only(past, r), e);
    }
  }

  lemma StillOpenAt(log: seq<Transition>, longer: seq<Transition>, k: ProcKey)
    ensures OpenAt(longer, k) == OpenAt(log, k) ==> (k in Open(longer) <==> k in Open(log))
  {
    hide Open;
  }

  lemma OpenSnoc(log: seq<Transition>, e: Transition)
    ensures e.key in Open(log + [e]) <==> !e.stopped
  {
    OpenAppend(log, e);
    hide Open;
  }

  lemma SplitStrays(log: seq<Transition>, r: seq<Transition>, i: nat, j: nat)
    requires Keyed(log) && InTurn(log) && Collected(log) && Cropped(log, r) && i < j < |log|
    requires log[i].key == log[j].key && log[i].at == log[j].at && log[i] in r && log[j] !in r
    ensures !Tracks(log, r)
  {
    hide Keyed, InTurn, Collected, OfKey, Open, Only, Tracks;
    var k := log[i].key;
    forall n | 0 <= n < |log| && log[n].key == k && n != i && n != j
      ensures !(i < n < j) && (j < n ==> log[n] in r)
    {
      TwoInSecond(log, i, j, n);
    }
    KindsDiffer(log, i, j);
    Quiet(log, r, i, j, k);
    PrefixSnoc(log, j);
    OnlySnoc(log[..j], log[j], r);
    OpenSnoc(log[..j], log[j]);
    SnocKnown(log[..j], log[j], k);
    AstrayEnds(log, r, j + 1, k);
  }

  lemma KindsDiffer(log: seq<Transition>, i: nat, j: nat)
    requires Keyed(log) && i < j < |log| && log[i].key == log[j].key && log[i].at == log[j].at
    ensures log[i].stopped != log[j].stopped
  {
    assert !SameRow(log[i], log[j]);
  }

  /** Rows cropped from a collector's log are a collector's log, with the starts of each process they know open as in
      the whole, iff no process has its two transitions of one second split. */
  lemma CroppedCollectedIff(log: seq<Transition>, r: seq<Transition>)
    requires Keyed(log) && InTurn(log) && Collected(log) && Cropped(log, r)
    ensures Collected(r) && OpensAs(r, log) <==> Unsplit(log, r)
  {
    hide Keyed, InTurn, Collected, Cropped, OpensAs, OfKey, Only;
    var s := Only(log, r);
    forall k ensures OfKey(s, k) == OfKey(r, k) {
      OnlySame(log, r, k);
    }
    SameCollected(s, r, log);
    SameCollected(r, s, log);
    if Unsplit(log, r) {
      UnsplitTracks(log, r, |log|);
      assert log[..|log|] == log;
    } else {
      var i, j :| 0 <= i < j < |log| && SameSecond(log[i], log[j]) && log[i] in r && log[j] !in r;
      SplitStrays(log, r, i, j);
    }
  }

  // ---- what makes a cut split, and what it leaves behind -----------------

  /** Where a start is read back, so is the stop that follows it in the same second. */
  predicate NoneCutShort(log: seq<Transition>, r: seq<Transition>) {
    forall i, j :: 0 <= i < j < |log| && SameSecond(log[i], log[j]) && !log[i].stopped && log[i] in r ==> log[j] in r
  }

  /** A stop and the start that follows it in the same second are both visible or both hidden. */
  predicate SwapsTogether(log: seq<Transition>) {
    forall i, j :: 0 <= i < j < |log| && SameSecond(log[i], log[j]) && log[i].stopped ==>
      log[j].stopped || log[i].visible == log[j].visible
  }

  /** The query lists starts before stops, so it never drops the start of a reused process alone. */
  lemma SwapRead(table: set<Transition>, since: int, n: nat, r: seq<Transition>, stop: Transition, start: Transition)
    requires TableCut(table, since, n, r) && KeyedRows(table) && stop in r && start in table
    requires stop.stopped && !start.stopped && stop.key == start.key && stop.at == start.at
    requires stop.visible == start.visible && !SameInstance(stop.workload, start.workload)
    ensures start in r
  {
    hide Ranked, Lists, KeyedRows, SameInstance, InTurn, Newest, Partition, LastRows;
    var hidden, visible, rows :| Cut(table, since, n, hidden, visible, rows, r);
    CutRows(table, since, n, hidden, visible, rows, r);
    ListedKeyed(table, rows);
    RankedInTurn(rows, rows);
    InPartition(table, since, stop);
    InPartition(table, since, start);
    ListsBoth(rows, hidden, visible);
    KeptOf(table, since, n, hidden, visible, rows, stop);
    StartKept(Partition(table, since, stop.visible), n, if stop.visible then visible else hidden, stop, start);
    SwapSuffix(rows, n, stop, start);
  }

  /** A row that was read is among the newest of its own visibility. */
  lemma KeptOf(
    table: set<Transition>, since: int, n: nat, hidden: set<Transition>, visible: set<Transition>,
    rows: seq<Transition>, e: Transition)
    requires Newest(Partition(table, since, false), n, hidden) && Newest(Partition(table, since, true), n, visible)
    requires Lists(rows, hidden + visible) && e in rows
    ensures e in if e.visible then visible else hidden
  {
    assert e in hidden || e in visible;
  }

  lemma StartKept(rows: set<Transition>, n: nat, kept: set<Transition>, stop: Transition, start: Transition)
    requires Newest(rows, n, kept) && stop in kept && start in rows
    requires stop.stopped && !start.stopped && stop.at == start.at
    ensures start in kept
  {
  }

  lemma SwapSuffix(rows: seq<Transition>, n: nat, stop: Transition, start: Transition)
    requires InTurn(rows) && stop in LastRows(rows, n) && start in rows
    requires stop.stopped && !start.stopped && stop.key == start.key && stop.at == start.at
    requires !SameInstance(stop.workload, start.workload)
    ensures start in LastRows(rows, n)
  {
    hide InTurn, SameInstance;
    LastRowsAre(rows, n, stop);
    LastRowsAre(rows, n, start);
    var i: int :| 0 <= i < |rows| && i >= |rows| - n && rows[i] == stop;
    var j :| 0 <= j < |rows| && rows[j] == start;
    SwapOrder(rows, i, j);
  }

  lemma SwapOrder(rows: seq<Transition>, i: nat, j: nat)
    requires InTurn(rows) && i < |rows| && j < |rows|
    requires rows[i].stopped && !rows[j].stopped && rows[i].key == rows[j].key && rows[i].at == rows[j].at
    requires !SameInstance(rows[i].workload, rows[j].workload)
    ensures i < j
  {
    forall x, y | 0 <= x < y < |rows| && rows[x] == rows[j] ensures rows[y] != rows[i] {
      assert Turn(rows[x], rows[y]);
    }
  }

  /** Only a start can lose what follows it in its second. */
  lemma UnsplitIff(table: set<Transition>, since: int, n: nat, log: seq<Transition>, r: seq<Transition>)
    requires TableCut(table, since, n, r) && KeyedRows(table) && forall e :: e in log ==> e in table
    requires Keyed(log) && InTurn(log) && SwapsTogether(log)
    ensures Unsplit(log, r) <==> NoneCutShort(log, r)
  {
    hide TableCut, KeyedRows, Keyed, SameInstance;
    forall i, j | 0 <= i < j < |log| && SameSecond(log[i], log[j]) && log[i] in r
      ensures NoneCutShort(log, r) ==> log[j] in r
    {
      KindsDiffer(log, i, j);
      if log[i].stopped {
        assert Turn(log[i], log[j]);
        SwapRead(table, since, n, r, log[i], log[j]);
      }
    }
  }

  /** A cut between two seconds splits nothing. */
  lemma WholeSecondUnsplit(log: seq<Transition>, r: seq<Transition>, oldest: Transition)
    requires Cropped(log, r) && oldest in r && forall e :: e in r ==> e.at >= oldest.at
    requires forall e :: e in log && e.at == oldest.at ==> e in r
    ensures Unsplit(log, r)
  {
    hide Keyed, InTurn;
  }
}
