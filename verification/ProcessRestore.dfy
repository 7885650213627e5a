/**
  Putting a device's stored transitions back in order.  The table is keyed by
  time, process and kind and keeps no sequence; the rank of a row decides
  where it goes, and does so rightly exactly for logs whose transitions of
  each process already come in that rank.
 */
module ProcessRestore {
  import opened Common
  import opened ProcessOrder
  import opened ProcessTransitions

  /** No two transitions share the key of the table. */
  predicate Keyed(items: seq<Transition>) {
    forall i, j :: 0 <= i < j < |items| ==> !SameRow(items[i], items[j])
  }

  predicate SameRow(a: Transition, b: Transition) {
    a.at == b.at && a.key == b.key && a.stopped == b.stopped
  }

  /** The start time carried by the row of the same second and process but the other kind. */
  function Twin(items: seq<Transition>, e: Transition): Option<int> {
    if items == [] then None
    else
      var last := items[|items| - 1];
      if SameRow(last, e.(stopped := !e.stopped)) then StartedAt(last.workload) else Twin(items[..|items| - 1], e)
  }

  /** A stop and a start of one second that carry two different start times. */
  predicate Reuse(items: seq<Transition>, e: Transition) {
    var own, twin := StartedAt(e.workload), Twin(items, e);
    own.Some? && twin.Some? && own != twin
  }

  /** Starts come first within their second, except where a pid was reused. */
  predicate Second(items: seq<Transition>, e: Transition) {
    e.stopped != Reuse(items, e)
  }

  predicate Before(items: seq<Transition>, a: Transition, b: Transition) {
    || a.at < b.at
    || (a.at == b.at && (Less(a.key, b.key) || (a.key == b.key && !Second(items, a) && Second(items, b))))
  }

  predicate Ranked(items: seq<Transition>, log: seq<Transition>) {
    forall i, j :: 0 <= i < j < |log| ==> Before(items, log[i], log[j])
  }

  /** The transitions of every process come in the rank of the whole. */
  predicate KeysRanked(log: seq<Transition>) {
    forall i, j :: 0 <= i < j < |log| && log[i].key == log[j].key ==> Before(log, log[i], log[j])
  }

  function OfKey(log: seq<Transition>, k: ProcKey): seq<Transition> {
    if log == [] then []
    else OfKey(log[..|log| - 1], k) + if log[|log| - 1].key == k then [log[|log| - 1]] else []
  }

  // ---- the rank is a strict order on rows --------------------------------

  lemma TwinOf(items: seq<Transition>, e: Transition, f: Transition)
    requires Keyed(items) && f in items && SameRow(f, e.(stopped := !e.stopped))
    ensures Twin(items, e) == StartedAt(f.workload)
  {
    var i :| 0 <= i < |items| && items[i] == f;
    TwinAt(items, e, i);
  }

  lemma {:induction false} TwinAt(items: seq<Transition>, e: Transition, i: nat)
    requires Keyed(items) && i < |items| && SameRow(items[i], e.(stopped := !e.stopped))
    ensures Twin(items, e) == StartedAt(items[i].workload)
  {
    var n := |items| - 1;
    if i < n {
      assert !SameRow(items[i], items[n]);
      TwinAt(items[..n], e, i);
    }
  }

  /** A start and a stop of one second and process: exactly one of them is second. */
  lemma TwinsApart(items: seq<Transition>, a: Transition, b: Transition)
    requires Keyed(items) && a in items && b in items
    requires a.at == b.at && a.key == b.key && a.stopped != b.stopped
    ensures Second(items, a) != Second(items, b)
  {
    TwinOf(items, a, b);
    TwinOf(items, b, a);
  }

  lemma BeforeTotal(items: seq<Transition>, a: Transition, b: Transition)
    requires Keyed(items) && a in items && b in items && !SameRow(a, b)
    ensures Before(items, a, b) || Before(items, b, a)
  {
    hide Second;
    NameTotal(a.key.name, b.key.name);
    if a.at == b.at && a.key == b.key {
      TwinsApart(items, a, b);
    }
  }

  lemma BeforeOnce(items: seq<Transition>, a: Transition, b: Transition)
    requires Before(items, a, b)
    ensures !Before(items, b, a) && a != b
  {
    NameTotal(a.key.name, b.key.name);
    hide Second;
  }

  // ---- putting rows in order ---------------------------------------------

  /** sorted() by rank: no row comes before one of lower rank, and rows of one rank keep the order they came in. */
  method EmissionOrder(items: seq<Transition>) returns (r: seq<Transition>)
    ensures multiset(r) == multiset(items) && NeverBack(items, r)
    ensures forall e :: Tied(items, r, e) == Tied(items, items, e)
    ensures Keyed(items) ==> Ranked(items, r)
  {
    hide Before, Tied, Ranked, NeverBack, Keyed;
    r := [];
    NothingPlaced(items);
    for n := 0 to |items|
      invariant multiset(r) == multiset(items[..n]) && NeverBack(items, r)
      invariant forall e :: Tied(items, r, e) == Tied(items, items[..n], e)
      invariant Keyed(items) ==> Ranked(items, r)
    {
      var e := items[n];
      var at := 0;
      while at < |r| && !Before(items, e, r[at])
        invariant at <= |r|
        invariant forall i :: 0 <= i < at ==> !Before(items, e, r[i])
      {
        at := at + 1;
      }
      AllAfter(items, r, at, e);
      InsertStable(items, r, at, e);
      TiedGrows(items, r, items[..n], e);
      if Keyed(items) {
        FreshRow(items, r, n);
        InsertRow(items, r, at, e);
      }
      assert items[..n + 1] == items[..n] + [e];
      r := r[..at] + [e] + r[at..];
    }
    assert items[..|items|] == items;
  }

  lemma FreshRow(items: seq<Transition>, r: seq<Transition>, n: nat)
    requires Keyed(items) && n < |items| && multiset(r) == multiset(items[..n])
    ensures forall i :: 0 <= i < |r| ==> r[i] in items && !SameRow(r[i], items[n])
  {
    forall i | 0 <= i < |r| ensures r[i] in items && !SameRow(r[i], items[n]) {
      assert r[i] in multiset(items[..n]);
      var j :| 0 <= j < n && items[..n][j] == r[i];
      assert items[j] == r[i];
    }
  }

  predicate NeverBack(items: seq<Transition>, log: seq<Transition>) {
    forall i, j :: 0 <= i < j < |log| ==> !Before(items, log[j], log[i])
  }

  /** The rows that rank neither before nor after `e`. */
  function Tied(items: seq<Transition>, log: seq<Transition>, e: Transition): seq<Transition> {
    if log == [] then []
    else
      var last := log[|log| - 1];
      Tied(items, log[..|log| - 1], e)
      + if Before(items, e, last) || Before(items, last, e) then [] else [last]
  }

  lemma NothingPlaced(items: seq<Transition>)
    ensures NeverBack(items, []) && Ranked(items, [])
    ensures items[..0] == [] && forall e :: Tied(items, [], e) == Tied(items, items[..0], e)
  {
  }

  lemma TiedGrows(items: seq<Transition>, a: seq<Transition>, b: seq<Transition>, e: Transition)
    requires forall f :: Tied(items, a, f) == Tied(items, b, f)
    ensures forall f :: Tied(items, a + [e], f) == Tied(items, b + [e], f)
  {
    hide Tied;
    forall f ensures Tied(items, a + [e], f) == Tied(items, b + [e], f) {
      TiedConcat(items, a, [e], f);
      TiedConcat(items, b, [e], f);
    }
  }

  /** What ranks before something ranks before or after anything else with it. */
  lemma BeforeOrAfter(items: seq<Transition>, a: Transition, b: Transition, c: Transition)
    requires Before(items, a, c)
    ensures Before(items, a, b) || Before(items, b, c)
  {
    NameTotal(a.key.name, b.key.name);
    NameTotal(b.key.name, c.key.name);
    NameTotal(a.key.name, c.key.name);
    hide Second, NameLess;
    if a.at == b.at == c.at && Less(a.key, c.key) && Less(b.key, a.key) {
      LessTransitive(b.key, a.key, c.key);
    }
  }

  lemma AllAfter(items: seq<Transition>, r: seq<Transition>, at: nat, e: Transition)
    requires NeverBack(items, r) && at <= |r| && (at < |r| ==> Before(items, e, r[at]))
    ensures forall i :: at <= i < |r| ==> Before(items, e, r[i])
  {
    hide Before;
    forall i | at < i < |r| ensures Before(items, e, r[i]) {
      BeforeOrAfter(items, e, r[i], r[at]);
    }
  }

  lemma InsertStable(items: seq<Transition>, r: seq<Transition>, at: nat, e: Transition)
    requires at <= |r| && NeverBack(items, r)
    requires forall i :: 0 <= i < at ==> !Before(items, e, r[i])
    requires forall i :: at <= i < |r| ==> Before(items, e, r[i])
    ensures
      var next := r[..at] + [e] + r[at..];
      && NeverBack(items, next) && multiset(next) == multiset(r) + multiset{e}
      && forall f :: Tied(items, next, f) == Tied(items, r + [e], f)
  {
    hide Before, Tied;
    Spliced(r, at, e);
    forall i | at <= i < |r| ensures !Before(items, r[i], e) {
      BeforeNotBack(items, e, r[i]);
    }
    forall f ensures Tied(items, r[..at] + [e] + r[at..], f) == Tied(items, r + [e], f) {
      TiedInserted(items, r, at, e, f);
    }
  }

  lemma BeforeNotBack(items: seq<Transition>, a: Transition, b: Transition)
    requires Before(items, a, b)
    ensures !Before(items, b, a)
  {
    BeforeOnce(items, a, b);
  }

  lemma TiedInserted(items: seq<Transition>, r: seq<Transition>, at: nat, e: Transition, f: Transition)
    requires at <= |r| && forall i :: at <= i < |r| ==> Before(items, e, r[i])
    ensures Tied(items, r[..at] + [e] + r[at..], f) == Tied(items, r + [e], f)
  {
    hide Before, Tied;
    TiedConcat(items, r[..at] + [e], r[at..], f);
    TiedConcat(items, r[..at], [e], f);
    TiedConcat(items, r, [e], f);
    TiedConcat(items, r[..at], r[at..], f);
    assert r[..at] + r[at..] == r;
    if !Before(items, f, e) && !Before(items, e, f) {
      forall i | at <= i < |r| ensures Before(items, f, r[i]) {
        BeforeOrAfter(items, e, f, r[i]);
      }
      NothingTied(items, r[at..], f);
    } else {
      TiedOne(items, e, f);
    }
  }

  lemma TiedOne(items: seq<Transition>, e: Transition, f: Transition)
    requires Before(items, f, e) || Before(items, e, f)
    ensures Tied(items, [e], f) == []
  {
    hide Before;
    assert [e][..0] == [];
  }

  lemma {:induction false} TiedConcat(items: seq<Transition>, a: seq<Transition>, b: seq<Transition>, e: Transition)
    ensures Tied(items, a + b, e) == Tied(items, a, e) + Tied(items, b, e)
  {
    hide Before;
    if b == [] {
      assert a + b == a;
    } else {
      var n := |b| - 1;
      TiedConcat(items, a, b[..n], e);
      assert (a + b)[..|a + b| - 1] == a + b[..n];
    }
  }

  lemma {:induction false} NothingTied(items: seq<Transition>, log: seq<Transition>, e: Transition)
    requires forall i :: 0 <= i < |log| ==> Before(items, e, log[i])
    ensures Tied(items, log, e) == []
  {
    hide Before;
    if log != [] {
      NothingTied(items, log[..|log| - 1], e);
    }
  }

  lemma InsertRow(items: seq<Transition>, r: seq<Transition>, at: nat, e: Transition)
    requires Keyed(items) && e in items && at <= |r| && Ranked(items, r)
    requires forall i :: 0 <= i < |r| ==> r[i] in items && !SameRow(r[i], e)
    requires forall i :: 0 <= i < at ==> !Before(items, e, r[i])
    requires forall i :: at <= i < |r| ==> Before(items, e, r[i])
    ensures Ranked(items, r[..at] + [e] + r[at..])
  {
    hide Before, SameRow, Keyed;
    Spliced(r, at, e);
    forall i | 0 <= i < at ensures Before(items, r[i], e) {
      BeforeTotal(items, r[i], e);
    }
  }

  /** Rows have one ranked order. */
  lemma {:induction false} RankedUnique(items: seq<Transition>, a: seq<Transition>, b: seq<Transition>)
    requires Ranked(items, a) && Ranked(items, b) && multiset(a) == multiset(b)
    ensures a == b
  {
    hide Ranked;
    SameLength(a, b);
    if a != [] {
      var n := |a| - 1;
      LastOf(items, a, b);
      WithoutLast(a);
      WithoutLast(b);
      RankedPrefix(items, a);
      RankedPrefix(items, b);
      RankedUnique(items, a[..n], b[..n]);
    }
  }

  lemma RankedPrefix(items: seq<Transition>, a: seq<Transition>)
    requires a != [] && Ranked(items, a)
    ensures Ranked(items, a[..|a| - 1])
  {
    hide Before;
  }

  lemma WithoutLast(a: seq<Transition>)
    requires a != []
    ensures multiset(a[..|a| - 1]) == multiset(a) - multiset{a[|a| - 1]}
    ensures a == a[..|a| - 1] + [a[|a| - 1]]
  {
    assert a == a[..|a| - 1] + [a[|a| - 1]];
  }

  lemma SameLength(a: seq<Transition>, b: seq<Transition>)
    requires multiset(a) == multiset(b)
    ensures |a| == |b|
  {
    assert |multiset(a)| == |a| && |multiset(b)| == |b|;
  }

  lemma LastOf(items: seq<Transition>, a: seq<Transition>, b: seq<Transition>)
    requires Ranked(items, a) && Ranked(items, b) && multiset(a) == multiset(b) && |a| == |b| > 0
    ensures a[|a| - 1] == b[|b| - 1]
  {
    hide Before;
    var n := |a| - 1;
    assert a[n] in multiset(b) && b[n] in multiset(a);
    var i :| 0 <= i <= n && b[i] == a[n];
    var j :| 0 <= j <= n && a[j] == b[n];
    if i < n && j < n {
      assert Before(items, a[j], a[n]);
      BeforeOnce(items, b[i], b[n]);
    }
  }

  // ---- one process at a time ---------------------------------------------

  lemma OfKeySnoc(log: seq<Transition>, k: ProcKey)
    requires log != []
    ensures
      var past, e := log[..|log| - 1], log[|log| - 1];
      OfKey(log, k) == if e.key == k then OfKey(past, k) + [e] else OfKey(past, k)
  {
  }

  lemma {:induction false} OfKeyCount(log: seq<Transition>, k: ProcKey, e: Transition)
    ensures multiset(OfKey(log, k))[e] == if e.key == k then multiset(log)[e] else 0
  {
    if log != [] {
      OfKeyCount(log[..|log| - 1], k, e);
      assert log == log[..|log| - 1] + [log[|log| - 1]];
    }
  }

  lemma SameOfKey(a: seq<Transition>, b: seq<Transition>, k: ProcKey)
    requires multiset(a) == multiset(b)
    ensures multiset(OfKey(a, k)) == multiset(OfKey(b, k))
  {
    forall e ensures multiset(OfKey(a, k))[e] == multiset(OfKey(b, k))[e] {
      OfKeyCount(a, k, e);
      OfKeyCount(b, k, e);
    }
  }

  lemma {:induction false} OfKeyIn(log: seq<Transition>, k: ProcKey, e: Transition)
    ensures e in OfKey(log, k) <==> e in log && e.key == k
  {
    OfKeyCount(log, k, e);
    assert e in OfKey(log, k) <==> e in multiset(OfKey(log, k));
    assert e in log <==> e in multiset(log);
  }

  /** One process's transitions are ranked when those of its key are, and the other way round. */
  lemma {:induction false} OfKeyRanked(items: seq<Transition>, log: seq<Transition>, k: ProcKey)
    ensures Ranked(items, OfKey(log, k)) <==> InRank(items, log, k)
  {
    hide Before, OfKey, Ranked, InRank;
    if log == [] {
      NothingRanked(items, k);
    } else {
      var n := |log| - 1;
      OfKeyRanked(items, log[..n], k);
      OfKeySnoc(log, k);
      if log[n].key == k {
        LastRanked(items, log, k);
      }
      SplitLast(items, log, k);
    }
  }

  lemma NothingRanked(items: seq<Transition>, k: ProcKey)
    ensures Ranked(items, OfKey([], k)) && InRank(items, [], k)
  {
  }

  lemma SplitLast(items: seq<Transition>, log: seq<Transition>, k: ProcKey)
    requires log != []
    ensures InRank(items, log, k) <==>
      && InRank(items, log[..|log| - 1], k)
      && (log[|log| - 1].key == k ==>
            forall i :: 0 <= i < |log| - 1 && log[i].key == k ==> Before(items, log[i], log[|log| - 1]))
  {
    hide Before;
    var past := log[..|log| - 1];
    assert forall i :: 0 <= i < |past| ==> past[i] == log[i];
  }

  ghost predicate InRank(items: seq<Transition>, log: seq<Transition>, k: ProcKey) {
    forall i, j :: 0 <= i < j < |log| && log[i].key == log[j].key == k ==> Before(items, log[i], log[j])
  }

  lemma LastRanked(items: seq<Transition>, log: seq<Transition>, k: ProcKey)
    requires log != [] && log[|log| - 1].key == k
    ensures
      var n := |log| - 1;
      Ranked(items, OfKey(log, k)) <==>
        Ranked(items, OfKey(log[..n], k)) && forall i :: 0 <= i < n && log[i].key == k ==> Before(items, log[i], log[n])
  {
    hide Before;
    var n := |log| - 1;
    var past := OfKey(log[..n], k);
    assert OfKey(log, k) == past + [log[n]];
    forall i | 0 <= i < n && log[i].key == k ensures exists j :: 0 <= j < |past| && past[j] == log[i] {
      OfKeyIn(log[..n], k, log[i]);
      assert log[..n][i] == log[i];
    }
    forall j | 0 <= j < |past| ensures exists i :: 0 <= i < n && log[i].key == k && log[i] == past[j] {
      OfKeyIn(log[..n], k, past[j]);
    }
    RankedSnoc(items, past, log[n]);
  }

  lemma RankedSnoc(items: seq<Transition>, past: seq<Transition>, e: Transition)
    ensures Ranked(items, past + [e]) <==>
      Ranked(items, past) && forall j :: 0 <= j < |past| ==> Before(items, past[j], e)
  {
    hide Before;
    var longer := past + [e];
    assert longer[|past|] == e && forall j :: 0 <= j < |past| ==> longer[j] == past[j];
  }

  /** What a log leaves open of a process, and whether it is a collector's log, is a matter of each process alone. */
  lemma {:induction false} OpenOfKey(log: seq<Transition>, k: ProcKey)
    ensures k in Open(log) <==> k in Open(OfKey(log, k))
    ensures k in Open(log) ==> Open(log)[k] == Open(OfKey(log, k))[k]
  {
    if log != [] {
      var past, e := log[..|log| - 1], log[|log| - 1];
      OpenOfKey(past, k);
      OfKeySnoc(log, k);
      hide OfKey;
      if e.key == k {
        OpenAppend(OfKey(past, k), e);
      }
    }
  }

  lemma {:induction false} StampedOfKey(log: seq<Transition>, k: ProcKey)
    requires Stamped(log)
    ensures Stamped(OfKey(log, k))
  {
    if log != [] {
      var past, e := log[..|log| - 1], log[|log| - 1];
      StampedOfKey(past, k);
      OfKeySnoc(log, k);
      hide OfKey;
      if e.key == k {
        OpenOfKey(past, k);
        StampedAppend(OfKey(past, k), e);
      }
    }
  }

  lemma {:induction false} StampedByKey(log: seq<Transition>)
    requires forall k :: Stamped(OfKey(log, k))
    ensures Stamped(log)
  {
    if log != [] {
      var past, e := log[..|log| - 1], log[|log| - 1];
      forall k ensures Stamped(OfKey(past, k)) {
        StampedBefore(log, k);
      }
      StampedByKey(past);
      OpenOfKey(past, e.key);
      StampedBefore(log, e.key);
    }
  }

  lemma StampedBefore(log: seq<Transition>, k: ProcKey)
    requires log != [] && Stamped(OfKey(log, k))
    ensures
      var past, e := log[..|log| - 1], log[|log| - 1];
      Stamped(OfKey(past, k)) && (e.key == k ==> Fits(OfKey(past, k), e))
  {
    var past, e := log[..|log| - 1], log[|log| - 1];
    OfKeySnoc(log, k);
    hide OfKey;
    if e.key == k {
      assert OfKey(log, k)[..|OfKey(log, k)| - 1] == OfKey(past, k);
    }
  }

  /** Ordering the stored rows by rank gives every process its transitions as they were emitted iff they were emitted
      in rank: at times that never fall back, and within one second a start before its stop or, where the two carry
      different start times, after it. */
  lemma OrderRestoredIff(log: seq<Transition>, r: seq<Transition>)
    requires Keyed(log) && multiset(r) == multiset(log) && Ranked(log, r)
    ensures (forall k :: OfKey(r, k) == OfKey(log, k)) <==> KeysRanked(log)
  {
    hide Ranked, OfKey, InRank, KeysRanked;
    KeysInRank(log);
    if KeysRanked(log) {
      forall k ensures OfKey(r, k) == OfKey(log, k) {
        OrderOfKey(log, r, k);
      }
    } else {
      var k :| !InRank(log, log, k);
      OrderOfKey(log, r, k);
    }
  }

  lemma OrderOfKey(log: seq<Transition>, r: seq<Transition>, k: ProcKey)
    requires multiset(r) == multiset(log) && Ranked(log, r)
    ensures InRank(log, log, k) <==> OfKey(r, k) == OfKey(log, k)
  {
    RankedInRank(log, r);
    hide Before, Ranked, OfKey, InRank;
    OfKeyRanked(log, r, k);
    OfKeyRanked(log, log, k);
    SameOfKey(r, log, k);
    if InRank(log, log, k) {
      RankedUnique(log, OfKey(r, k), OfKey(log, k));
    }
  }

  lemma RankedInRank(items: seq<Transition>, r: seq<Transition>)
    requires Ranked(items, r)
    ensures forall k :: InRank(items, r, k)
  {
    hide Before;
  }

  lemma KeysInRank(log: seq<Transition>)
    ensures KeysRanked(log) <==> forall k :: InRank(log, log, k)
  {
    hide Before;
    if forall k :: InRank(log, log, k) {
      forall i, j | 0 <= i < j < |log| && log[i].key == log[j].key ensures Before(log, log[i], log[j]) {
        assert InRank(log, log, log[i].key);
      }
    }
  }

  /** A collector's log emitted in rank is restored as one, with the same starts open. */
  lemma RestoredStamped(log: seq<Transition>, r: seq<Transition>)
    requires Keyed(log) && multiset(r) == multiset(log) && Ranked(log, r) && KeysRanked(log)
    ensures Open(r) == Open(log)
    ensures Stamped(log) ==> Stamped(r)
  {
    hide Before, Stamped, OfKey;
    OrderRestoredIff(log, r);
    forall k
      ensures k in Open(r) <==> k in Open(log)
      ensures k in Open(r) ==> Open(r)[k] == Open(log)[k]
    {
      OpenOfKey(r, k);
      OpenOfKey(log, k);
    }
    assert Open(r) == Open(log);
    if Stamped(log) {
      forall k ensures Stamped(OfKey(r, k)) {
        StampedOfKey(log, k);
      }
      StampedByKey(r);
    }
  }
}
