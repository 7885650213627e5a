/**
  Transitions of one device's processes: building them, the starts a log
  leaves open, and settling restored starts against the first live table.
 */
module ProcessTransitions {
  import opened Common
  import opened ProcessOrder

  datatype Workload = Workload(startedAt: Option<int>, owner: Option<string>)

  datatype Process = Process(workload: Option<Workload>, firstSeen: int)

  type Table = map<ProcKey, Process>

  datatype Transition = Transition(
    at: int, stopped: bool, key: ProcKey, workload: Option<Workload>, firstSeen: Option<int>, visible: bool)

  function ProcessTransition(at: int, stopped: bool, key: ProcKey, p: Process, visible: bool): Transition {
    Transition(at, stopped, key, p.workload, Some(p.firstSeen), visible)
  }

  function StartedAt(w: Option<Workload>): Option<int> {
    if w.Some? then w.value.startedAt else None
  }

  /** Different only when both carry a start time and the times differ. */
  predicate SameInstance(a: Option<Workload>, b: Option<Workload>) {
    StartedAt(a).None? || StartedAt(b).None? || StartedAt(a) == StartedAt(b)
  }

  // ---- what a log leaves open --------------------------------------------

  function Apply(open: map<ProcKey, Transition>, e: Transition): map<ProcKey, Transition> {
    if e.stopped then open - {e.key} else open[e.key := e]
  }

  function Open(log: seq<Transition>): map<ProcKey, Transition> {
    if log == [] then map[] else Apply(Open(log[..|log| - 1]), log[|log| - 1])
  }

  /** When the open run of a key started, if one is open. */
  function OpenAt(log: seq<Transition>, k: ProcKey): Option<int> {
    if k in Open(log) then Some(Open(log)[k].at) else None
  }

  function FirstSeen(live: Table, k: ProcKey): Option<int> {
    if k in live then Some(live[k].firstSeen) else None
  }

  /** The log's open runs are exactly the live processes, first seen when their start says. */
  ghost predicate LogMatches(log: seq<Transition>, live: Table) {
    forall k :: OpenAt(log, k) == FirstSeen(live, k)
  }

  method OpenTransitions(log: seq<Transition>) returns (open: map<ProcKey, Transition>)
    ensures open == Open(log)
  {
    open := map[];
    for i := 0 to |log|
      invariant open == Open(log[..i])
    {
      var e := log[i];
      if e.stopped {
        open := open - {e.key};
      } else {
        open := open[e.key := e];
      }
      assert log[..i + 1][..i] == log[..i];
    }
    assert log[..|log|] == log;
  }

  lemma OpenAppend(log: seq<Transition>, e: Transition)
    ensures Open(log + [e]) == Apply(Open(log), e)
  {
  }

  lemma OpenIsStart(log: seq<Transition>, k: ProcKey)
    requires k in Open(log)
    ensures Open(log)[k].key == k && !Open(log)[k].stopped && Open(log)[k] in log
  {
  }

  // ---- batches of transitions --------------------------------------------

  function Emitted(keys: seq<ProcKey>, table: Table, at: int, stopped: bool, visible: bool): seq<Transition>
    requires forall k :: k in keys ==> k in table
  {
    if keys == [] then []
    else
      var k := keys[|keys| - 1];
      Emitted(keys[..|keys| - 1], table, at, stopped, visible) + [ProcessTransition(at, stopped, k, table[k], visible)]
  }

  lemma {:induction false} OpenEmitted(
    log: seq<Transition>, keys: seq<ProcKey>, table: Table, at: int, stopped: bool, visible: bool, k: ProcKey)
    requires forall k :: k in keys ==> k in table
    ensures
      OpenAt(log + Emitted(keys, table, at, stopped, visible), k) ==
      if k !in keys then OpenAt(log, k) else if stopped then None else Some(at)
  {
    var added := Emitted(keys, table, at, stopped, visible);
    if keys == [] {
      assert log + added == log;
    } else {
      var past := keys[..|keys| - 1];
      var last := keys[|keys| - 1];
      OpenEmitted(log, past, table, at, stopped, visible, k);
      var before := Emitted(past, table, at, stopped, visible);
      var e := ProcessTransition(at, stopped, last, table[last], visible);
      OpenAppend(log + before, e);
      assert log + before + [e] == log + added;
    }
  }

  method Emit(keys: seq<ProcKey>, table: Table, at: int, stopped: bool, visible: bool)
    returns (added: seq<Transition>)
    requires forall k :: k in keys ==> k in table
    ensures added == Emitted(keys, table, at, stopped, visible)
  {
    added := [];
    for i := 0 to |keys|
      invariant added == Emitted(keys[..i], table, at, stopped, visible)
    {
      added := added + [ProcessTransition(at, stopped, keys[i], table[keys[i]], visible)];
      assert keys[..i + 1][..i] == keys[..i];
    }
    assert keys[..|keys|] == keys;
  }

  /** A same-key process that is a new instance: its old run stops and a new one starts. */
  function Replaced(keys: seq<ProcKey>, previous: Table, current: Table, at: int): seq<Transition>
    requires forall k :: k in keys ==> k in previous && k in current
  {
    if keys == [] then []
    else
      var k := keys[|keys| - 1];
      Replaced(keys[..|keys| - 1], previous, current, at)
      + [ProcessTransition(at, true, k, previous[k], true), ProcessTransition(at, false, k, current[k], true)]
  }

  lemma {:induction false} OpenReplaced(
    log: seq<Transition>, keys: seq<ProcKey>, previous: Table, current: Table, at: int, k: ProcKey)
    requires forall k :: k in keys ==> k in previous && k in current
    ensures OpenAt(log + Replaced(keys, previous, current, at), k) == if k in keys then Some(at) else OpenAt(log, k)
  {
    var added := Replaced(keys, previous, current, at);
    if keys == [] {
      assert log + added == log;
    } else {
      var past := keys[..|keys| - 1];
      var last := keys[|keys| - 1];
      OpenReplaced(log, past, previous, current, at, k);
      var before := log + Replaced(past, previous, current, at);
      var stop := ProcessTransition(at, true, last, previous[last], true);
      var start := ProcessTransition(at, false, last, current[last], true);
      OpenAppend(before, stop);
      OpenAppend(before + [stop], start);
      assert before + [stop] + [start] == log + added;
    }
  }

  // ---- restored starts ---------------------------------------------------

  /** The stop that ends a restored start, anchored at the start's own first observation. */
  function CloseStart(e: Transition, at: int, visible: bool): Transition {
    var firstSeen := if e.firstSeen.Some? then e.firstSeen else Some(e.at);
    e.(at := at, stopped := true, firstSeen := firstSeen, visible := visible)
  }

  function Closures(keys: seq<ProcKey>, open: map<ProcKey, Transition>, at: int, hidden: bool): seq<Transition>
    requires forall k :: k in keys ==> k in open
  {
    if keys == [] then []
    else
      var e := open[keys[|keys| - 1]];
      Closures(keys[..|keys| - 1], open, at, hidden) + [CloseStart(e, at, !hidden && e.visible)]
  }

  lemma {:induction false} OpenClosures(
    log: seq<Transition>, keys: seq<ProcKey>, open: map<ProcKey, Transition>, at: int, hidden: bool, k: ProcKey)
    requires forall k :: k in keys ==> k in open && open[k].key == k
    ensures OpenAt(log + Closures(keys, open, at, hidden), k) == if k in keys then None else OpenAt(log, k)
  {
    var added := Closures(keys, open, at, hidden);
    if keys == [] {
      assert log + added == log;
    } else {
      var past := keys[..|keys| - 1];
      var e := open[keys[|keys| - 1]];
      OpenClosures(log, past, open, at, hidden, k);
      var before := log + Closures(past, open, at, hidden);
      OpenAppend(before, CloseStart(e, at, !hidden && e.visible));
      assert before + [CloseStart(e, at, !hidden && e.visible)] == log + added;
    }
  }

  method CloseAll(keys: seq<ProcKey>, open: map<ProcKey, Transition>, at: int, hidden: bool)
    returns (added: seq<Transition>)
    requires forall k :: k in keys ==> k in open
    ensures added == Closures(keys, open, at, hidden)
  {
    added := [];
    for i := 0 to |keys|
      invariant added == Closures(keys[..i], open, at, hidden)
    {
      added := added + [CloseStart(open[keys[i]], at, !hidden && open[keys[i]].visible)];
      assert keys[..i + 1][..i] == keys[..i];
    }
    assert keys[..|keys|] == keys;
  }

  predicate Continues(open: map<ProcKey, Transition>, current: Table, k: ProcKey) {
    k in open && k in current && SameInstance(open[k].workload, current[k].workload)
  }

  /** Restored runs still listed go on from their restored first observation. */
  function Inherited(open: map<ProcKey, Transition>, current: Table): Table {
    map k | k in current ::
      if Continues(open, current, k) then current[k].(firstSeen := open[k].at) else current[k]
  }

  function Orphans(open: map<ProcKey, Transition>, current: Table): set<ProcKey> {
    set k | k in open && !Continues(open, current, k)
  }

  function Newcomers(open: map<ProcKey, Transition>, current: Table): set<ProcKey> {
    set k | k in current && !Continues(open, current, k)
  }

  ghost function Reconciliation(
    log: seq<Transition>, current: Table, at: int, previousPoint: Option<int>): seq<Transition>
  {
    Closures(Sorted(Orphans(Open(log), current)), Open(log), previousPoint.GetOr(at), false)
    + Emitted(Sorted(Newcomers(Open(log), current)), current, at, false, true)
  }

  /** After the first live table the log and the table agree, whatever the log was. */
  lemma ReconcileMatches(log: seq<Transition>, current: Table, at: int, previousPoint: Option<int>)
    requires forall k :: k in current ==> current[k].firstSeen == at
    ensures LogMatches(log + Reconciliation(log, current, at, previousPoint), Inherited(Open(log), current))
  {
    hide Sorted, SameInstance;
    var open := Open(log);
    var closes := Closures(Sorted(Orphans(open, current)), open, previousPoint.GetOr(at), false);
    var starts := Emitted(Sorted(Newcomers(open, current)), current, at, false, true);
    assert log + Reconciliation(log, current, at, previousPoint) == log + closes + starts;
    forall k ensures OpenAt(log + closes + starts, k) == FirstSeen(Inherited(open, current), k) {
      forall o | o in open ensures open[o].key == o {
        OpenIsStart(log, o);
      }
      OpenClosures(log, Sorted(Orphans(open, current)), open, previousPoint.GetOr(at), false, k);
      OpenEmitted(log + closes, Sorted(Newcomers(open, current)), current, at, false, true, k);
    }
  }

  lemma ContinuesListed(open: map<ProcKey, Transition>, current: Table)
    ensures forall k :: Continues(open, current, k) ==> k in open && k in current
  {
  }

  /** The table and the orphans once all restored starts but `left` have been visited. */
  predicate Visited(
    open: map<ProcKey, Transition>, current: Table, left: set<ProcKey>, live: Table, orphans: set<ProcKey>)
  {
    && left <= open.Keys
    && live == Inherited(map k | k in open && k !in left :: open[k], current)
    && orphans == Orphans(map k | k in open && k !in left :: open[k], current)
  }

  lemma VisitNext(
    open: map<ProcKey, Transition>, current: Table, left: set<ProcKey>, live: Table, orphans: set<ProcKey>, k: ProcKey)
    requires Visited(open, current, left, live, orphans) && k in left
    ensures Continues(open, current, k) ==>
      k in live && Visited(open, current, left - {k}, live[k := live[k].(firstSeen := open[k].at)], orphans)
    ensures !Continues(open, current, k) ==> Visited(open, current, left - {k}, live, orphans + {k})
  {
    hide SameInstance;
  }

  lemma VisitAll(open: map<ProcKey, Transition>, current: Table, live: Table, orphans: set<ProcKey>)
    ensures Visited(open, current, open.Keys, current, {})
    ensures Visited(open, current, {}, live, orphans) ==>
              live == Inherited(open, current) && orphans == Orphans(open, current)
  {
    hide SameInstance;
    assert (map k | k in open && k !in {} :: open[k]) == open;
  }

  /** The loop over the restored starts; `current` takes over their first observations. */
  method Inherit(open: map<ProcKey, Transition>, current: Table) returns (live: Table, orphans: set<ProcKey>)
    ensures live == Inherited(open, current)
    ensures orphans == Orphans(open, current)
  {
    hide Continues, Visited;
    ContinuesListed(open, current);
    live, orphans := current, {};
    var left := open.Keys;
    VisitAll(open, current, live, orphans);
    while left != {}
      invariant left <= open.Keys
      invariant Visited(open, current, left, live, orphans)
      decreases |left|
    {
      var k :| k in left;
      VisitNext(open, current, left, live, orphans, k);
      if Continues(open, current, k) {
        live := live[k := live[k].(firstSeen := open[k].at)];
      } else {
        orphans := orphans + {k};
      }
      left := left - {k};
    }
    VisitAll(open, current, live, orphans);
  }

  method Reconcile(log: seq<Transition>, current: Table, at: int, previousPoint: Option<int>)
    returns (live: Table, added: seq<Transition>)
    ensures live == Inherited(Open(log), current)
    ensures added == Reconciliation(log, current, at, previousPoint)
  {
    hide SameInstance, Sorted, Open;
    var open := OpenTransitions(log);
    var orphans;
    live, orphans := Inherit(open, current);
    var ended := Sort(orphans);
    var closes := CloseAll(ended, open, previousPoint.GetOr(at), false);
    var begun := Sort(set k | k in current && !Continues(open, current, k));
    var starts := Emit(begun, current, at, false, true);
    added := closes + starts;
  }

  // ---- what a collector's log looks like ---------------------------------

  /** Starts open a run that is not open and are their own first observation; a stop carries the first
      observation of the run it ends.  Every suffix of such a log is one too. */
  ghost predicate Stamped(log: seq<Transition>) {
    log == [] ||
    var past := log[..|log| - 1];
    var e := log[|log| - 1];
    Stamped(past) && Fits(past, e)
  }

  predicate Fits(past: seq<Transition>, e: Transition) {
    if e.stopped then e.firstSeen.Some? && (OpenAt(past, e.key).Some? ==> OpenAt(past, e.key) == e.firstSeen)
    else e.firstSeen == Some(e.at) && OpenAt(past, e.key) == None
  }

  lemma StampedAppend(log: seq<Transition>, e: Transition)
    requires Stamped(log) && Fits(log, e)
    ensures Stamped(log + [e])
  {
  }

  lemma OpenIsStamped(log: seq<Transition>, k: ProcKey)
    requires Stamped(log) && k in Open(log)
    ensures Open(log)[k].firstSeen == Some(Open(log)[k].at)
  {
  }

  lemma {:induction false} StopsStamped(log: seq<Transition>, keys: seq<ProcKey>, table: Table, at: int, visible: bool)
    requires Stamped(log)
    requires forall k :: k in keys ==> k in table && (OpenAt(log, k).Some? ==> OpenAt(log, k) == FirstSeen(table, k))
    ensures Stamped(log + Emitted(keys, table, at, true, visible))
  {
    hide OpenAt;
    if keys == [] {
      assert log + Emitted(keys, table, at, true, visible) == log;
    } else {
      var past := keys[..|keys| - 1];
      var k := keys[|keys| - 1];
      var before := Emitted(past, table, at, true, visible);
      var e := ProcessTransition(at, true, k, table[k], visible);
      StopsStamped(log, past, table, at, visible);
      OpenEmitted(log, past, table, at, true, visible, k);
      StampedAppend(log + before, e);
      Snoc(log, before, e);
    }
  }

  lemma {:induction false} StartsStamped(log: seq<Transition>, keys: seq<ProcKey>, table: Table, at: int, visible: bool)
    requires Stamped(log) && NoDuplicates(keys)
    requires forall k :: k in keys ==> k in table && OpenAt(log, k) == None && table[k].firstSeen == at
    ensures Stamped(log + Emitted(keys, table, at, false, visible))
  {
    hide OpenAt;
    if keys == [] {
      assert log + Emitted(keys, table, at, false, visible) == log;
    } else {
      var past := keys[..|keys| - 1];
      var k := keys[|keys| - 1];
      var before := Emitted(past, table, at, false, visible);
      var e := ProcessTransition(at, false, k, table[k], visible);
      StartsStamped(log, past, table, at, visible);
      OpenEmitted(log, past, table, at, false, visible, k);
      StampedAppend(log + before, e);
      Snoc(log, before, e);
    }
  }

  lemma {:induction false} ReplacedStamped(
    log: seq<Transition>, keys: seq<ProcKey>, previous: Table, current: Table, at: int)
    requires Stamped(log) && NoDuplicates(keys)
    requires forall k :: k in keys ==> k in previous && k in current
    requires forall k :: k in keys ==> OpenAt(log, k) == FirstSeen(previous, k) && current[k].firstSeen == at
    ensures Stamped(log + Replaced(keys, previous, current, at))
  {
    hide OpenAt;
    if keys == [] {
      assert log + Replaced(keys, previous, current, at) == log;
    } else {
      var past := keys[..|keys| - 1];
      var k := keys[|keys| - 1];
      var before := Replaced(past, previous, current, at);
      var stop := ProcessTransition(at, true, k, previous[k], true);
      var start := ProcessTransition(at, false, k, current[k], true);
      ReplacedStamped(log, past, previous, current, at);
      OpenReplaced(log, past, previous, current, at, k);
      StampedAppend(log + before, stop);
      AfterStop(log + before, stop);
      StampedAppend(log + before + [stop], start);
      SnocTwo(log, before, stop, start);
    }
  }

  lemma AfterStop(log: seq<Transition>, e: Transition)
    requires e.stopped
    ensures OpenAt(log + [e], e.key) == None
  {
  }

  lemma Snoc(log: seq<Transition>, before: seq<Transition>, e: Transition)
    ensures log + (before + [e]) == log + before + [e]
  {
  }

  lemma SnocTwo(log: seq<Transition>, before: seq<Transition>, e: Transition, f: Transition)
    ensures log + (before + [e, f]) == log + before + [e] + [f]
  {
  }

  lemma {:induction false} ClosuresStamped(
    log: seq<Transition>, keys: seq<ProcKey>, open: map<ProcKey, Transition>, at: int, hidden: bool)
    requires Stamped(log) && open == Open(log)
    requires forall k :: k in keys ==> k in open
    ensures Stamped(log + Closures(keys, open, at, hidden))
  {
    hide Open;
    if keys == [] {
      assert log + Closures(keys, open, at, hidden) == log;
    } else {
      var past := keys[..|keys| - 1];
      var k := keys[|keys| - 1];
      var before := Closures(past, open, at, hidden);
      var e := CloseStart(open[k], at, !hidden && open[k].visible);
      ClosuresStamped(log, past, open, at, hidden);
      forall o | o in open ensures open[o].key == o {
        OpenIsStart(log, o);
      }
      OpenIsStamped(log, k);
      OpenClosures(log, past, open, at, hidden, k);
      StampedAppend(log + before, e);
      Snoc(log, before, e);
    }
  }

  lemma ReconcileStamped(log: seq<Transition>, current: Table, at: int, previousPoint: Option<int>)
    requires Stamped(log)
    requires forall k :: k in current ==> current[k].firstSeen == at
    ensures Stamped(log + Reconciliation(log, current, at, previousPoint))
  {
    hide Sorted, SameInstance, Stamped;
    var open := Open(log);
    var ended := Sorted(Orphans(open, current));
    var begun := Sorted(Newcomers(open, current));
    var closes := Closures(ended, open, previousPoint.GetOr(at), false);
    var starts := Emitted(begun, current, at, false, true);
    ClosuresStamped(log, ended, open, previousPoint.GetOr(at), false);
    SortedDistinct(Newcomers(open, current));
    forall k | k in begun ensures OpenAt(log + closes, k) == None {
      forall o | o in open ensures open[o].key == o {
        OpenIsStart(log, o);
      }
      OpenClosures(log, ended, open, previousPoint.GetOr(at), false, k);
    }
    StartsStamped(log + closes, begun, current, at, true);
    assert log + Reconciliation(log, current, at, previousPoint) == log + closes + starts;
  }

  // ---- what a batch consists of ------------------------------------------

  lemma EmittedAre(keys: seq<ProcKey>, table: Table, at: int, stopped: bool, visible: bool, e: Transition)
    requires forall k :: k in keys ==> k in table
    ensures e in Emitted(keys, table, at, stopped, visible) <==>
            e.key in keys && e == ProcessTransition(at, stopped, e.key, table[e.key], visible)
  {
  }

  lemma ClosuresAre(keys: seq<ProcKey>, open: map<ProcKey, Transition>, at: int, hidden: bool, e: Transition)
    requires forall k :: k in keys ==> k in open && open[k].key == k
    ensures e in Closures(keys, open, at, hidden) <==>
            e.key in keys && e == CloseStart(open[e.key], at, !hidden && open[e.key].visible)
  {
  }
}
