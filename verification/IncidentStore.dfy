/**
  The durable incident log: the event table with its companion criteria,
  retention, what a restart reads back, and the writes that feed it.
 */
module IncidentStore {
  import opened Common
  import opened IncidentRules
  import opened IncidentTracker
  import opened IncidentRuns

  datatype Row = Row(
    host: string,
    key: Key,
    severity: Severity,
    value: Option<int>,
    threshold: Option<int>,
    conditionObservedAt: Stamp,
    transition: Transition,
    observedAt: Stamp)

  datatype Db = Db(events: map<nat, Row>, criteria: map<nat, Option<int>>)

  function RowOf(e: Event): Row {
    Row(e.host, e.key, e.condition.severity, e.condition.value, e.condition.threshold, e.condition.observedAt,
        e.transition, e.observedAt)
  }

  // ---- the latest rows of a condition ------------------------------------

  ghost function IdsOf(events: map<nat, Row>, host: string, key: Key): set<nat> {
    set id | id in events && events[id].host == host && events[id].key == key
  }

  ghost function OpenedIdsOf(events: map<nat, Row>, host: string, key: Key): set<nat> {
    set id | id in events && events[id].host == host && events[id].key == key && events[id].transition == Opened
  }

  ghost function Top(ids: set<nat>): Option<nat> {
    if ids == {} then None else Some(Greatest(ids))
  }

  /** max(event_id) of one condition. */
  ghost function Latest(events: map<nat, Row>, host: string, key: Key): (id: Option<nat>)
    ensures id.Some? ==> id.value in events && events[id.value].host == host && events[id.value].key == key
  {
    Top(IdsOf(events, host, key))
  }

  /** max(event_id) of one condition's opened rows. */
  ghost function LatestOpened(events: map<nat, Row>, host: string, key: Key): (id: Option<nat>)
    ensures id.Some? ==> id.value in events
  {
    Top(OpenedIdsOf(events, host, key))
  }

  ghost predicate Unresolved(events: map<nat, Row>, host: string, key: Key) {
    var id := Latest(events, host, key);
    id.Some? && events[id.value].transition != Resolved
  }

  lemma TopIs(ids: set<nat>, id: nat)
    requires id in ids && forall j :: j in ids ==> j <= id
    ensures Top(ids) == Some(id)
  {
  }

  lemma TopWithin(ids: set<nat>, fewer: set<nat>)
    requires fewer <= ids && (Top(ids).Some? ==> Top(ids).value in fewer)
    ensures Top(fewer) == Top(ids)
  {
  }

  // ---- retention ---------------------------------------------------------

  /** Rows retention never deletes: the latest of every condition, and the newest opening
      of every condition that is still open. */
  ghost predicate Protected(events: map<nat, Row>, id: nat)
    requires id in events
  {
    var row := events[id];
    || Latest(events, row.host, row.key) == Some(id)
    || (Unresolved(events, row.host, row.key) && LatestOpened(events, row.host, row.key) == Some(id))
  }

  ghost function PrunedEvents(events: map<nat, Row>, expired: Stamp -> bool): map<nat, Row> {
    map id | id in events && (!expired(events[id].observedAt) || Protected(events, id)) :: events[id]
  }

  /** One prune: expired unprotected rows go, then criteria of rows that no longer exist. */
  ghost function Prune(db: Db, expired: Stamp -> bool): Db {
    var kept := PrunedEvents(db.events, expired);
    Db(kept, map id | id in db.criteria && id in kept :: db.criteria[id])
  }

  lemma PruneKeepsLatest(events: map<nat, Row>, expired: Stamp -> bool, host: string, key: Key)
    ensures
      var kept := PrunedEvents(events, expired);
      && Latest(kept, host, key) == Latest(events, host, key)
      && Unresolved(kept, host, key) == Unresolved(events, host, key)
      && (Unresolved(events, host, key) ==> LatestOpened(kept, host, key) == LatestOpened(events, host, key))
  {
    var kept := PrunedEvents(events, expired);
    TopWithin(IdsOf(events, host, key), IdsOf(kept, host, key));
    if Unresolved(events, host, key) {
      TopWithin(OpenedIdsOf(events, host, key), OpenedIdsOf(kept, host, key));
    }
  }

  /** The policy line of a numeric condition, in hundredths, recovered when no criterion was stored. */
  function LegacyCriticalAt(key: Key, severity: Severity, threshold: Option<int>): Option<int> {
    if severity != Critical then None
    else
      match key
      case Cpu => Some(9500)
      case Memory => Some(9500)
      case Disk(_, _) => Some(9500)
      case GpuMemory(_) => Some(9500)
      case Swap => Some(9000)
      case Pressure(_) => if threshold.Some? then Some(Min(10000, threshold.value * 2)) else None
      case GpuTemperature(_) => if threshold.Some? then Some(threshold.value + 500) else None
      case _ => None
  }

  datatype Resumable = Resumable(
    severity: Severity,
    value: Option<int>,
    threshold: Option<int>,
    observedAt: Stamp,
    criticalAt: Option<int>,
    openedAt: Stamp)

  /** What a restart restores for one condition: its latest row if that is unresolved, the
      stored criterion, and the time of its newest opening. */
  ghost function Restore(db: Db, host: string, key: Key): Option<Resumable> {
    if !Unresolved(db.events, host, key) then None
    else
      var id := Latest(db.events, host, key).value;
      var row := db.events[id];
      var opening := LatestOpened(db.events, host, key);
      var stored := Lookup(db.criteria, id).GetOr(None);
      Some(Resumable(
        row.severity, row.value, row.threshold, row.conditionObservedAt,
        if stored.Some? then stored else LegacyCriticalAt(key, row.severity, row.threshold),
        if opening.Some? then db.events[opening.value].observedAt else row.observedAt))
  }

  /** Retention keeps what restore needs, for any table and any cutoff. */
  lemma PruneKeepsRestored(db: Db, expired: Stamp -> bool, host: string, key: Key)
    ensures Restore(Prune(db, expired), host, key) == Restore(db, host, key)
  {
    PruneKeepsLatest(db.events, expired, host, key);
    hide Latest, LatestOpened, Protected;
  }

  /** Retention keeps the greatest event id, so a restart never reuses one. */
  lemma PruneKeepsGreatestId(db: Db, expired: Stamp -> bool)
    ensures Top(Prune(db, expired).events.Keys) == Top(db.events.Keys)
  {
    if db.events.Keys != {} {
      var id := Greatest(db.events.Keys);
      TopIs(IdsOf(db.events, db.events[id].host, db.events[id].key), id);
      TopWithin(db.events.Keys, Prune(db, expired).events.Keys);
    }
  }

  /** Pruning twice with one cutoff is pruning once. */
  lemma PruneIdempotent(db: Db, expired: Stamp -> bool)
    ensures Prune(Prune(db, expired), expired) == Prune(db, expired)
  {
    var once := PrunedEvents(db.events, expired);
    var twice := PrunedEvents(once, expired);
    forall id | id in once ensures id in twice {
      PruneKeepsLatest(db.events, expired, once[id].host, once[id].key);
    }
    assert twice == once;
  }

  // ---- writes ------------------------------------------------------------

  /** One transition and its companion criterion. */
  function WriteEvent(db: Db, e: Event): Db {
    Db(db.events[e.id := RowOf(e)], db.criteria[e.id := e.condition.criticalAt])
  }

  function WriteEvents(db: Db, events: seq<Event>): Db {
    if events == [] then db else WriteEvent(WriteEvents(db, events[..|events| - 1]), events[|events| - 1])
  }

  /** The upsert of one confirmed criterion: it lands on the latest row of an unresolved condition. */
  ghost function WriteCriterion(db: Db, host: string, key: Key, critical: Option<int>): Db {
    if Unresolved(db.events, host, key)
    then db.(criteria := db.criteria[Latest(db.events, host, key).value := critical])
    else db
  }

  ghost function WriteCriteria(db: Db, host: string, criteria: seq<(Key, Option<int>)>): Db {
    if criteria == [] then db
    else
      var last := criteria[|criteria| - 1];
      WriteCriterion(WriteCriteria(db, host, criteria[..|criteria| - 1]), host, last.0, last.1)
  }

  /** Every row of the table is older than event `id`. */
  ghost predicate Below(db: Db, id: nat) {
    forall j :: j in db.events ==> j < id
  }

  /** Events are numbered above everything the table holds, in order. */
  ghost predicate Fresh(db: Db, events: seq<Event>) {
    && (forall i :: 0 <= i < |events| ==> Below(db, events[i].id))
    && (forall i, j :: 0 <= i < j < |events| ==> events[i].id < events[j].id)
  }

  /** A new greatest row is the latest of its condition and of no other. */
  lemma LatestAfterEvent(db: Db, e: Event, host: string, key: Key)
    requires Below(db, e.id)
    ensures Latest(WriteEvent(db, e).events, host, key)
         == if e.host == host && e.key == key then Some(e.id) else Latest(db.events, host, key)
  {
    var ids := IdsOf(db.events, host, key);
    if e.host == host && e.key == key {
      assert IdsOf(WriteEvent(db, e).events, host, key) == ids + {e.id};
      TopIs(ids + {e.id}, e.id);
    } else {
      assert IdsOf(WriteEvent(db, e).events, host, key) == ids;
    }
  }

  lemma LatestOpenedAfterEvent(db: Db, e: Event, host: string, key: Key)
    requires Below(db, e.id)
    ensures LatestOpened(WriteEvent(db, e).events, host, key)
         == if e.host == host && e.key == key && e.transition == Opened then Some(e.id)
            else LatestOpened(db.events, host, key)
  {
    hide OpenedIdsOf, Top, WriteEvent;
    OpenedIdsAfterEvent(db, e, host, key);
    if e.host == host && e.key == key && e.transition == Opened {
      var ids := OpenedIdsOf(db.events, host, key);
      OpenedIdsBelow(db, e.id, host, key);
      TopIs(ids + {e.id}, e.id);
    }
  }

  lemma OpenedIdsBelow(db: Db, id: nat, host: string, key: Key)
    requires Below(db, id)
    ensures forall j :: j in OpenedIdsOf(db.events, host, key) ==> j < id
  {
  }

  lemma OpenedIdsAfterEvent(db: Db, e: Event, host: string, key: Key)
    requires Below(db, e.id)
    ensures
      var ids := OpenedIdsOf(db.events, host, key);
      OpenedIdsOf(WriteEvent(db, e).events, host, key)
      == if e.host == host && e.key == key && e.transition == Opened then ids + {e.id} else ids
  {
  }

  lemma FreshPrefix(db: Db, events: seq<Event>)
    requires events != [] && Fresh(db, events)
    ensures Fresh(db, events[..|events| - 1])
    ensures Below(WriteEvents(db, events[..|events| - 1]), events[|events| - 1].id)
  {
    var n := |events| - 1;
    var past := events[..n];
    assert forall i :: 0 <= i < n ==> past[i] == events[i];
    if past != [] {
      FreshPrefix(db, past);
      assert past[|past| - 1] == events[n - 1];
    }
  }

  /** The last of a condition's events that opens it. */
  function LastOpened(mine: seq<Event>): Option<Event> {
    if mine == [] then None
    else if mine[|mine| - 1].transition == Opened then Some(mine[|mine| - 1])
    else LastOpened(mine[..|mine| - 1])
  }

  /** After writing a condition's events `mine`, its latest row is the last of them;
      where there are none, its latest row did not move. */
  ghost predicate MovedLatest(before: Db, after: Db, mine: seq<Event>, host: string, key: Key) {
    if mine == [] then Latest(after.events, host, key) == Latest(before.events, host, key)
    else
      var e := mine[|mine| - 1];
      && Latest(after.events, host, key) == Some(e.id)
      && Lookup(after.events, e.id) == Some(RowOf(e))
      && Lookup(after.criteria, e.id) == Some(e.condition.criticalAt)
  }

  /** Likewise for its newest opening. */
  ghost predicate MovedOpening(before: Db, after: Db, mine: seq<Event>, host: string, key: Key) {
    match LastOpened(mine)
    case None => LatestOpened(after.events, host, key) == LatestOpened(before.events, host, key)
    case Some(e) => LatestOpened(after.events, host, key) == Some(e.id) && Lookup(after.events, e.id) == Some(RowOf(e))
  }

  lemma LatestStep(before: Db, middle: Db, mine: seq<Event>, e: Event, host: string, key: Key)
    requires MovedLatest(before, middle, mine, host, key) && Below(middle, e.id)
    ensures
      var longer := mine + if e.host == host && e.key == key then [e] else [];
      MovedLatest(before, WriteEvent(middle, e), longer, host, key)
  {
    LatestAfterEvent(middle, e, host, key);
    hide Latest, RowOf;
    assert mine + [] == mine;
  }

  lemma OpeningStep(before: Db, middle: Db, mine: seq<Event>, e: Event, host: string, key: Key)
    requires MovedOpening(before, middle, mine, host, key) && Below(middle, e.id)
    ensures
      var longer := mine + if e.host == host && e.key == key then [e] else [];
      MovedOpening(before, WriteEvent(middle, e), longer, host, key)
  {
    LatestOpenedAfterEvent(middle, e, host, key);
    hide LatestOpened, RowOf;
    assert mine + [] == mine;
    assert (mine + [e])[..|mine|] == mine;
  }

  /** Writing events moves the newest rows of exactly the conditions they are about. */
  lemma {:induction false} RowsAfterEvents(db: Db, events: seq<Event>, host: string, key: Key)
    requires Fresh(db, events)
    ensures MovedLatest(db, WriteEvents(db, events), Of(events, host, key), host, key)
    ensures MovedOpening(db, WriteEvents(db, events), Of(events, host, key), host, key)
  {
    if events != [] {
      var past, e := events[..|events| - 1], events[|events| - 1];
      FreshPrefix(db, events);
      RowsAfterEvents(db, past, host, key);
      LatestStep(db, WriteEvents(db, past), Of(past, host, key), e, host, key);
      OpeningStep(db, WriteEvents(db, past), Of(past, host, key), e, host, key);
      hide MovedLatest, MovedOpening, Fresh, Below, WriteEvent;
    }
  }

  /** Rows and criteria that were there stay as they were. */
  lemma EventsKeepOldRows(db: Db, events: seq<Event>, id: nat)
    requires Fresh(db, events) && id in db.events
    ensures id in WriteEvents(db, events).events && WriteEvents(db, events).events[id] == db.events[id]
    ensures Lookup(WriteEvents(db, events).criteria, id) == Lookup(db.criteria, id)
  {
  }

  // ---- the log mirrors the tracker ---------------------------------------

  /** The table says of one condition what the tracker says of it. */
  ghost predicate Mirrors(st: KeyState, db: Db, host: string, key: Key) {
    if st.active.None? then !Unresolved(db.events, host, key)
    else
      && st.openedAt.Some?
      && Unresolved(db.events, host, key)
      && var id := Latest(db.events, host, key).value;
      && db.events[id].severity == st.active.value.severity
      && Lookup(db.criteria, id) == Some(st.active.value.criticalAt)
      && (Numeric(key) ==> st.active.value.criticalAt.Some?)
      && var opening := LatestOpened(db.events, host, key);
      && opening.Some?
      && db.events[opening.value].observedAt == st.openedAt.value
  }

  lemma PruneKeepsMirror(st: KeyState, db: Db, expired: Stamp -> bool, host: string, key: Key)
    requires Mirrors(st, db, host, key)
    ensures Mirrors(st, Prune(db, expired), host, key)
  {
    PruneKeepsLatest(db.events, expired, host, key);
    hide Latest, LatestOpened, Protected;
  }

  ghost function WriteState(db: Db, host: string, events: seq<Event>, criteria: seq<(Key, Option<int>)>): Db {
    WriteCriteria(WriteEvents(db, events), host, criteria)
  }

  /** The entries a batch of criteria holds for one key are the active condition's criterion. */
  ghost predicate Projects(criteria: seq<(Key, Option<int>)>, key: Key, st: KeyState) {
    && (forall c :: c in criteria && c.0 == key ==> st.active.Some? && c.1 == st.active.value.criticalAt)
    && (st.active.Some? ==> exists c :: c in criteria && c.0 == key)
  }

  /** Criteria touch the latest rows of unresolved conditions of their host, nothing else. */
  lemma {:induction false} CriteriaLand(db: Db, host: string, criteria: seq<(Key, Option<int>)>)
    ensures WriteCriteria(db, host, criteria).events == db.events
    ensures forall h, k {:trigger Unresolved(db.events, h, k)} ::
      Unresolved(db.events, h, k) && (h != host || forall c :: c in criteria ==> c.0 != k) ==>
        Lookup(WriteCriteria(db, host, criteria).criteria, Latest(db.events, h, k).value)
          == Lookup(db.criteria, Latest(db.events, h, k).value)
  {
    if criteria != [] {
      var past := criteria[..|criteria| - 1];
      CriteriaLand(db, host, past);
      assert forall c :: c in past ==> c in criteria;
      hide IdsOf, Top, Latest, Unresolved;
    }
  }

  lemma {:induction false} CriteriaLandValue(
    db: Db, host: string, criteria: seq<(Key, Option<int>)>, key: Key, v: Option<int>)
    requires Unresolved(db.events, host, key)
    requires forall c :: c in criteria && c.0 == key ==> c.1 == v
    requires exists c :: c in criteria && c.0 == key
    ensures Lookup(WriteCriteria(db, host, criteria).criteria, Latest(db.events, host, key).value) == Some(v)
  {
    var past, last := criteria[..|criteria| - 1], criteria[|criteria| - 1];
    CriteriaLand(db, host, past);
    if last.0 != key {
      var c :| c in criteria && c.0 == key;
      assert c in past;
      CriteriaLandValue(db, host, past, key, v);
    }
    hide IdsOf, Top, Latest, Unresolved;
  }

  /** What the observed host's write does to one of its own conditions. */
  lemma WriteKeepsMirror(
    st: KeyState, db: Db, key: Key, s: Sample, created: seq<Event>, criteria: seq<(Key, Option<int>)>)
    requires Coherent(st) && FromPolicy(s) && CarriesCriterion(s)
    requires st.active.Some? || Step(st, key, s).emitted.None? ==> Mirrors(st, db, s.host, key)
    requires Fresh(db, created) && Reports(Of(created, s.host, key), key, s, Step(st, key, s).emitted)
    requires Projects(criteria, key, Step(st, key, s).state)
    ensures Mirrors(Step(st, key, s).state, WriteState(db, s.host, created, criteria), s.host, key)
  {
    var next := Step(st, key, s).state;
    var written := WriteEvents(db, created);
    RowsAfterEvents(db, created, s.host, key);
    forall id | id in db.events
      ensures id in written.events && written.events[id] == db.events[id]
    {
      EventsKeepOldRows(db, created, id);
    }
    assert RowsKept(db, written);
    StepMirrorsRows(st, db, written, key, s, created);
    CriteriaLand(written, s.host, criteria);
    if next.active.Some? {
      CriteriaLandValue(written, s.host, criteria, key, next.active.value.criticalAt);
    }
    hide IdsOf, OpenedIdsOf, Top, Step, WriteCriteria, WriteEvents;
  }

  /** The part of the mirror that is about event rows. */
  ghost predicate MirrorsRows(st: KeyState, db: Db, host: string, key: Key) {
    if st.active.None? then !Unresolved(db.events, host, key)
    else
      && st.openedAt.Some?
      && Unresolved(db.events, host, key)
      && db.events[Latest(db.events, host, key).value].severity == st.active.value.severity
      && (Numeric(key) ==> st.active.value.criticalAt.Some?)
      && LatestOpened(db.events, host, key).Some?
      && db.events[LatestOpened(db.events, host, key).value].observedAt == st.openedAt.value
  }

  ghost predicate RowsKept(db: Db, written: Db) {
    forall id :: id in db.events ==> id in written.events && written.events[id] == db.events[id]
  }

  /** No event of the condition was written and it did not change. */
  lemma UnmovedMirrors(st: KeyState, next: KeyState, db: Db, written: Db, host: string, key: Key)
    requires Mirrors(st, db, host, key) && RowsKept(db, written)
    requires MovedLatest(db, written, [], host, key) && MovedOpening(db, written, [], host, key)
    requires next.openedAt == st.openedAt && next.active.Some? == st.active.Some?
    requires st.active.Some? ==> next.active.value.severity == st.active.value.severity
    requires Numeric(key) && next.active.Some? ==> next.active.value.criticalAt.Some?
    ensures MirrorsRows(next, written, host, key)
  {
    hide IdsOf, OpenedIdsOf, Top;
  }

  /** One event of the condition was written, and the state is what that event says. */
  lemma MovedMirrors(st: KeyState, next: KeyState, db: Db, written: Db, host: string, key: Key, e: Event)
    requires (st.active.Some? ==> Mirrors(st, db, host, key)) && RowsKept(db, written)
    requires MovedLatest(db, written, [e], host, key) && MovedOpening(db, written, [e], host, key)
    requires next.active.Some? <==> e.transition != Resolved
    requires next.active.Some? ==> next.active.value.severity == e.condition.severity
    requires e.transition == Opened ==> next.openedAt == Some(e.observedAt)
    requires e.transition != Opened ==> st.active.Some? && (next.active.Some? ==> next.openedAt == st.openedAt)
    requires Numeric(key) && next.active.Some? ==> next.active.value.criticalAt.Some?
    ensures MirrorsRows(next, written, host, key)
  {
    hide IdsOf, OpenedIdsOf, Top, LastOpened;
    OneReport([e]);
  }

  lemma StepMirrorsRows(st: KeyState, db: Db, written: Db, key: Key, s: Sample, created: seq<Event>)
    requires Coherent(st) && FromPolicy(s) && CarriesCriterion(s)
    requires st.active.Some? || Step(st, key, s).emitted.None? ==> Mirrors(st, db, s.host, key)
    requires RowsKept(db, written)
    requires Reports(Of(created, s.host, key), key, s, Step(st, key, s).emitted)
    requires MovedLatest(db, written, Of(created, s.host, key), s.host, key)
    requires MovedOpening(db, written, Of(created, s.host, key), s.host, key)
    ensures MirrorsRows(Step(st, key, s).state, written, s.host, key)
  {
    hide Of, Step, MovedLatest, MovedOpening, RowsKept, CarriesCriterion, Latest, LatestOpened, IdsOf, OpenedIdsOf, Top;
    EmissionEffect(st, key, s);
    assert Numeric(key) && st.active.Some? ==> st.active.value.criticalAt.Some?;
    CriterionCarried(st, key, s);
    var mine := Of(created, s.host, key);
    var next := Step(st, key, s).state;
    hide Mirrors, MirrorsRows;
    if Step(st, key, s).emitted.None? {
      UnmovedMirrors(st, next, db, written, s.host, key);
    } else {
      assert mine == [mine[0]];
      MovedMirrors(st, next, db, written, s.host, key, mine[0]);
    }
  }

  lemma OneReport(mine: seq<Event>)
    requires |mine| == 1
    ensures LastOpened(mine) == if mine[0].transition == Opened then Some(mine[0]) else None
  {
    assert mine[..0] == [];
  }

  lemma CriterionCarried(st: KeyState, key: Key, s: Sample)
    requires Coherent(st) && CarriesCriterion(s)
    requires Numeric(key) && st.active.Some? ==> st.active.value.criticalAt.Some?
    ensures Numeric(key) && Step(st, key, s).state.active.Some? ==> Step(st, key, s).state.active.value.criticalAt.Some?
  {
  }

  lemma OfOtherHost(events: seq<Event>, host: string, other: string, key: Key)
    requires other != host && forall i :: 0 <= i < |events| ==> events[i].host == host
    ensures Of(events, other, key) == []
  {
  }

  /** ... and to the conditions it says nothing of, those of every other host among them. */
  lemma WriteKeepsOtherMirror(
    st: KeyState, db: Db, host: string, created: seq<Event>, criteria: seq<(Key, Option<int>)>, other: string, key: Key)
    requires Mirrors(st, db, other, key)
    requires Fresh(db, created) && Of(created, other, key) == []
    requires other != host || forall c :: c in criteria ==> c.0 != key
    ensures Mirrors(st, WriteState(db, host, created, criteria), other, key)
  {
    var written := WriteEvents(db, created);
    RowsAfterEvents(db, created, other, key);
    forall id | id in db.events
      ensures Lookup(written.events, id) == Some(db.events[id])
          && Lookup(written.criteria, id) == Lookup(db.criteria, id)
    {
      EventsKeepOldRows(db, created, id);
    }
    CriteriaLand(written, host, criteria);
    assert Unresolved(written.events, other, key) ==>
        Lookup(WriteCriteria(written, host, criteria).criteria, Latest(written.events, other, key).value)
          == Lookup(written.criteria, Latest(written.events, other, key).value);
    hide IdsOf, OpenedIdsOf, Top, WriteCriteria, WriteEvents, Of;
  }

  // ---- restart -----------------------------------------------------------

  /** The condition a restart builds from a row: cycle counts and margins are not stored. */
  function RestoredCondition(r: Resumable): Condition {
    Condition(r.severity, r.value, r.threshold, r.observedAt, 2, 0, 2, false, r.criticalAt, 0)
  }

  /** The state a rebuilt tracker holds for one condition. */
  ghost function Rebuilt(db: Db, host: string, key: Key, recoveryCycles: int): (st: KeyState)
    ensures Coherent(st) && Settled(st) && Counted(st)
    ensures st.active.Some? ==> st.active.value.recoveryCycles == recoveryCycles
  {
    match Restore(db, host, key)
    case None => Idle
    case Some(r) => Resumed(OpenIncident(host, key, RestoredCondition(r), r.openedAt), recoveryCycles)
  }

  /** The open incidents read back are those of the conditions that can be restored, once each. */
  ghost predicate ReadBack(open: seq<OpenIncident>, db: Db) {
    && (forall i :: 0 <= i < |open| ==>
          var r := Restore(db, open[i].host, open[i].key);
          r.Some? && open[i].condition == RestoredCondition(r.value) && open[i].openedAt == r.value.openedAt)
    && forall host, key :: Restore(db, host, key).Some? ==> Listed(open, host, key)
  }

  ghost predicate Listed(open: seq<OpenIncident>, host: string, key: Key) {
    exists i :: 0 <= i < |open| && open[i].host == host && open[i].key == key
  }

  /** A tracker given what was read back holds the rebuilt state of every condition. */
  lemma {:induction false} ReadBackRebuilds(open: seq<OpenIncident>, host: string, key: Key, recoveryCycles: int)
    ensures
      if Listed(open, host, key) then
        exists i :: 0 <= i < |open| && open[i].host == host && open[i].key == key
                    && RestoredState(open, host, key, recoveryCycles) == Resumed(open[i], recoveryCycles)
      else RestoredState(open, host, key, recoveryCycles) == Idle
  {
    if open != [] {
      var past := open[..|open| - 1];
      assert forall i :: 0 <= i < |past| ==> past[i] == open[i];
      ReadBackRebuilds(past, host, key, recoveryCycles);
    }
  }

  lemma ReadBackState(open: seq<OpenIncident>, db: Db, host: string, key: Key, recoveryCycles: int)
    requires ReadBack(open, db)
    ensures RestoredState(open, host, key, recoveryCycles) == Rebuilt(db, host, key, recoveryCycles)
  {
    hide Restore, RestoredState;
    ReadBackRebuilds(open, host, key, recoveryCycles);
  }

  /** Rows of the table in ascending order, up to the greatest. */
  ghost predicate NewestRows(historical: seq<Event>, db: Db) {
    && (forall i, j :: 0 <= i < j < |historical| ==> historical[i].id < historical[j].id)
    && (forall i :: 0 <= i < |historical| ==> historical[i].id in db.events)
    && (db.events.Keys != {} ==> historical != [] && historical[|historical| - 1].id == Greatest(db.events.Keys))
  }

  /** A tracker that continues after the newest event it retained continues after the greatest row. */
  lemma NextAfterNewest(historical: seq<Event>, db: Db, capacity: nat, next: nat)
    requires NewestRows(historical, db) && capacity > 0
    requires
      var log := Newest(historical, capacity);
      && (forall e :: e in log ==> e.id < next)
      && (next == 1 || exists e :: e in log && next == e.id + 1)
    ensures next == NextAfter(db)
  {
    var log := Newest(historical, capacity);
    assert forall e :: e in log ==> e in historical;
    if db.events.Keys != {} {
      assert log[|log| - 1] == historical[|historical| - 1];
      assert log[|log| - 1] in log;
    }
  }

  lemma RebuiltSame(st: KeyState, db: Db, host: string, key: Key, recoveryCycles: int)
    requires Coherent(st) && Mirrors(st, db, host, key)
    ensures SameCondition(st, Rebuilt(db, host, key, recoveryCycles))
    ensures Mirrors(Rebuilt(db, host, key, recoveryCycles), db, host, key)
  {
    hide IdsOf, OpenedIdsOf, Top;
  }

  lemma RebuiltSimilar(st: KeyState, db: Db, host: string, key: Key, recoveryCycles: int)
    requires Coherent(st) && Mirrors(st, db, host, key) && Settled(st)
    requires st.active.Some? ==> st.active.value.recoveryCycles == recoveryCycles
    ensures Similar(st, Rebuilt(db, host, key, recoveryCycles))
  {
    RebuiltSame(st, db, host, key, recoveryCycles);
    hide Mirrors, Restore;
  }

  // ---- whole runs --------------------------------------------------------

  /** What happens to tracker and log: a sample with the events and criteria it produced
      for its host, a prune, a restart that rebuilds the tracker from the log, or a new inventory
      that keeps only the desired hosts. */
  datatype Op =
    | Observe(sample: Sample, created: seq<Event>, criteria: seq<(Key, Option<int>)>)
    | Retire(expired: Stamp -> bool)
    | Restart(recoveryCycles: int)
    | Remove(desired: set<string>)

  ghost function DbRun(ops: seq<Op>): Db {
    if ops == [] then Db(map[], map[])
    else
      var past, op := DbRun(ops[..|ops| - 1]), ops[|ops| - 1];
      match op
      case Observe(s, created, criteria) => WriteState(past, s.host, created, criteria)
      case Retire(expired) => Prune(past, expired)
      case Restart(_) => past
      case Remove(_) => past
  }

  ghost function KeyRun(ops: seq<Op>, host: string, key: Key): (st: KeyState)
    ensures Coherent(st) && Counted(st)
  {
    if ops == [] then Idle
    else
      var past, op := KeyRun(ops[..|ops| - 1], host, key), ops[|ops| - 1];
      match op
      case Observe(s, _, _) =>
        if s.host == host then
          StepKeepsCoherent(past, key, s); StepKeepsCounted(past, key, s); Step(past, key, s).state
        else past
      case Retire(_) => past
      case Restart(recoveryCycles) => Rebuilt(DbRun(ops[..|ops| - 1]), host, key, recoveryCycles)
      case Remove(desired) => if host in desired then past else Idle
  }

  /** The id after the greatest one in the table. */
  ghost function NextAfter(db: Db): nat {
    match Top(db.events.Keys)
    case None => 1
    case Some(id) => id + 1
  }

  ghost function NextId(ops: seq<Op>): nat {
    if ops == [] then 1
    else
      var past, op := ops[..|ops| - 1], ops[|ops| - 1];
      match op
      case Observe(_, created, _) => NextId(past) + |created|
      case Retire(_) => NextId(past)
      case Restart(_) => NextAfter(DbRun(past))
      case Remove(_) => NextId(past)
  }

  /** What one observation hands to the log is what `Tracker.Update` promises, and the
      projection of the active conditions it leaves. */
  ghost predicate Produced(
    past: seq<Op>, s: Sample, created: seq<Event>, criteria: seq<(Key, Option<int>)>, recoveryCycles: int)
  {
    && FromPolicy(s) && CarriesCriterion(s)
    && (forall k :: k in s.conditions ==> s.conditions[k].recoveryCycles == recoveryCycles)
    && (forall i :: 0 <= i < |created| ==> created[i].host == s.host)
    && Numbered(created, NextId(past))
    && (forall k :: Reports(Of(created, s.host, k), k, s, Step(KeyRun(past, s.host, k), k, s).emitted))
    && (forall k :: Projects(criteria, k, Step(KeyRun(past, s.host, k), k, s).state))
  }

  ghost predicate Honest(ops: seq<Op>, recoveryCycles: int) {
    ops != [] ==>
      && Honest(ops[..|ops| - 1], recoveryCycles)
      && var op := ops[|ops| - 1];
      && (op.Observe? ==> Produced(ops[..|ops| - 1], op.sample, op.created, op.criteria, recoveryCycles))
      && (op.Restart? ==> op.recoveryCycles == recoveryCycles)
  }

  lemma WriteEventsBelow(db: Db, events: seq<Event>, first: nat)
    requires Below(db, first) && Numbered(events, first)
    ensures Below(WriteEvents(db, events), first + |events|)
  {
  }

  /** In every run the log never holds an id the tracker has yet to give out. */
  lemma {:induction false} IdsBelowNext(ops: seq<Op>, recoveryCycles: int)
    requires Honest(ops, recoveryCycles)
    ensures Below(DbRun(ops), NextId(ops))
  {
    if ops != [] {
      var past, op := ops[..|ops| - 1], ops[|ops| - 1];
      IdsBelowNext(past, recoveryCycles);
      if op.Observe? {
        WriteEventsBelow(DbRun(past), op.created, NextId(past));
        CriteriaLand(WriteEvents(DbRun(past), op.created), op.sample.host, op.criteria);
      }
      hide Step, Protected, Honest, Rebuilt;
    }
  }

  // ---- removed hosts -----------------------------------------------------

  /** The condition was active when its host was last removed, and has emitted no transition since. */
  ghost predicate Orphaned(ops: seq<Op>, host: string, key: Key) {
    ops != [] &&
    var past, op := ops[..|ops| - 1], ops[|ops| - 1];
    match op
    case Observe(s, _, _) =>
      Orphaned(past, host, key) && (s.host == host ==> Step(KeyRun(past, host, key), key, s).emitted.None?)
    case Retire(_) => Orphaned(past, host, key)
    case Restart(_) => false
    case Remove(desired) =>
      Orphaned(past, host, key) || (host !in desired && KeyRun(past, host, key).active.Some?)
  }

  /** The state the table still stands for: the tracker's own, or the one a removal dropped. */
  ghost function Recorded(ops: seq<Op>, host: string, key: Key): (st: KeyState)
    ensures Coherent(st)
  {
    if !Orphaned(ops, host, key) then KeyRun(ops, host, key)
    else
      var past := ops[..|ops| - 1];
      if Orphaned(past, host, key) then Recorded(past, host, key) else KeyRun(past, host, key)
  }

  lemma RecordedRuns(ops: seq<Op>, host: string, key: Key)
    requires !Orphaned(ops, host, key)
    ensures Recorded(ops, host, key) == KeyRun(ops, host, key)
  {
    hide Orphaned, KeyRun;
  }

  /** What an observation leaves of the mirror, for a condition of any host. */
  lemma ProducedMirrors(
    past: seq<Op>, s: Sample, created: seq<Event>, criteria: seq<(Key, Option<int>)>, recoveryCycles: int,
    host: string, key: Key)
    requires Produced(past, s, created, criteria, recoveryCycles) && Below(DbRun(past), NextId(past))
    requires Mirrors(Recorded(past, host, key), DbRun(past), host, key)
    requires Orphaned(past, host, key) ==> KeyRun(past, host, key).active.None?
    ensures
      var st := KeyRun(past, host, key);
      var silent := Orphaned(past, host, key) && Step(st, key, s).emitted.None?;
      var next := if s.host != host || silent then Recorded(past, host, key) else Step(st, key, s).state;
      Mirrors(next, WriteState(DbRun(past), s.host, created, criteria), host, key)
  {
    hide KeyRun, DbRun, NextId, Step, Mirrors, WriteState, Orphaned;
    var st, db := KeyRun(past, host, key), DbRun(past);
    assert Fresh(db, created);
    hide Fresh, Below, Numbered;
    if host != s.host {
      OfOtherHost(created, s.host, host, key);
      WriteKeepsOtherMirror(Recorded(past, host, key), db, s.host, created, criteria, host, key);
    } else if Orphaned(past, host, key) && Step(st, key, s).emitted.None? {
      EmissionEffect(st, key, s);
      WriteKeepsOtherMirror(Recorded(past, host, key), db, s.host, created, criteria, host, key);
    } else {
      WriteKeepsMirror(st, db, key, s, created, criteria);
    }
  }

  /** After a step of the run the table stands for the recorded state. */
  lemma StepMirrors(past: seq<Op>, op: Op, recoveryCycles: int, host: string, key: Key)
    requires Honest(past + [op], recoveryCycles) && Below(DbRun(past), NextId(past))
    requires Mirrors(Recorded(past, host, key), DbRun(past), host, key)
    requires Orphaned(past, host, key) ==>
      KeyRun(past, host, key).active.None? && Recorded(past, host, key).active.Some?
    ensures
      var ops := past + [op];
      && Mirrors(Recorded(ops, host, key), DbRun(ops), host, key)
      && (Orphaned(ops, host, key) ==> KeyRun(ops, host, key).active.None? && Recorded(ops, host, key).active.Some?)
  {
    hide Step, Mirrors, WriteState, Prune, Rebuilt, Produced;
    var ops := past + [op];
    assert ops[..|ops| - 1] == past;
    match op {
      case Retire(expired) => PruneKeepsMirror(Recorded(past, host, key), DbRun(past), expired, host, key);
      case Restart(cycles) => RebuiltSame(Recorded(past, host, key), DbRun(past), host, key, cycles);
      case Remove(desired) =>
        if KeyRun(past, host, key).active.None? && !Orphaned(past, host, key) {
          DroppedMirrors(KeyRun(past, host, key), DbRun(past), host, key);
        }
      case Observe(s, created, criteria) =>
        ProducedMirrors(past, s, created, criteria, recoveryCycles, host, key);
        SilentStaysInactive(past, s, created, criteria, recoveryCycles, host, key);
    }
  }

  lemma DroppedMirrors(st: KeyState, db: Db, host: string, key: Key)
    requires Mirrors(st, db, host, key) && st.active.None?
    ensures Mirrors(Idle, db, host, key)
  {
  }

  lemma SilentStaysInactive(
    past: seq<Op>, s: Sample, created: seq<Event>, criteria: seq<(Key, Option<int>)>, recoveryCycles: int,
    host: string, key: Key)
    requires Produced(past, s, created, criteria, recoveryCycles)
    ensures
      var st := KeyRun(past, host, key);
      st.active.None? && Step(st, key, s).emitted.None? ==> Step(st, key, s).state.active.None?
  {
    hide KeyRun, Step, Reports, Projects, Numbered;
    EmissionEffect(KeyRun(past, host, key), key, s);
  }

  /** In every run of samples, prunes, restarts and removals the log mirrors a condition of any host iff the
      condition has emitted a transition since its host was last removed while it was active. */
  lemma {:induction false} LogMirrorsTracker(ops: seq<Op>, recoveryCycles: int, host: string, key: Key)
    requires Honest(ops, recoveryCycles)
    ensures Mirrors(KeyRun(ops, host, key), DbRun(ops), host, key) <==> !Orphaned(ops, host, key)
    ensures Mirrors(Recorded(ops, host, key), DbRun(ops), host, key)
    ensures Orphaned(ops, host, key) ==> KeyRun(ops, host, key).active.None? && Recorded(ops, host, key).active.Some?
    ensures KeyRun(ops, host, key).active.Some? ==>
              KeyRun(ops, host, key).active.value.recoveryCycles == recoveryCycles
  {
    hide Step, Mirrors, WriteState, Prune, Rebuilt, Produced, Recorded, Orphaned;
    if ops == [] {
      NothingMirrored(host, key);
    } else {
      var past, op := ops[..|ops| - 1], ops[|ops| - 1];
      LogMirrorsTracker(past, recoveryCycles, host, key);
      IdsBelowNext(past, recoveryCycles);
      assert past + [op] == ops;
      StepMirrors(past, op, recoveryCycles, host, key);
      OrphanMirrors(ops, host, key);
      if op.Observe? && op.sample.host == host {
        ProducedCycles(past, op.sample, op.created, op.criteria, recoveryCycles);
        CyclesCarried(KeyRun(past, host, key), key, op.sample, recoveryCycles);
      }
    }
  }

  lemma OrphanMirrors(ops: seq<Op>, host: string, key: Key)
    requires Mirrors(Recorded(ops, host, key), DbRun(ops), host, key)
    requires Orphaned(ops, host, key) ==>
      KeyRun(ops, host, key).active.None? && Recorded(ops, host, key).active.Some?
    ensures Mirrors(KeyRun(ops, host, key), DbRun(ops), host, key) <==> !Orphaned(ops, host, key)
  {
    hide KeyRun, DbRun, Orphaned, Unresolved, Latest, LatestOpened;
  }

  lemma NothingMirrored(host: string, key: Key)
    ensures Mirrors(KeyRun([], host, key), DbRun([]), host, key)
    ensures !Orphaned([], host, key) && Recorded([], host, key) == KeyRun([], host, key)
  {
  }

  lemma ProducedCycles(past: seq<Op>, s: Sample, created: seq<Event>, criteria: seq<(Key, Option<int>)>, cycles: int)
    requires Produced(past, s, created, criteria, cycles)
    ensures forall k :: k in s.conditions ==> s.conditions[k].recoveryCycles == cycles
  {
  }

  lemma CyclesCarried(st: KeyState, key: Key, s: Sample, recoveryCycles: int)
    requires Coherent(st)
    requires forall k :: k in s.conditions ==> s.conditions[k].recoveryCycles == recoveryCycles
    requires st.active.Some? ==> st.active.value.recoveryCycles == recoveryCycles
    ensures Step(st, key, s).state.active.Some? ==>
              Step(st, key, s).state.active.value.recoveryCycles == recoveryCycles
  {
  }

  // ---- restart transparency ----------------------------------------------

  /** Every sample of the run was derived under one configuration. */
  ghost predicate Steady(ops: seq<Op>, p: Settings) {
    forall op :: op in ops && op.Observe? ==> UnderPolicy(op.sample, p)
  }

  lemma {:induction false} RunWaits(ops: seq<Op>, p: Settings, host: string, key: Key)
    requires Steady(ops, p)
    ensures Waiting(KeyRun(ops, host, key), key, p)
  {
    hide Step, Waiting, UnderPolicy, Rebuilt;
    if ops == [] {
      NothingWaits(Idle, key, p);
    } else {
      var past, op := ops[..|ops| - 1], ops[|ops| - 1];
      RunWaits(past, p, host, key);
      match op {
        case Observe(s, _, _) =>
          if s.host == host {
            StepKeepsWaiting(KeyRun(past, host, key), key, s, p);
          }
        case Retire(_) =>
        case Restart(cycles) => NothingWaits(Rebuilt(DbRun(past), host, key, cycles), key, p);
        case Remove(desired) => NothingWaits(Idle, key, p);
      }
    }
  }

  lemma NothingWaits(st: KeyState, key: Key, p: Settings)
    requires Settled(st)
    ensures Waiting(st, key, p)
  {
  }

  /** Restart transparency.  After any run, earlier restarts and removals included, and one more prune, a tracker
      rebuilt from the log holds the same active condition with the same severity, criterion and opening time iff
      the condition was not dropped while active and silent since.  If so, and nothing is pending for it, it emits the
      same transitions on every sequence of samples whatever.  In every other case, if the run's samples were all
      derived under one configuration, some future under that very configuration tells the two apart. */
  lemma RestartTransparent(ops: seq<Op>, expired: Stamp -> bool, p: Settings, host: string, key: Key)
    requires Honest(ops, p.recoveryCycles)
    ensures
      var running := KeyRun(ops, host, key);
      var rebuilt := Rebuilt(Prune(DbRun(ops), expired), host, key, p.recoveryCycles);
      && (SameCondition(running, rebuilt) <==> !Orphaned(ops, host, key))
      && (!Orphaned(ops, host, key) && Settled(running) ==>
            forall future :: Log(running, key, future) == Log(rebuilt, key, future))
      && (Steady(ops, p) ==>
            (Indistinguishable(running, rebuilt, host, key, p) <==> !Orphaned(ops, host, key) && Settled(running)))
  {
    hide Restore, Mirrors, Prune, Indistinguishable, Waiting, Steady, Orphaned, Recorded;
    var running := KeyRun(ops, host, key);
    var rebuilt := Rebuilt(Prune(DbRun(ops), expired), host, key, p.recoveryCycles);
    var recorded := Recorded(ops, host, key);
    LogMirrorsTracker(ops, p.recoveryCycles, host, key);
    PruneKeepsMirror(recorded, DbRun(ops), expired, host, key);
    RebuiltSame(recorded, Prune(DbRun(ops), expired), host, key, p.recoveryCycles);
    if Orphaned(ops, host, key) {
      ActiveShows(running, rebuilt, host, key, p);
    } else {
      RecordedRuns(ops, host, key);
      if Steady(ops, p) {
        RunWaits(ops, p, host, key);
        IndistinguishableIff(running, rebuilt, host, key, p);
      }
      if Settled(running) {
        RebuiltSimilar(running, Prune(DbRun(ops), expired), host, key, p.recoveryCycles);
        forall future ensures Log(running, key, future) == Log(rebuilt, key, future) {
          SimilarForever(running, rebuilt, key, future);
        }
      }
    }
  }

  /** Removing a host drops its conditions without a transition, so afterwards the log agrees with the emptied
      tracker exactly for the conditions that were neither active nor left over from an earlier removal; the others
      stay open in it, so a restart brings them back. */
  lemma RemovalKeepsMirrorIff(ops: seq<Op>, desired: set<string>, recoveryCycles: int, host: string, key: Key)
    requires Honest(ops, recoveryCycles) && host !in desired
    ensures
      var next := ops + [Remove(desired)];
      && KeyRun(next, host, key) == Idle
      && (Mirrors(Idle, DbRun(next), host, key) <==>
            KeyRun(ops, host, key).active.None? && !Orphaned(ops, host, key))
      && (!Mirrors(Idle, DbRun(next), host, key) <==> Restore(DbRun(next), host, key).Some?)
  {
    hide IdsOf, OpenedIdsOf, Top;
    var next := ops + [Remove(desired)];
    assert next[..|ops|] == ops;
    LogMirrorsTracker(next, recoveryCycles, host, key);
  }

  /** Conditions of hosts that stay in the inventory are never left over. */
  lemma {:induction false} KeptNotOrphaned(ops: seq<Op>, host: string, key: Key)
    requires forall op :: op in ops && op.Remove? ==> host in op.desired
    ensures !Orphaned(ops, host, key)
  {
    hide KeyRun, Step;
    if ops != [] {
      KeptNotOrphaned(ops[..|ops| - 1], host, key);
    }
  }

  const LOST_GPU := Condition(Critical, None, None, At(0), 1, 0, 2, false, None, 0)

  /** A host loses its GPU in its one sample and is then taken out of the inventory. */
  function RemovedWhileActive(host: string): seq<Op> {
    [Observe(Sample(host, true, At(0), map[GpuAvailability := LOST_GPU], {}),
             [Event(1, host, GpuAvailability, LOST_GPU, Opened, At(0))],
             [(GpuAvailability, None)]),
     Remove({})]
  }

  /** Such a run leaves the log with a condition the tracker does not have, and a restart brings it back. */
  lemma RemovedNotMirrored(host: string)
    ensures
      var ops := RemovedWhileActive(host);
      && Honest(ops, 2) && Orphaned(ops, host, GpuAvailability)
      && !Mirrors(KeyRun(ops, host, GpuAvailability), DbRun(ops), host, GpuAvailability)
      && KeyRun(ops + [Restart(2)], host, GpuAvailability).active.Some?
  {
    var ops := RemovedWhileActive(host);
    hide Step, Produced, WriteState, Restore, Rebuilt;
    FirstSampleHonest(host);
    FirstSampleOpens(host);
    OneMore([], ops[0]);
    OneMore([ops[0]], ops[1]);
    OneMore(ops, Restart(2));
    assert [] + [ops[0]] == [ops[0]] && [ops[0]] + [ops[1]] == ops;
    assert Honest([ops[0]], 2) && Honest(ops, 2);
    assert KeyRun([ops[0]], host, GpuAvailability).active.Some?;
    assert Orphaned(ops, host, GpuAvailability);
    LogMirrorsTracker(ops, 2, host, GpuAvailability);
    RebuiltSame(Recorded(ops, host, GpuAvailability), DbRun(ops), host, GpuAvailability, 2);
  }

  lemma OneMore(past: seq<Op>, op: Op)
    ensures (past + [op])[..|past + [op]| - 1] == past
  {
  }

  lemma FirstSampleOpens(host: string)
    ensures
      var op := RemovedWhileActive(host)[0];
      Step(Idle, GpuAvailability, op.sample) ==
      Outcome(Idle.(active := Some(LOST_GPU), openedAt := Some(At(0)), lastObserved := Some(At(0))),
              Some(Emission(Opened, LOST_GPU)))
  {
  }

  lemma FirstSampleHonest(host: string)
    ensures
      var op := RemovedWhileActive(host)[0];
      Produced([], op.sample, op.created, op.criteria, 2)
  {
    var op := RemovedWhileActive(host)[0];
    FirstSampleOpens(host);
    assert op.created[..0] == [];
    forall k
      ensures Reports(Of(op.created, host, k), k, op.sample, Step(Idle, k, op.sample).emitted)
      ensures Projects(op.criteria, k, Step(Idle, k, op.sample).state)
    {
      if k == GpuAvailability {
        assert (GpuAvailability, None) in op.criteria;
      }
    }
  }
}
