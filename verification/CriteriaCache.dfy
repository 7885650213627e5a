/**
  The writer's cache of open incident criteria.  It suppresses criterion
  writes that would change nothing, and is published only on commit.
 */
module CriteriaCache {
  import opened Common
  import opened IncidentRules
  import opened IncidentTracker
  import opened IncidentStore

  type Identity = (string, Key)
  type Cache = map<Identity, Option<int>>

  datatype Item =
    | EventWrite(event: Event)
    | StateWrite(host: string, events: seq<Event>, criteria: seq<(Key, Option<int>)>)
    | OtherWrite

  function EventsOf(item: Item): seq<Event> {
    match item
    case EventWrite(event) => [event]
    case StateWrite(_, events, _) => events
    case OtherWrite => []
  }

  /** The tables after one item is written as it stands. */
  ghost function Written(db: Db, item: Item): Db {
    match item
    case EventWrite(event) => WriteEvent(db, event)
    case StateWrite(host, events, criteria) => WriteState(db, host, events, criteria)
    case OtherWrite => db
  }

  /** The criterion stored for a condition whose newest event is unresolved. */
  ghost function Stored(db: Db, host: string, key: Key): Option<Option<int>> {
    if Unresolved(db.events, host, key) then Lookup(db.criteria, Latest(db.events, host, key).value) else None
  }

  /** Every cached identity's newest event is unresolved and its stored criterion is the cached one. */
  ghost predicate CacheCoherent(cache: Cache, db: Db) {
    forall id :: id in cache ==> Stored(db, id.0, id.1) == Some(cache[id])
  }

  // ---- the events of an item ---------------------------------------------

  /** What the cache knows after an item's first events: it is coherent with them written,
      identities noted as resolved are, and an identity neither cached nor resolved had no event. */
  ghost predicate EventsNoted(db: Db, events: seq<Event>, cache: Cache, resolved: set<Identity>) {
    var written := WriteEvents(db, events);
    && CacheCoherent(cache, written)
    && (forall id :: id in resolved ==> !Unresolved(written.events, id.0, id.1))
    && (forall id: Identity :: id !in cache && id !in resolved ==> Of(events, id.0, id.1) == [])
  }

  /** A new event settles its own identity and no other. */
  lemma EventEffect(db: Db, e: Event, host: string, key: Key)
    requires Below(db, e.id)
    ensures
      var after := WriteEvent(db, e);
      if host == e.host && key == e.key then
        && Unresolved(after.events, host, key) == (e.transition != Resolved)
        && Stored(after, host, key) == (if e.transition != Resolved then Some(e.condition.criticalAt) else None)
      else
        && Unresolved(after.events, host, key) == Unresolved(db.events, host, key)
        && Stored(after, host, key) == Stored(db, host, key)
  {
    LatestAfterEvent(db, e, host, key);
    var newest := Latest(db.events, host, key);
    assert newest.Some? ==> newest.value < e.id;
    hide Latest, Below;
  }

  lemma EventFacts(db: Db, past: seq<Event>, e: Event, id: Identity)
    requires Fresh(db, past + [e])
    ensures
      var before, after := WriteEvents(db, past), WriteEvents(db, past + [e]);
      if id == (e.host, e.key) then
        && Unresolved(after.events, id.0, id.1) == (e.transition != Resolved)
        && Stored(after, id.0, id.1) == (if e.transition != Resolved then Some(e.condition.criticalAt) else None)
      else
        && Unresolved(after.events, id.0, id.1) == Unresolved(before.events, id.0, id.1)
        && Stored(after, id.0, id.1) == Stored(before, id.0, id.1)
        && Of(past + [e], id.0, id.1) == Of(past, id.0, id.1)
  {
    FreshPrefix(db, past + [e]);
    assert (past + [e])[..|past|] == past;
    EventEffect(WriteEvents(db, past), e, id.0, id.1);
    hide Unresolved, Stored;
  }

  lemma NoteEvent(db: Db, past: seq<Event>, e: Event, cache: Cache, resolved: set<Identity>)
    requires Fresh(db, past + [e]) && EventsNoted(db, past, cache, resolved)
    ensures
      var id := (e.host, e.key);
      if e.transition == Resolved then EventsNoted(db, past + [e], cache - {id}, resolved + {id})
      else EventsNoted(db, past + [e], cache[id := e.condition.criticalAt], resolved - {id})
  {
    hide Unresolved, Stored, Of, WriteEvents, Fresh;
    var cache', resolved' := cache, resolved;
    if e.transition == Resolved {
      cache', resolved' := cache - {(e.host, e.key)}, resolved + {(e.host, e.key)};
    } else {
      cache', resolved' := cache[(e.host, e.key) := e.condition.criticalAt], resolved - {(e.host, e.key)};
    }
    var after := WriteEvents(db, past + [e]);
    forall id: Identity
      ensures id in cache' ==> Stored(after, id.0, id.1) == Some(cache'[id])
      ensures id in resolved' ==> !Unresolved(after.events, id.0, id.1)
      ensures id !in cache' && id !in resolved' ==> Of(past + [e], id.0, id.1) == []
    {
      EventFacts(db, past, e, id);
    }
  }

  // ---- the criteria of an item -------------------------------------------

  /** What the lookup of a condition's newest event and its companion row finds. */
  datatype Found = NoOpenRow | OpenWithoutCriterion | OpenWith(critical: Option<int>)

  ghost function Select(db: Db, id: Identity): Found {
    if !Unresolved(db.events, id.0, id.1) then NoOpenRow
    else if Stored(db, id.0, id.1).None? then OpenWithoutCriterion
    else OpenWith(Stored(db, id.0, id.1).value)
  }

  /** While criteria are gone through: the cache is coherent with those written so far, and what
      is neither cached nor resolved still is as the table had it before the item. */
  ghost predicate CriteriaNoted(db: Db, current: Db, cache: Cache, resolved: set<Identity>) {
    && CacheCoherent(cache, current)
    && (forall id :: id in resolved ==> !Unresolved(current.events, id.0, id.1))
    && (forall id: Identity :: id !in cache && id !in resolved ==> Select(current, id) == Select(db, id))
  }

  lemma NotedAfterEvents(db: Db, events: seq<Event>, cache: Cache, resolved: set<Identity>)
    requires Fresh(db, events) && EventsNoted(db, events, cache, resolved)
    ensures CriteriaNoted(db, WriteEvents(db, events), cache, resolved)
  {
    var written := WriteEvents(db, events);
    forall id: Identity | id !in cache && id !in resolved ensures Select(written, id) == Select(db, id) {
      RowsAfterEvents(db, events, id.0, id.1);
      var newest := Latest(db.events, id.0, id.1);
      if newest.Some? {
        EventsKeepOldRows(db, events, newest.value);
      }
      hide Latest, WriteEvents;
    }
  }

  /** The effect of one criterion: none where the condition is not open or already has it. */
  lemma CriterionEffect(db: Db, host: string, key: Key, critical: Option<int>)
    ensures
      var after := WriteCriterion(db, host, key, critical);
      && (!Unresolved(db.events, host, key) || Stored(db, host, key) == Some(critical) ==> after == db)
      && (forall id: Identity {:trigger Stored(after, id.0, id.1)} ::
            Stored(after, id.0, id.1) == if id == (host, key) && Unresolved(db.events, host, key) then Some(critical)
                                         else Stored(db, id.0, id.1))
      && after.events == db.events
      && (Stored(db, host, key).Some? ==> Unresolved(db.events, host, key))
  {
  }

  /** One criterion: skipped or not, cached or not, the tables come out as if it had been written. */
  lemma NoteCriterion(
    db: Db, current: Db, cache: Cache, resolved: set<Identity>, host: string, key: Key, critical: Option<int>)
    requires CriteriaNoted(db, current, cache, resolved)
    ensures
      var id := (host, key);
      var after := WriteCriterion(current, host, key, critical);
      if id in resolved || (id !in cache && Select(db, id) == NoOpenRow)
      then after == current
      else
        && CriteriaNoted(db, after, cache[id := critical], resolved)
        && ((if id in cache then cache[id] == critical else Select(db, id) == OpenWith(critical)) ==> after == current)
  {
    CriterionEffect(current, host, key, critical);
    hide Unresolved, Stored, WriteCriterion;
  }

  /** Drop the criteria an item would write for nothing, and bring the batch-local cache up to
      date.  Writing what is left gives the tables the whole item would have given. */
  method Prepare(ghost db: Db, select: Identity -> Found, item: Item, cache: Cache)
    returns (prepared: Item, noted: Cache)
    requires CacheCoherent(cache, db) && Fresh(db, EventsOf(item))
    requires forall id :: select(id) == Select(db, id)
    ensures Written(db, prepared) == Written(db, item)
    ensures CacheCoherent(noted, Written(db, item))
  {
    prepared, noted := item, cache;
    if item == OtherWrite {
      return;
    }
    var resolved;
    noted, resolved := NoteEvents(db, EventsOf(item), cache);
    hide EventsNoted, Fresh, CacheCoherent;
    if item.EventWrite? {
      assert [item.event][..0] == [];
      assert WriteEvents(db, [item.event]) == WriteEvent(db, item.event);
      return;
    }
    var changed;
    changed, noted := Reduce(db, select, item, noted, resolved);
    prepared := item.(criteria := changed);
  }

  /** The loop over an item's events. */
  method NoteEvents(ghost db: Db, events: seq<Event>, cache: Cache) returns (noted: Cache, resolved: set<Identity>)
    requires CacheCoherent(cache, db) && Fresh(db, events)
    ensures EventsNoted(db, events, noted, resolved)
  {
    noted, resolved := cache, {};
    for i := 0 to |events|
      invariant EventsNoted(db, events[..i], noted, resolved)
    {
      var e := events[i];
      assert events[..i + 1] == events[..i] + [e];
      NoteEvent(db, events[..i], e, noted, resolved);
      hide EventsNoted, Fresh;
      if e.transition == Resolved {
        noted, resolved := noted - {(e.host, e.key)}, resolved + {(e.host, e.key)};
      } else {
        noted, resolved := noted[(e.host, e.key) := e.condition.criticalAt], resolved - {(e.host, e.key)};
      }
    }
    assert events[..|events|] == events;
  }

  /** The loop over an item's criteria. */
  method Reduce(ghost db: Db, select: Identity -> Found, item: Item, cache: Cache, resolved: set<Identity>)
    returns (changed: seq<(Key, Option<int>)>, noted: Cache)
    requires item.StateWrite? && Fresh(db, item.events) && EventsNoted(db, item.events, cache, resolved)
    requires forall id :: select(id) == Select(db, id)
    ensures Written(db, item.(criteria := changed)) == Written(db, item)
    ensures CacheCoherent(noted, Written(db, item))
  {
    ghost var written := WriteEvents(db, item.events);
    NotedAfterEvents(db, item.events, cache, resolved);
    changed, noted := [], cache;
    for i := 0 to |item.criteria|
      invariant WriteCriteria(written, item.host, changed) == WriteCriteria(written, item.host, item.criteria[..i])
      invariant CriteriaNoted(db, WriteCriteria(written, item.host, item.criteria[..i]), noted, resolved)
    {
      var (key, critical) := item.criteria[i];
      var id := (item.host, key);
      ghost var current := WriteCriteria(written, item.host, item.criteria[..i]);
      assert item.criteria[..i + 1] == item.criteria[..i] + [(key, critical)];
      NoteCriterion(db, current, noted, resolved, item.host, key, critical);
      hide WriteCriteria, WriteCriterion, CriteriaNoted, Select;
      if id in resolved {
        continue;
      }
      var known := if id in noted then Some(noted[id]) else None;
      if id !in noted {
        var found := select(id);
        if found == NoOpenRow {
          continue;
        }
        if found.OpenWith? {
          known := Some(found.critical);
        }
      }
      if known != Some(critical) {
        changed := changed + [(key, critical)];
      }
      noted := noted[id := critical];
    }
    assert item.criteria[..|item.criteria|] == item.criteria;
  }

  // ---- batches -----------------------------------------------------------

  /** A batch written item by item, every criterion in full. */
  ghost function WrittenAll(db: Db, items: seq<Item>): Db {
    if items == [] then db else Written(WrittenAll(db, items[..|items| - 1]), items[|items| - 1])
  }

  function AllEvents(items: seq<Item>): seq<Event> {
    if items == [] then [] else AllEvents(items[..|items| - 1]) + EventsOf(items[|items| - 1])
  }

  lemma WriteEventsIds(db: Db, events: seq<Event>, id: nat)
    requires id in WriteEvents(db, events).events
    ensures id in db.events || exists e :: e in events && e.id == id
  {
  }

  lemma WrittenIds(db: Db, item: Item, id: nat)
    requires id in Written(db, item).events
    ensures id in db.events || exists e :: e in EventsOf(item) && e.id == id
  {
    if item.StateWrite? {
      CriteriaLand(WriteEvents(db, item.events), item.host, item.criteria);
      WriteEventsIds(db, item.events, id);
    }
  }

  lemma {:induction false} WrittenAllIds(db: Db, items: seq<Item>, id: nat)
    requires id in WrittenAll(db, items).events
    ensures id in db.events || exists e :: e in AllEvents(items) && e.id == id
  {
    if items != [] {
      var past, last := items[..|items| - 1], items[|items| - 1];
      WrittenIds(WrittenAll(db, past), last, id);
      if id in WrittenAll(db, past).events {
        WrittenAllIds(db, past, id);
      }
      hide Written, WrittenAll;
    }
  }

  lemma FreshConcat(db: Db, before: seq<Event>, mine: seq<Event>)
    requires Fresh(db, before + mine)
    ensures Fresh(db, before)
    ensures forall i :: 0 <= i < |mine| ==> Below(db, mine[i].id)
    ensures forall i, j :: 0 <= i < j < |mine| ==> mine[i].id < mine[j].id
    ensures forall e, i :: e in before && 0 <= i < |mine| ==> e.id < mine[i].id
  {
    var all := before + mine;
    assert forall i :: 0 <= i < |before| ==> before[i] == all[i];
    assert forall i :: 0 <= i < |mine| ==> mine[i] == all[|before| + i];
    hide Below;
  }

  /** Each item of a fresh batch is fresh when its turn comes. */
  lemma NothingWritten(db: Db)
    ensures WrittenAll(db, []) == db
  {
  }

  lemma WrittenSnoc(db: Db, past: seq<Item>, item: Item)
    ensures WrittenAll(db, past + [item]) == Written(WrittenAll(db, past), item)
  {
    hide Written;
    assert (past + [item])[..|past|] == past;
  }

  lemma NextItemFresh(db: Db, past: seq<Item>, item: Item)
    requires Fresh(db, AllEvents(past + [item]))
    ensures Fresh(db, AllEvents(past)) && Fresh(WrittenAll(db, past), EventsOf(item))
  {
    assert (past + [item])[..|past|] == past;
    var before, mine := AllEvents(past), EventsOf(item);
    FreshConcat(db, before, mine);
    var written := WrittenAll(db, past);
    forall i | 0 <= i < |mine| ensures Below(written, mine[i].id) {
      assert Below(db, mine[i].id);
      forall id | id in written.events ensures id < mine[i].id {
        WrittenAllIds(db, past, id);
      }
    }
    hide WrittenAll, AllEvents, EventsOf, Below;
  }

  lemma PruneKeepsFresh(db: Db, expired: Stamp -> bool, events: seq<Event>)
    requires Fresh(db, events)
    ensures Fresh(Prune(db, expired), events)
  {
  }

  lemma PruneKeepsCoherent(db: Db, expired: Stamp -> bool, cache: Cache)
    requires CacheCoherent(cache, db)
    ensures CacheCoherent(cache, Prune(db, expired))
  {
    forall id | id in cache ensures Stored(Prune(db, expired), id.0, id.1) == Some(cache[id]) {
      PruneKeepsLatest(db.events, expired, id.0, id.1);
      hide Latest, LatestOpened, Protected;
    }
  }

  /** How an attempt to commit ends. */
  datatype Attempt = Commits | DatabaseFull | OtherError

  /** The statements the writer sends, as the functions they compute. */
  datatype Sql = Sql(
    select: (Db, Identity) -> Found,
    write: (Db, Item) -> Db,
    prune: (Db, Stamp -> bool) -> Db)
  {
    ghost predicate Faithful() {
      && (forall db, id :: select(db, id) == Select(db, id))
      && (forall db, item :: write(db, item) == Written(db, item))
      && (forall db, expired :: prune(db, expired) == Prune(db, expired))
    }
  }

  class Writer {
    const sql: Sql
    var db: Db
    var cache: Cache
    var dropped: nat
    /** The tables of a writer without any cache, given the same commits and prunes. */
    ghost var uncached: Db

    ghost predicate Valid()
      reads this
    {
      sql.Faithful() && CacheCoherent(cache, db) && db == uncached
    }

    /** A writer starts on whatever the file holds, with an empty cache. */
    constructor (sql: Sql, db: Db)
      requires sql.Faithful()
      ensures Valid() && this.sql == sql && this.db == db && cache == map[] && dropped == 0
    {
      this.sql, this.db, cache, dropped, uncached := sql, db, map[], 0, db;
    }

    method PruneBatch(expired: Stamp -> bool, works: bool) returns (ok: bool)
      requires Valid()
      modifies this`db, this`uncached
      ensures Valid() && ok == works
      ensures uncached == if works then Prune(old(uncached), expired) else old(uncached)
    {
      ok := works;
      if works {
        PruneKeepsCoherent(db, expired, cache);
        db := sql.prune(db, expired);
        uncached := Prune(uncached, expired);
      }
    }

    /** One transaction's worth of writes against a copy of the cache. */
    method Transaction(items: seq<Item>) returns (tables: Db, noted: Cache)
      requires Valid() && Fresh(db, AllEvents(items))
      ensures tables == WrittenAll(db, items) && CacheCoherent(noted, tables)
    {
      hide CacheCoherent, Fresh, Written, WrittenAll, AllEvents, Select;
      tables, noted := db, cache;
      NothingWritten(db);
      TakeFresh(db, items, 0);
      assert items[..|items|] == items;
      for i := 0 to |items|
        invariant Fresh(db, AllEvents(items[..i]))
        invariant tables == WrittenAll(db, items[..i]) && CacheCoherent(noted, tables)
      {
        assert items[..i + 1] == items[..i] + [items[i]];
        TakeFresh(db, items, i + 1);
        NextItemFresh(db, items[..i], items[i]);
        WrittenSnoc(db, items[..i], items[i]);
        var prepared;
        var current := tables;
        prepared, noted := Prepare(current, id => sql.select(current, id), items[i], noted);
        tables := sql.write(current, prepared);
      }
    }

    /** A batch: commit it, or prune once and retry when the database is full, or drop it.
        The cache is published only on commit. */
    method CommitBatch(items: seq<Item>, first: Attempt, expired: Stamp -> bool, pruneWorks: bool, second: Attempt)
      returns (committed: bool)
      requires Valid() && Fresh(db, AllEvents(items))
      modifies this
      ensures Valid()
      ensures committed == (first == Commits || (first == DatabaseFull && pruneWorks && second == Commits))
      ensures
        var base := if first == DatabaseFull && pruneWorks then Prune(old(uncached), expired) else old(uncached);
        uncached == if committed then WrittenAll(base, items) else base
      ensures dropped == old(dropped) + if committed then 0 else |items|
      ensures !committed ==> cache == old(cache)
    {
      var attempt := first;
      var pruned := false;
      PruneKeepsFresh(db, expired, AllEvents(items));
      hide Fresh, CacheCoherent, Prune, Sql.Faithful;
      while true
        invariant Valid() && Fresh(db, AllEvents(items))
        invariant if pruned then first == DatabaseFull && pruneWorks && attempt == second else attempt == first
        invariant uncached == if pruned then Prune(old(uncached), expired) else old(uncached)
        invariant cache == old(cache) && dropped == old(dropped)
        decreases !pruned
      {
        var tables, noted := Transaction(items);
        if attempt != Commits {
          if !pruned && attempt == DatabaseFull {
            var ok := PruneBatch(expired, pruneWorks);
            if ok {
              pruned, attempt := true, second;
              continue;
            }
          }
          dropped := dropped + |items|;
          return false;
        }
        db, cache := tables, noted;
        uncached := WrittenAll(uncached, items);
        return true;
      }
    }
  }

  lemma TakeFresh(db: Db, items: seq<Item>, n: nat)
    requires Fresh(db, AllEvents(items)) && n <= |items|
    ensures Fresh(db, AllEvents(items[..n]))
    decreases |items| - n
  {
    hide Fresh, WrittenAll, AllEvents, EventsOf;
    if n < |items| {
      TakeFresh(db, items, n + 1);
      assert items[..n + 1] == items[..n] + [items[n]];
      NextItemFresh(db, items[..n], items[n]);
    } else {
      assert items[..n] == items;
    }
  }
}
