/**
  The incident tracker object: six dictionaries per host, a bounded event
  list, and the update that refines `IncidentRules.Step` key by key.
 */
module IncidentTracker {
  import opened Common
  import opened IncidentRules

  datatype Event = Event(
    id: nat,
    host: string,
    key: Key,
    condition: Condition,
    transition: Transition,
    observedAt: Stamp)

  /** What a rebuilt tracker is handed for one condition its log leaves open. */
  datatype OpenIncident = OpenIncident(host: string, key: Key, condition: Condition, openedAt: Stamp)

  function Lookup<K, V>(m: map<K, V>, key: K): Option<V> {
    if key in m then Some(m[key]) else None
  }

  /** Store an entry, or pop it. */
  function Put<K, V>(m: map<K, V>, key: K, value: Option<V>): map<K, V> {
    if value.Some? then m[key := value.value] else m - {key}
  }

  /** The dictionaries of one host. */
  datatype HostTables = HostTables(
    active: map<Key, Condition>,
    candidates: map<Key, Candidate>,
    recoveries: map<Key, nat>,
    changes: map<Key, Change>,
    openedAt: map<Key, Stamp>,
    lastObserved: map<Key, Stamp>)
  {
    function At(key: Key): KeyState {
      KeyState(
        Lookup(active, key),
        Lookup(candidates, key),
        Lookup(recoveries, key).GetOr(0),
        Lookup(changes, key),
        Lookup(openedAt, key),
        Lookup(lastObserved, key))
    }

    function Set(key: Key, st: KeyState): HostTables {
      HostTables(
        Put(active, key, st.active),
        Put(candidates, key, st.candidate),
        Put(recoveries, key, if st.recoveries == 0 then None else Some(st.recoveries)),
        Put(changes, key, st.change),
        Put(openedAt, key, st.openedAt),
        Put(lastObserved, key, st.lastObserved))
    }
  }

  lemma SetAt(t: HostTables, key: Key, st: KeyState)
    ensures forall k :: t.Set(key, st).At(k) == if k == key then st else t.At(k)
  {
  }

  ghost predicate Sound(t: HostTables) {
    forall k {:trigger t.At(k)} :: Coherent(t.At(k))
  }

  const Empty := HostTables(map[], map[], map[], map[], map[], map[])

  function TablesIn(hosts: map<string, HostTables>, host: string): HostTables {
    if host in hosts then hosts[host] else Empty
  }

  /** The events of one condition, in order. */
  function Of(events: seq<Event>, host: string, key: Key): seq<Event> {
    if events == [] then [] else
      var last := events[|events| - 1];
      Of(events[..|events| - 1], host, key) + if last.host == host && last.key == key then [last] else []
  }

  lemma OfExtend(events: seq<Event>, e: seq<Event>, host: string, key: Key)
    requires |e| <= 1 && (e != [] ==> e[0].host == host && e[0].key == key)
    ensures forall k :: Of(events + e, host, k) == if k == key then Of(events, host, k) + e else Of(events, host, k)
  {
    if e == [] {
      assert events + e == events;
    } else {
      assert e == [e[0]];
    }
  }

  /** Exactly the emission `m`, if any, was reported for the key. */
  ghost predicate Reports(mine: seq<Event>, key: Key, s: Sample, m: Option<Emission>) {
    match m
    case None => mine == []
    case Some(m) => |mine| == 1 && mine[0] == Event(mine[0].id, s.host, key, m.condition, m.transition, s.observedAt)
  }

  /** What is left of a key's entries once unconfirmed candidates and interrupted
      severity changes are discarded, before its own reading is looked at. */
  function Trimmed(st: KeyState, key: Key, s: Sample): KeyState {
    var observed := s.Observed(key);
    st.(candidate := if observed.Some? && !observed.value.belowThreshold then st.candidate else None,
        change := if observed.Some? then st.change else None)
  }

  /** A deque with a maximum length keeps the newest entries. */
  function Newest<T>(s: seq<T>, capacity: nat): seq<T> {
    if |s| > capacity then s[|s| - capacity..] else s
  }

  ghost predicate Numbered(events: seq<Event>, first: nat) {
    forall i :: 0 <= i < |events| ==> events[i].id == first + i
  }

  /** A key's entries once the keys in `done` have been looked at. */
  function Expected(st: KeyState, key: Key, s: Sample, done: bool): KeyState
    requires Coherent(st)
  {
    if done then Step(st, key, s).state else Trimmed(st, key, s)
  }

  function Emitted(st: KeyState, key: Key, s: Sample, done: bool): Option<Emission>
    requires Coherent(st)
  {
    if done then Step(st, key, s).emitted else None
  }

  ghost predicate TablesAt(before: HostTables, now: HostTables, s: Sample, done: set<Key>)
    requires Sound(before)
  {
    forall k {:trigger now.At(k)} :: now.At(k) == Expected(before.At(k), k, s, k in done)
  }

  ghost predicate EventsAt(before: HostTables, created: seq<Event>, s: Sample, done: set<Key>)
    requires Sound(before)
  {
    && (forall k {:trigger Of(created, s.host, k)} ::
          Reports(Of(created, s.host, k), k, s, Emitted(before.At(k), k, s, k in done)))
    && (forall i :: 0 <= i < |created| ==> created[i].host == s.host)
  }

  lemma NothingReported(before: HostTables, s: Sample)
    requires Sound(before)
    ensures EventsAt(before, [], s, {})
  {
  }

  lemma TablesAdvance(before: HostTables, now: HostTables, s: Sample, done: set<Key>, key: Key)
    requires Sound(before) && TablesAt(before, now, s, done)
    ensures TablesAt(before, now.Set(key, Step(before.At(key), key, s).state), s, done + {key})
  {
    SetAt(now, key, Step(before.At(key), key, s).state);
    hide Step, Trimmed, HostTables.At, HostTables.Set;
  }

  lemma EventsAdvance(before: HostTables, created: seq<Event>, s: Sample, done: set<Key>, key: Key, e: seq<Event>)
    requires Sound(before) && EventsAt(before, created, s, done) && key !in done
    requires |e| <= 1 && (e != [] ==> e[0].host == s.host && e[0].key == key)
    requires Reports(e, key, s, Step(before.At(key), key, s).emitted)
    ensures EventsAt(before, created + e, s, done + {key})
  {
    OfExtend(created, e, s.host, key);
    assert Reports(Of(created, s.host, key), key, s, Emitted(before.At(key), key, s, false));
    assert forall i :: |created| <= i < |created + e| ==> (created + e)[i] == e[0];
    hide Step, HostTables.At, Of, Coherent, Trimmed;
    forall k ensures Reports(Of(created + e, s.host, k), k, s, Emitted(before.At(k), k, s, k in done + {key})) {
      assert Reports(Of(created, s.host, k), k, s, Emitted(before.At(k), k, s, k in done));
      if k != key {
        assert Of(created + e, s.host, k) == Of(created, s.host, k);
      } else {
        assert Of(created, s.host, k) == [];
        assert Of(created + e, s.host, k) == [] + e == e;
      }
      hide Reports;
    }
  }

  /** Keys nobody looked at keep their trimmed entries, which is what `Step` says of them. */
  lemma AllKeysStepped(before: HostTables, now: HostTables, created: seq<Event>, s: Sample, done: set<Key>)
    requires Sound(before) && TablesAt(before, now, s, done) && EventsAt(before, created, s, done)
    requires forall k :: k !in done ==> s.Observed(k).None? && (before.At(k).active.None? || !s.online)
    ensures forall k :: now.At(k) == Step(before.At(k), k, s).state
    ensures forall k :: Reports(Of(created, s.host, k), k, s, Step(before.At(k), k, s).emitted)
    ensures forall i :: 0 <= i < |created| ==> created[i].host == s.host
    ensures Sound(now)
  {
    forall k
      ensures now.At(k) == Step(before.At(k), k, s).state
      ensures Reports(Of(created, s.host, k), k, s, Step(before.At(k), k, s).emitted)
      ensures Coherent(now.At(k))
    {
      StepKeepsCoherent(before.At(k), k, s);
      assert now.At(k) == Expected(before.At(k), k, s, k in done);
      assert Reports(Of(created, s.host, k), k, s, Emitted(before.At(k), k, s, k in done));
      hide Step, Trimmed, Of, HostTables.At, Reports;
    }
  }

  /** The hosts among these that hold an active condition. */
  ghost function WithActive(hosts: map<string, HostTables>, among: set<string>): set<string> {
    set h | h in among && h in hosts && hosts[h].active != map[]
  }

  lemma NothingDropped(hosts: map<string, HostTables>, removed: set<string>)
    ensures hosts - (removed - removed) == hosts
    ensures WithActive(hosts, removed - removed) == {}
  {
  }

  lemma DropOne(hosts: map<string, HostTables>, removed: set<string>, pending: set<string>, host: string)
    requires host in pending && pending <= removed <= hosts.Keys
    ensures host in hosts - (removed - pending) && (hosts - (removed - pending))[host] == hosts[host]
    ensures hosts - (removed - pending) - {host} == hosts - (removed - (pending - {host}))
    ensures |WithActive(hosts, removed - (pending - {host}))|
         == |WithActive(hosts, removed - pending)| + if hosts[host].active != map[] then 1 else 0
  {
    assert WithActive(hosts, removed - (pending - {host}))
        == if hosts[host].active != map[] then WithActive(hosts, removed - pending) + {host}
           else WithActive(hosts, removed - pending);
  }

  lemma AllDropped(hosts: map<string, HostTables>, desired: set<string>)
    ensures forall host :: TablesIn(hosts - (hosts.Keys - desired), host)
                           == if host in desired then TablesIn(hosts, host) else Empty
    ensures Sound(Empty)
  {
  }

  function Resumed(o: OpenIncident, recoveryCycles: int): KeyState {
    KeyState(Some(o.condition.(recoveryCycles := recoveryCycles)), None, 0, None, Some(o.openedAt),
             Some(o.condition.observedAt))
  }

  /** The state a key resumes: that of the last open incident handed over for it, or none. */
  function RestoredState(open: seq<OpenIncident>, host: string, key: Key, recoveryCycles: int): KeyState {
    if open == [] then Idle
    else
      var last := open[|open| - 1];
      if last.host == host && last.key == key then Resumed(last, recoveryCycles)
      else RestoredState(open[..|open| - 1], host, key, recoveryCycles)
  }

  lemma RestoredCoherent(open: seq<OpenIncident>, host: string, key: Key, recoveryCycles: int)
    ensures Coherent(RestoredState(open, host, key, recoveryCycles))
  {
  }

  lemma RestoreOne(hosts: map<string, HostTables>, open: seq<OpenIncident>, o: OpenIncident, recoveryCycles: int)
    requires forall host, k {:trigger TablesIn(hosts, host).At(k)} ::
      TablesIn(hosts, host).At(k) == RestoredState(open, host, k, recoveryCycles)
    ensures
      var next := hosts[o.host := TablesIn(hosts, o.host).Set(o.key, Resumed(o, recoveryCycles))];
      forall host, k {:trigger TablesIn(next, host).At(k)} ::
        TablesIn(next, host).At(k) == RestoredState(open + [o], host, k, recoveryCycles)
  {
    SetAt(TablesIn(hosts, o.host), o.key, Resumed(o, recoveryCycles));
    hide HostTables.At, HostTables.Set, Resumed;
    var next := hosts[o.host := TablesIn(hosts, o.host).Set(o.key, Resumed(o, recoveryCycles))];
    forall host, k ensures TablesIn(next, host).At(k) == RestoredState(open + [o], host, k, recoveryCycles) {
      assert (open + [o])[..|open|] == open;
      assert TablesIn(hosts, host).At(k) == RestoredState(open, host, k, recoveryCycles);
    }
  }

  /** The tracker.  The six per-host dictionaries of the source are one record per host here:
      an update sets them all, and removing a host drops them all. */
  class Tracker {
    const historyPoints: nat
    var hosts: map<string, HostTables>
    var events: seq<Event>
    var version: nat
    var nextEventId: nat
    /** Every event this object has held since it was built, dropped ones included. */
    ghost var log: seq<Event>

    function Tables(host: string): HostTables
      reads this`hosts
    {
      TablesIn(hosts, host)
    }

    ghost predicate Valid()
      reads this
    {
      && (forall host :: Sound(Tables(host)))
      && events == Newest(log, historyPoints)
      && (forall e :: e in log ==> e.id < nextEventId)
    }

    /** The given open conditions are taken over as established, with their opening times and no transition. */
    constructor (historyPoints: nat, historical: seq<Event>, open: seq<OpenIncident>, recoveryCycles: int)
      ensures Valid() && this.historyPoints == historyPoints
      ensures forall host, k :: Tables(host).At(k) == RestoredState(open, host, k, recoveryCycles)
      ensures log == Newest(historical, historyPoints)
      ensures forall e :: e in log ==> e.id < nextEventId
      ensures nextEventId == 1 || exists e :: e in log && nextEventId == e.id + 1
      ensures version + 1 == nextEventId
    {
      this.historyPoints := historyPoints;
      var retained := Newest(historical, historyPoints);
      var last := 0;
      for i := 0 to |retained|
        invariant forall j :: 0 <= j < i ==> retained[j].id <= last
        invariant last == 0 || exists e :: e in retained && e.id == last
      {
        if retained[i].id > last {
          last := retained[i].id;
        }
      }
      events, log := retained, retained;
      version, nextEventId := last, last + 1;
      var restored: map<string, HostTables> := map[];
      for i := 0 to |open|
        invariant forall host, k {:trigger TablesIn(restored, host).At(k)} ::
          TablesIn(restored, host).At(k) == RestoredState(open[..i], host, k, recoveryCycles)
      {
        var o := open[i];
        var t := TablesIn(restored, o.host);
        RestoreOne(restored, open[..i], o, recoveryCycles);
        restored := restored[o.host := t.Set(o.key, Resumed(o, recoveryCycles))];
        assert open[..i + 1] == open[..i] + [o];
      }
      hosts := restored;
      new;
      assert open[..|open|] == open;
      forall host ensures Sound(Tables(host)) {
        assert Tables(host) == TablesIn(restored, host);
        forall k ensures Coherent(Tables(host).At(k)) {
          RestoredCoherent(open, host, k, recoveryCycles);
        }
      }
      forall host, k ensures Tables(host).At(k) == RestoredState(open, host, k, recoveryCycles) {
        assert Tables(host) == TablesIn(restored, host);
      }
    }

    /** Forget every host that is no longer monitored; no transition is recorded. */
    method RemoveHosts(desired: set<string>)
      requires Valid()
      modifies this`hosts, this`version
      ensures Valid()
      ensures forall host :: Tables(host) == if host in desired then old(Tables(host)) else Empty
      ensures version == old(version) + |WithActive(old(hosts), old(hosts).Keys - desired)|
    {
      var before := hosts;
      var removed := hosts.Keys - desired;
      var pending := removed;
      NothingDropped(before, removed);
      hide WithActive, Sound, Newest;
      while pending != {}
        invariant pending <= removed
        invariant hosts == before - (removed - pending)
        invariant version == old(version) + |WithActive(before, removed - pending)|
        decreases pending
      {
        var host :| host in pending;
        DropOne(before, removed, pending, host);
        pending := pending - {host};
        if hosts[host].active != map[] {
          version := version + 1;
        }
        hosts := hosts - {host};
      }
      assert removed - pending == removed;
      AllDropped(before, desired);
      forall host ensures Sound(Tables(host)) {
        assert Sound(old(Tables(host)));
      }
    }

    method Append(host: string, key: Key, m: Emission, observedAt: Stamp) returns (e: Event)
      requires events == Newest(log, historyPoints) && forall e :: e in log ==> e.id < nextEventId
      modifies this`events, this`version, this`nextEventId, this`log
      ensures e == Event(old(nextEventId), host, key, m.condition, m.transition, observedAt)
      ensures log == old(log) + [e] && events == Newest(log, historyPoints)
      ensures nextEventId == old(nextEventId) + 1 && version == old(version) + 1
      ensures forall e :: e in log ==> e.id < nextEventId
    {
      e := Event(nextEventId, host, key, m.condition, m.transition, observedAt);
      events := Newest(events + [e], historyPoints);
      nextEventId := nextEventId + 1;
      version := version + 1;
      log := log + [e];
    }

    /** One probe result.  Every key of the host takes its `Step`, every other host is
        untouched, and the new events are exactly what the steps emit. */
    method Update(s: Sample) returns (created: seq<Event>)
      requires Valid()
      modifies this
      ensures Valid()
      ensures forall k :: Tables(s.host).At(k) == Step(old(Tables(s.host)).At(k), k, s).state
      ensures forall host :: host != s.host ==> Tables(host) == old(Tables(host))
      ensures forall k :: Reports(Of(created, s.host, k), k, s, Step(old(Tables(s.host)).At(k), k, s).emitted)
      ensures forall i :: 0 <= i < |created| ==> created[i].host == s.host
      ensures Numbered(created, old(nextEventId)) && nextEventId == old(nextEventId) + |created|
      ensures log == old(log) + created
    {
      hide Step, Reports, Of, TablesAt, EventsAt, Newest;
      var before := Tables(s.host);
      var trimmed := Trim(before, s);
      var t, changed := Observe(s, before, trimmed);
      var resolved;
      t, resolved := Recover(s, before, t, changed);
      created := changed + resolved;
      AllKeysStepped(before, t, created, s,
                     if s.online then s.conditions.Keys + before.active.Keys else s.conditions.Keys);
      hide Sound, HostTables.At;
      Store(s.host, t);
    }

    /** Discard the candidates this sample does not confirm and the pending severity changes
        it does not observe. */
    method Trim(before: HostTables, s: Sample) returns (t: HostTables)
      requires Sound(before)
      ensures TablesAt(before, t, s, {})
    {
      var observed := s.conditions;
      var confirming := set k | k in observed && !observed[k].belowThreshold;
      t := before.(candidates := before.candidates - (before.candidates.Keys - confirming),
                   changes := before.changes - (before.changes.Keys - observed.Keys));
      hide Step;
    }

    method Store(host: string, t: HostTables)
      requires Sound(t) && forall h :: Sound(Tables(h))
      modifies this`hosts
      ensures Tables(host) == t && forall h :: h != host ==> Tables(h) == old(Tables(h))
      ensures forall h :: Sound(Tables(h))
    {
      hosts := hosts[host := t];
      forall h ensures Sound(Tables(h)) {
        assert h != host ==> Tables(h) == old(Tables(h));
      }
    }

    /** The loop over the conditions this sample observed. */
    method Observe(s: Sample, before: HostTables, trimmed: HostTables) returns (t: HostTables, created: seq<Event>)
      requires Sound(before) && TablesAt(before, trimmed, s, {})
      requires events == Newest(log, historyPoints) && forall e :: e in log ==> e.id < nextEventId
      modifies this`events, this`version, this`nextEventId, this`log
      ensures TablesAt(before, t, s, s.conditions.Keys) && EventsAt(before, created, s, s.conditions.Keys)
      ensures Numbered(created, old(nextEventId)) && nextEventId == old(nextEventId) + |created|
      ensures log == old(log) + created && events == Newest(log, historyPoints)
      ensures forall e :: e in log ==> e.id < nextEventId
    {
      hide Step, TablesAt, EventsAt, Sound, HostTables.At, HostTables.Set, Of, Newest;
      t, created := trimmed, [];
      var pending := s.conditions.Keys;
      NothingReported(before, s);
      assert s.conditions.Keys - pending == {};
      while pending != {}
        invariant pending <= s.conditions.Keys
        invariant TablesAt(before, t, s, s.conditions.Keys - pending)
        invariant EventsAt(before, created, s, s.conditions.Keys - pending)
        invariant Numbered(created, old(nextEventId)) && nextEventId == old(nextEventId) + |created|
        invariant log == old(log) + created && events == Newest(log, historyPoints)
        invariant forall e :: e in log ==> e.id < nextEventId
        decreases pending
      {
        var key :| key in pending;
        ghost var done := s.conditions.Keys - pending;
        pending := pending - {key};
        assert s.conditions.Keys - pending == done + {key};
        var outcome := StepOf(s, before, t, done, key);
        t := t.Set(key, outcome.state);
        var e := [];
        if outcome.emitted.Some? {
          var appended := Append(s.host, key, outcome.emitted.value, s.observedAt);
          e := [appended];
        }
        EventsAdvance(before, created, s, done, key, e);
        created := created + e;
      }
      assert s.conditions.Keys - pending == s.conditions.Keys;
    }

    /** What the loop bodies compute for one key, from the trimmed entries and the dictionary
        of previously active conditions. */
    method StepOf(s: Sample, before: HostTables, t: HostTables, ghost done: set<Key>, key: Key)
      returns (outcome: Outcome)
      requires Sound(before) && TablesAt(before, t, s, done) && key !in done
      requires key in s.conditions || (s.online && key in before.active)
      ensures outcome == Step(before.At(key), key, s)
      ensures TablesAt(before, t.Set(key, outcome.state), s, done + {key})
    {
      TablesAdvance(before, t, s, done, key);
      var st := t.At(key);
      assert st == Trimmed(before.At(key), key, s);
      if key in s.conditions {
        if key in before.active {
          outcome := Reobserve(st, s.conditions[key]);
        } else {
          outcome := Confirm(st, s.conditions[key]);
        }
        return;
      }
      var unknown := TelemetryUnknown(key, s.domains);
      if Delayed(s.observedAt, st.openedAt.value) || unknown {
        outcome := Outcome(st, None);
      } else {
        outcome := Missing(st, key, s);
      }
    }

    /** The loop over the active conditions this sample did not observe. */
    method Recover(s: Sample, before: HostTables, observed: HostTables, changed: seq<Event>)
      returns (t: HostTables, resolved: seq<Event>)
      requires Sound(before) && TablesAt(before, observed, s, s.conditions.Keys)
      requires EventsAt(before, changed, s, s.conditions.Keys)
      requires events == Newest(log, historyPoints) && forall e :: e in log ==> e.id < nextEventId
      modifies this`events, this`version, this`nextEventId, this`log
      ensures var done := if s.online then s.conditions.Keys + before.active.Keys else s.conditions.Keys;
        TablesAt(before, t, s, done) && EventsAt(before, changed + resolved, s, done)
      ensures Numbered(resolved, old(nextEventId)) && nextEventId == old(nextEventId) + |resolved|
      ensures log == old(log) + resolved && events == Newest(log, historyPoints)
      ensures forall e :: e in log ==> e.id < nextEventId
    {
      hide Step, TablesAt, EventsAt, Sound, HostTables.At, HostTables.Set, Of, Newest;
      t, resolved := observed, [];
      assert changed + resolved == changed;
      if !s.online {
        return;
      }
      var all := s.conditions.Keys + before.active.Keys;
      var pending := before.active.Keys - s.conditions.Keys;
      assert all - pending == s.conditions.Keys;
      while pending != {}
        invariant pending <= before.active.Keys - s.conditions.Keys
        invariant TablesAt(before, t, s, all - pending)
        invariant EventsAt(before, changed + resolved, s, all - pending)
        invariant Numbered(resolved, old(nextEventId)) && nextEventId == old(nextEventId) + |resolved|
        invariant log == old(log) + resolved && events == Newest(log, historyPoints)
        invariant forall e :: e in log ==> e.id < nextEventId
        decreases pending
      {
        var key :| key in pending;
        ghost var done := all - pending;
        pending := pending - {key};
        assert all - pending == done + {key};
        var outcome := StepOf(s, before, t, done, key);
        t := t.Set(key, outcome.state);
        var e := [];
        if outcome.emitted.Some? {
          var appended := Append(s.host, key, outcome.emitted.value, s.observedAt);
          e := [appended];
        }
        EventsAdvance(before, changed + resolved, s, done, key, e);
        assert changed + resolved + e == changed + (resolved + e);
        resolved := resolved + e;
      }
      assert all - pending == all;
    }
  }
}
