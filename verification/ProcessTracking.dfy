/**
  The store's process bookkeeping: which devices a sample touches, what
  becomes of the ones it does not, eviction of old identities, host removal
  and restart, with the methods that carry it out.
 */
module ProcessTracking {
  import opened Common
  import opened ProcessOrder
  import opened ProcessTransitions
  import opened ProcessDevices

  const MAX_GPU_IDENTITIES_PER_HOST := 256

  datatype GpuKey = GpuKey(host: string, id: string)

  type Devices = map<GpuKey, Device>

  function Of(devices: Devices, k: GpuKey): Device {
    if k in devices then devices[k] else Blank
  }

  datatype Fleet = Fleet(devices: Devices, identities: map<string, seq<string>>)

  datatype Restored = Restored(events: seq<Transition>, lastPoint: Option<int>)

  // ---- one device, carried out -------------------------------------------

  /** The new live table, one listed process at a time. */
  method ReadTable(previous: Table, listed: seq<ProcKey>, workloads: map<int, Workload>, at: int)
    returns (current: Table, replaced: set<ProcKey>)
    ensures current == Current(previous, listed, workloads, at)
    ensures replaced == ReplacedKeys(previous, listed, workloads)
  {
    hide SameInstance, Current, ReplacedKeys, Carries, WorkloadOf;
    current, replaced := map[], {};
    NothingRead(previous, workloads, at);
    for i := 0 to |listed|
      invariant current == Current(previous, listed[..i], workloads, at)
      invariant replaced == ReplacedKeys(previous, listed[..i], workloads)
    {
      var k := listed[i];
      var workload := WorkloadOf(workloads, k);
      var firstSeen := at;
      if k in previous {
        if SameInstance(previous[k].workload, workload) {
          firstSeen := previous[k].firstSeen;
        } else {
          replaced := replaced + {k};
        }
      }
      CarriesIff(previous, workloads, k);
      ReadNext(previous, listed, workloads, at, i);
      current := current[k := Process(workload, firstSeen)];
    }
    assert listed[..|listed|] == listed;
  }

  lemma NothingRead(previous: Table, workloads: map<int, Workload>, at: int)
    ensures Current(previous, [], workloads, at) == map[] && ReplacedKeys(previous, [], workloads) == {}
  {
  }

  lemma CarriesIff(previous: Table, workloads: map<int, Workload>, k: ProcKey)
    ensures Carries(previous, workloads, k) <==>
              k in previous && SameInstance(previous[k].workload, WorkloadOf(workloads, k))
  {
  }

  lemma ReadNext(previous: Table, listed: seq<ProcKey>, workloads: map<int, Workload>, at: int, i: nat)
    requires i < |listed|
    ensures
      var k := listed[i];
      var p := Process(WorkloadOf(workloads, k), if Carries(previous, workloads, k) then previous[k].firstSeen else at);
      && Current(previous, listed[..i + 1], workloads, at) == Current(previous, listed[..i], workloads, at)[k := p]
      && ReplacedKeys(previous, listed[..i + 1], workloads) == ReplacedKeys(previous, listed[..i], workloads)
           + if k in previous && !Carries(previous, workloads, k) then {k} else {}
  {
    assert listed[..i + 1] == listed[..i] + [listed[i]];
    CarriesKnown(previous, workloads, listed[i]);
    hide SameInstance;
  }

  lemma CarriesKnown(previous: Table, workloads: map<int, Workload>, k: ProcKey)
    ensures Carries(previous, workloads, k) ==> k in previous
  {
  }

  method CloseUnobservableDevice(d: Device) returns (next: Device, emitted: seq<Transition>)
    ensures next == CloseUnobservable(d)
    ensures next.events == d.events + emitted
  {
    emitted := [];
    if d.lastObserved.Some? {
      var keys := Sort(d.live.Keys);
      emitted := Emit(keys, d.live, d.lastObserved.value, true, false);
    }
    next := d.(live := map[], lastObserved := None, events := d.events + emitted);
  }

  method CloseRestoredDevice(d: Device) returns (next: Device, emitted: seq<Transition>)
    ensures next == CloseRestored(d)
    ensures next.events == d.events + emitted
  {
    emitted := [];
    if d.pending && d.events != [] {
      var open := OpenTransitions(d.events);
      var keys := Sort(open.Keys);
      var closeAt := if d.lastPoint.Some? then d.lastPoint.value else d.events[|d.events| - 1].at;
      emitted := CloseAll(keys, open, closeAt, true);
    }
    next := d.(pending := false, events := d.events + emitted);
  }

  method SettleDevice(d: Device) returns (next: Device, emitted: seq<Transition>)
    ensures next == Settle(d)
    ensures next.events == d.events + emitted
  {
    hide CloseUnobservable, CloseRestored;
    next, emitted := d, [];
    if d.initialized {
      next, emitted := CloseUnobservableDevice(d);
    }
    next := next.(initialized := false);
    var more;
    next, more := CloseRestoredDevice(next);
    emitted := emitted + more;
  }

  method ChangeTable(previous: Table, current: Table, replaced: set<ProcKey>, at: int)
    returns (emitted: seq<Transition>)
    requires replaced <= previous.Keys * current.Keys
    ensures emitted == Changes(previous, current, replaced, at)
  {
    hide Sorted, Emitted, Replaced;
    var arrived := Sort(current.Keys - previous.Keys);
    var gone := Sort(previous.Keys - current.Keys);
    var changed := Sort(replaced);
    var starts := Emit(arrived, current, at, false, true);
    var stops := Emit(gone, previous, at, true, true);
    var swaps := EmitReplaced(changed, previous, current, at);
    emitted := starts + stops + swaps;
  }

  method EmitReplaced(keys: seq<ProcKey>, previous: Table, current: Table, at: int)
    returns (added: seq<Transition>)
    requires forall k :: k in keys ==> k in previous && k in current
    ensures added == Replaced(keys, previous, current, at)
  {
    added := [];
    for i := 0 to |keys|
      invariant added == Replaced(keys[..i], previous, current, at)
    {
      added := added + [ProcessTransition(at, true, keys[i], previous[keys[i]], true),
                        ProcessTransition(at, false, keys[i], current[keys[i]], true)];
      assert keys[..i + 1][..i] == keys[..i];
    }
    assert keys[..|keys|] == keys;
  }

  method ObserveDevice(d: Device, r: Reading, workloads: map<int, Workload>, at: int)
    returns (next: Device, emitted: seq<Transition>)
    ensures next == Observe(d, r, workloads, at)
    ensures next.events == d.events + emitted
  {
    hide Changes, Sorted, Emitted, Reconciliation, Current, ReplacedKeys, Inherited, Open;
    next, emitted := d.(lastPoint := Some(at)), [];
    if !r.sampled {
      return;
    }
    if !r.available {
      next, emitted := CloseUnobservableDevice(next);
      next := next.(initialized := false);
      return;
    }
    next := next.(lastObserved := Some(at));
    var current, replaced := ReadTable(d.live, r.processes, workloads, at);
    if !d.initialized {
      if d.pending {
        current, emitted := Reconcile(d.events, current, at, d.lastPoint);
      } else {
        var keys := Sort(current.Keys);
        emitted := Emit(keys, current, at, false, false);
      }
      next := next.(initialized := true, pending := false, live := current, events := d.events + emitted);
    } else {
      ReplacedWithin(d.live, r.processes, workloads, at);
      emitted := ChangeTable(d.live, current, replaced, at);
      next := next.(live := current, events := d.events + emitted);
    }
  }

  lemma ReplacedWithin(previous: Table, listed: seq<ProcKey>, workloads: map<int, Workload>, at: int)
    ensures ReplacedKeys(previous, listed, workloads) <= previous.Keys * Current(previous, listed, workloads, at).Keys
  {
  }

  // ---- the fleet ---------------------------------------------------------

  ghost function ObserveAll(
    devices: Devices, host: string, readings: seq<Reading>, workloads: map<int, Workload>, at: int): Devices
  {
    if readings == [] then devices
    else
      var before := ObserveAll(devices, host, readings[..|readings| - 1], workloads, at);
      var r := readings[|readings| - 1];
      var k := GpuKey(host, r.id);
      before[k := Observe(Of(before, k), r, workloads, at)]
  }

  function Without(ids: seq<string>, id: string): seq<string> {
    if ids == [] then []
    else Without(ids[..|ids| - 1], id) + if ids[|ids| - 1] == id then [] else [ids[|ids| - 1]]
  }

  /** The identity moves to the newest end. */
  function Touch(ids: seq<string>, id: string): seq<string> {
    Without(ids, id) + [id]
  }

  function TouchAll(ids: seq<string>, readings: seq<Reading>): seq<string> {
    if readings == [] then ids else Touch(TouchAll(ids, readings[..|readings| - 1]), readings[|readings| - 1].id)
  }

  function Excess(ids: seq<string>): nat {
    if |ids| <= MAX_GPU_IDENTITIES_PER_HOST then 0 else |ids| - MAX_GPU_IDENTITIES_PER_HOST
  }

  function EvictAll(devices: Devices, host: string, gone: seq<string>): Devices {
    map k | k in devices :: if k.host == host && k.id in gone then Evict(devices[k]) else devices[k]
  }

  /** Devices of the host that are not in `observed` end what they have open. */
  ghost function SettleHost(devices: Devices, host: string, observed: set<string>): Devices {
    map k | k in devices :: if k.host == host && k.id !in observed then Settle(devices[k]) else devices[k]
  }

  function Ids(readings: seq<Reading>): set<string> {
    set r | r in readings :: r.id
  }

  function IdentitiesOf(identities: map<string, seq<string>>, host: string): seq<string> {
    if host in identities then identities[host] else []
  }

  /** One online sample. */
  ghost function Track(f: Fleet, host: string, readings: seq<Reading>, workloads: map<int, Workload>, at: int): Fleet {
    var ids := TouchAll(IdentitiesOf(f.identities, host), readings);
    var observed := ObserveAll(f.devices, host, readings, workloads, at);
    Fleet(SettleHost(EvictAll(observed, host, ids[..Excess(ids)]), host, Ids(readings)),
          f.identities[host := ids[Excess(ids)..]])
  }

  function Forget(f: Fleet, removed: set<string>): Fleet {
    Fleet(map k | k in f.devices && k.host !in removed :: f.devices[k],
          map h | h in f.identities && h !in removed :: f.identities[h])
  }

  function Resume(restored: map<GpuKey, Restored>, identities: map<string, seq<string>>): Fleet {
    Fleet(map k | k in restored ::
            Blank.(events := restored[k].events, lastPoint := restored[k].lastPoint,
                   pending := restored[k].events != []),
          identities)
  }

  datatype Op =
    | Online(host: string, readings: seq<Reading>, workloads: map<int, Workload>, at: int)
    | Stale(host: string)
    | Removed(hosts: set<string>)
    | Restart(restored: map<GpuKey, Restored>, identities: map<string, seq<string>>)

  ghost function Step(f: Fleet, op: Op): Fleet {
    match op
    case Online(host, readings, workloads, at) => Track(f, host, readings, workloads, at)
    case Stale(host) => f.(devices := SettleHost(f.devices, host, {}))
    case Removed(hosts) => Forget(f, hosts)
    case Restart(restored, identities) => Resume(restored, identities)
  }

  ghost function Run(ops: seq<Op>): Fleet {
    if ops == [] then Fleet(map[], map[]) else Step(Run(ops[..|ops| - 1]), ops[|ops| - 1])
  }

  // ---- every run agrees --------------------------------------------------

  ghost predicate AllAgree(devices: Devices) {
    forall k :: k in devices ==> Agrees(devices[k])
  }

  ghost predicate AllStamped(devices: Devices) {
    forall k :: k in devices ==> Stamped(devices[k].events)
  }

  lemma BlankAgrees(pending: bool)
    ensures Agrees(Blank.(pending := pending)) && Stamped(Blank.events)
  {
  }

  lemma {:induction false} ObserveAllAgree(
    devices: Devices, host: string, readings: seq<Reading>, workloads: map<int, Workload>, at: int)
    requires AllAgree(devices)
    ensures AllAgree(ObserveAll(devices, host, readings, workloads, at))
    ensures AllStamped(devices) ==> AllStamped(ObserveAll(devices, host, readings, workloads, at))
  {
    hide Agrees, Stamped, Observe;
    if readings != [] {
      var past := readings[..|readings| - 1];
      var r := readings[|readings| - 1];
      ObserveAllAgree(devices, host, past, workloads, at);
      var before := ObserveAll(devices, host, past, workloads, at);
      var d := Of(before, GpuKey(host, r.id));
      BlankAgrees(false);
      ObserveAgrees(d, r, workloads, at);
      if AllStamped(devices) {
        ObserveStamped(d, r, workloads, at);
      }
    }
  }

  lemma SettleHostAgrees(devices: Devices, host: string, observed: set<string>)
    requires AllAgree(devices)
    ensures AllAgree(SettleHost(devices, host, observed))
    ensures AllStamped(devices) ==> AllStamped(SettleHost(devices, host, observed))
  {
    hide Agrees, Stamped, Settle;
    forall k | k in devices ensures Agrees(Settle(devices[k])) {
      SettleAgrees(devices[k]);
    }
    if AllStamped(devices) {
      forall k | k in devices ensures Stamped(Settle(devices[k]).events) {
        SettleStamped(devices[k]);
      }
    }
  }

  lemma EvictAllAgrees(devices: Devices, host: string, gone: seq<string>)
    requires AllAgree(devices)
    ensures AllAgree(EvictAll(devices, host, gone))
    ensures AllStamped(devices) ==> AllStamped(EvictAll(devices, host, gone))
  {
  }

  lemma TrackAgrees(f: Fleet, host: string, readings: seq<Reading>, workloads: map<int, Workload>, at: int)
    requires AllAgree(f.devices)
    ensures AllAgree(Track(f, host, readings, workloads, at).devices)
    ensures AllStamped(f.devices) ==> AllStamped(Track(f, host, readings, workloads, at).devices)
  {
    hide AllAgree, AllStamped, ObserveAll, EvictAll, SettleHost;
    var ids := TouchAll(IdentitiesOf(f.identities, host), readings);
    var observed := ObserveAll(f.devices, host, readings, workloads, at);
    ObserveAllAgree(f.devices, host, readings, workloads, at);
    EvictAllAgrees(observed, host, ids[..Excess(ids)]);
    SettleHostAgrees(EvictAll(observed, host, ids[..Excess(ids)]), host, Ids(readings));
  }

  ghost predicate RestoresStamped(op: Op) {
    op.Restart? ==> forall k :: k in op.restored ==> Stamped(op.restored[k].events)
  }

  lemma ResumeAgrees(restored: map<GpuKey, Restored>, identities: map<string, seq<string>>)
    ensures AllAgree(Resume(restored, identities).devices)
    ensures RestoresStamped(Restart(restored, identities)) ==> AllStamped(Resume(restored, identities).devices)
  {
  }

  lemma StepAgrees(f: Fleet, op: Op)
    requires AllAgree(f.devices)
    ensures AllAgree(Step(f, op).devices)
    ensures AllStamped(f.devices) && RestoresStamped(op) ==> AllStamped(Step(f, op).devices)
  {
    hide Agrees, Stamped, Track, SettleHost, Resume, RestoresStamped;
    match op
    case Online(host, readings, workloads, at) => TrackAgrees(f, host, readings, workloads, at);
    case Stale(host) => SettleHostAgrees(f.devices, host, {});
    case Removed(_) =>
    case Restart(restored, identities) => ResumeAgrees(restored, identities);
  }

  lemma {:induction false} RunAgrees(ops: seq<Op>)
    ensures AllAgree(Run(ops).devices)
    ensures (forall op :: op in ops ==> RestoresStamped(op)) ==> AllStamped(Run(ops).devices)
  {
    hide Agrees, Stamped, Step, RestoresStamped;
    if ops != [] {
      RunAgrees(ops[..|ops| - 1]);
      StepAgrees(Run(ops[..|ops| - 1]), ops[|ops| - 1]);
    }
  }

  /** In every reachable state a device awaiting reconciliation shows nothing live, and for any other one the
      runs its log leaves open are its live processes, first seen when their start says. */
  lemma LogAndTableAgree(ops: seq<Op>, k: GpuKey)
    ensures
      var d := Of(Run(ops).devices, k);
      if d.pending then d.live == map[]
      else
        && Open(d.events).Keys == d.live.Keys
        && forall p :: p in d.live ==> Open(d.events)[p].at == d.live[p].firstSeen
  {
    hide Run, Stamped;
    RunAgrees(ops);
    var d := Of(Run(ops).devices, k);
    BlankAgrees(false);
    assert Agrees(d);
    if !d.pending {
      forall p ensures p in Open(d.events) <==> p in d.live {
        assert OpenAt(d.events, p) == FirstSeen(d.live, p);
      }
      forall p | p in d.live ensures Open(d.events)[p].at == d.live[p].firstSeen {
        assert OpenAt(d.events, p) == FirstSeen(d.live, p);
      }
    }
  }

  // ---- the identity bound ------------------------------------------------

  predicate Bare(d: Device) {
    d.events == [] && d.live == map[] && d.lastPoint == None
  }

  ghost predicate Listed(f: Fleet, k: GpuKey) {
    k.host in f.identities && k.id in f.identities[k.host]
  }

  /** Whatever holds records of a device is listed among its host's identities. */
  ghost predicate Tracked(f: Fleet) {
    forall k :: k in f.devices && !Bare(f.devices[k]) ==> Listed(f, k)
  }

  lemma WithoutKeeps(ids: seq<string>, id: string, x: string)
    ensures x in Without(ids, id) <==> x in ids && x != id
  {
  }

  lemma IdsSnoc(past: seq<Reading>, r: Reading)
    ensures Ids(past + [r]) == Ids(past) + {r.id}
  {
  }

  lemma {:induction false} TouchAllLists(ids: seq<string>, readings: seq<Reading>, x: string)
    ensures x in TouchAll(ids, readings) <==> x in ids || x in Ids(readings)
  {
    hide Ids, Without;
    if readings == [] {
      NoIds();
    } else {
      var past := readings[..|readings| - 1];
      var r := readings[|readings| - 1];
      TouchAllLists(ids, past, x);
      WithoutKeeps(TouchAll(ids, past), r.id, x);
      assert readings == past + [r];
      IdsSnoc(past, r);
    }
  }

  lemma NoIds()
    ensures Ids([]) == {}
  {
  }

  lemma ObserveAllElsewhere(
    devices: Devices, host: string, readings: seq<Reading>, workloads: map<int, Workload>, at: int, k: GpuKey)
    requires k.host != host || k.id !in Ids(readings)
    ensures
      var next := ObserveAll(devices, host, readings, workloads, at);
      (k in next <==> k in devices) && (k in next ==> next[k] == devices[k])
  {
  }

  lemma SettleBare(d: Device)
    requires Bare(d)
    ensures Bare(Settle(d))
  {
  }

  /** A sample keeps the records among the identities, and those of its host within the bound. */
  lemma TrackBounds(f: Fleet, host: string, readings: seq<Reading>, workloads: map<int, Workload>, at: int)
    requires Tracked(f)
    ensures
      var next := Track(f, host, readings, workloads, at);
      Tracked(next) && |next.identities[host]| <= MAX_GPU_IDENTITIES_PER_HOST
  {
    hide Observe, Settle, Bare, ObserveAll, TouchAll, Ids;
    var next := Track(f, host, readings, workloads, at);
    var ids := TouchAll(IdentitiesOf(f.identities, host), readings);
    var observed := ObserveAll(f.devices, host, readings, workloads, at);
    var evicted := EvictAll(observed, host, ids[..Excess(ids)]);
    forall k | k in next.devices && !Bare(next.devices[k]) ensures Listed(next, k) {
      if Bare(evicted[k]) {
        SettleBare(evicted[k]);
      }
      TouchAllLists(IdentitiesOf(f.identities, host), readings, k.id);
      if k.host != host || k.id !in Ids(readings) {
        ObserveAllElsewhere(f.devices, host, readings, workloads, at, k);
      }
      EvictedIsBare(observed[k]);
      assert ids == ids[..Excess(ids)] + ids[Excess(ids)..];
    }
  }

  lemma NobodyEvicted(devices: Devices, host: string)
    ensures EvictAll(devices, host, []) == devices
  {
  }

  /** An identity that was evicted already stays as it is. */
  lemma EvictNext(devices: Devices, host: string, ids: seq<string>, n: nat)
    requires n < |ids|
    ensures
      var before := EvictAll(devices, host, ids[..n]);
      var k := GpuKey(host, ids[n]);
      EvictAll(devices, host, ids[..n + 1]) == if k in before then before[k := Evict(before[k])] else before
  {
    assert ids[..n + 1] == ids[..n] + [ids[n]];
  }

  lemma EvictedIsBare(d: Device)
    ensures Bare(Evict(d))
  {
  }

  ghost predicate WithinBound(identities: map<string, seq<string>>) {
    forall h :: h in identities ==> |identities[h]| <= MAX_GPU_IDENTITIES_PER_HOST
  }

  /** A restart lists the devices it restores, at most 256 of a host. */
  ghost predicate RestoresListed(op: Op) {
    op.Restart? ==> Tracked(Resume(op.restored, op.identities)) && WithinBound(op.identities)
  }

  lemma SettleHostTracked(f: Fleet, host: string)
    requires Tracked(f)
    ensures Tracked(f.(devices := SettleHost(f.devices, host, {})))
  {
    hide Settle, Bare;
    forall k | k in f.devices && Bare(f.devices[k]) ensures Bare(Settle(f.devices[k])) {
      SettleBare(f.devices[k]);
    }
  }

  lemma StepBounds(f: Fleet, op: Op)
    requires Tracked(f) && WithinBound(f.identities) && RestoresListed(op)
    ensures Tracked(Step(f, op)) && WithinBound(Step(f, op).identities)
  {
    hide Bare, SettleHost;
    match op
    case Online(host, readings, workloads, at) =>
      TrackBounds(f, host, readings, workloads, at);
      TrackElsewhere(f, host, readings, workloads, at);
      hide Track, Tracked;
    case Stale(host) => SettleHostTracked(f, host);
    case Removed(hosts) => ForgetTracked(f, hosts);
    case Restart(_, _) =>
  }

  lemma ForgetTracked(f: Fleet, removed: set<string>)
    requires Tracked(f)
    ensures Tracked(Forget(f, removed))
  {
    hide Bare;
    var next := Forget(f, removed);
    forall k | k in next.devices && !Bare(next.devices[k]) ensures Listed(next, k) {
      assert Listed(f, k);
    }
  }

  lemma TrackElsewhere(f: Fleet, host: string, readings: seq<Reading>, workloads: map<int, Workload>, at: int)
    ensures
      var next := Track(f, host, readings, workloads, at).identities;
      forall h :: h in next ==> h == host || (h in f.identities && next[h] == f.identities[h])
  {
  }

  lemma {:induction false} RunBounds(ops: seq<Op>)
    requires forall op :: op in ops ==> RestoresListed(op)
    ensures Tracked(Run(ops)) && WithinBound(Run(ops).identities)
  {
    hide Step, Tracked, RestoresListed;
    if ops == [] {
      NothingTracked();
    } else {
      RunBounds(ops[..|ops| - 1]);
      StepBounds(Run(ops[..|ops| - 1]), ops[|ops| - 1]);
    }
  }

  lemma NothingTracked()
    ensures Tracked(Fleet(map[], map[]))
  {
  }

  /** The devices of a host that have records. */
  ghost function Recorded(f: Fleet, host: string): set<string> {
    set k | k in f.devices && k.host == host && !Bare(f.devices[k]) :: k.id
  }

  lemma {:induction false} AtMostListed(ids: set<string>, listed: seq<string>)
    requires forall id :: id in ids ==> id in listed
    ensures |ids| <= |listed|
  {
    if listed == [] {
      assert ids == {};
    } else {
      var n := |listed| - 1;
      AtMostListed(ids - {listed[n]}, listed[..n]);
    }
  }

  /** In every run, whatever identities come and go, a host has records of at most 256 devices, each among its
      identities. */
  lemma RecordsBounded(ops: seq<Op>, host: string)
    requires forall op :: op in ops ==> RestoresListed(op)
    ensures |Recorded(Run(ops), host)| <= MAX_GPU_IDENTITIES_PER_HOST
    ensures forall id :: id in Recorded(Run(ops), host) ==> Listed(Run(ops), GpuKey(host, id))
  {
    hide Run, Bare, RestoresListed;
    RunBounds(ops);
    var f := Run(ops);
    if host in f.identities {
      AtMostListed(Recorded(f, host), f.identities[host]);
    } else {
      assert Recorded(f, host) == {};
    }
  }

  // ---- the store ---------------------------------------------------------

  class ProcessStore {
    var devices: Devices
    var identities: map<string, seq<string>>

    function View(): Fleet
      reads this
    {
      Fleet(devices, identities)
    }

    constructor (restored: map<GpuKey, Restored>, order: map<string, seq<string>>)
      ensures View() == Resume(restored, order)
    {
      devices := map k | k in restored ::
        Blank.(events := restored[k].events, lastPoint := restored[k].lastPoint, pending := restored[k].events != []);
      identities := order;
    }

    /** Devices of the host outside `observed` end what they have open. */
    method SettleUnobserved(host: string, observed: set<string>)
      modifies `devices
      ensures devices == SettleHost(old(devices), host, observed)
    {
      hide Settle;
      var keys := set k | k in devices && k.host == host && k.id !in observed;
      var left := keys;
      while left != {}
        invariant left <= keys
        invariant devices.Keys == old(devices).Keys
        invariant forall k :: k in devices ==>
                    devices[k] == if k in keys && k !in left then Settle(old(devices)[k]) else old(devices)[k]
        decreases |left|
      {
        var k :| k in left;
        var next, _ := SettleDevice(devices[k]);
        devices := devices[k := next];
        left := left - {k};
      }
    }

    method EvictOldest(host: string, ids: seq<string>) returns (kept: seq<string>)
      modifies `devices
      ensures kept == ids[Excess(ids)..]
      ensures devices == EvictAll(old(devices), host, ids[..Excess(ids)])
    {
      hide EvictAll, Evict;
      NobodyEvicted(devices, host);
      var n := 0;
      while |ids| - n > MAX_GPU_IDENTITIES_PER_HOST
        invariant n <= Excess(ids)
        invariant devices == EvictAll(old(devices), host, ids[..n])
      {
        var k := GpuKey(host, ids[n]);
        if k in devices {
          devices := devices[k := Evict(devices[k])];
        }
        EvictNext(old(devices), host, ids, n);
        n := n + 1;
      }
      kept := ids[n..];
    }

    method TrackGpuTelemetry(host: string, readings: seq<Reading>, workloads: map<int, Workload>, at: int)
      modifies this
      ensures View() == Step(old(View()), Online(host, readings, workloads, at))
    {
      hide EvictAll, SettleHost, Observe, Excess;
      var ids := IdentitiesOf(identities, host);
      for i := 0 to |readings|
        invariant identities == old(identities)
        invariant ids == TouchAll(IdentitiesOf(identities, host), readings[..i])
        invariant devices == ObserveAll(old(devices), host, readings[..i], workloads, at)
      {
        var k := GpuKey(host, readings[i].id);
        ids := Touch(ids, readings[i].id);
        var next, _ := ObserveDevice(Of(devices, k), readings[i], workloads, at);
        devices := devices[k := next];
        assert readings[..i + 1][..i] == readings[..i];
      }
      assert readings[..|readings|] == readings;
      var kept := EvictOldest(host, ids);
      identities := identities[host := kept];
      SettleUnobserved(host, Ids(readings));
    }

    method InvalidateProcessInventory(host: string)
      modifies `devices
      ensures View() == Step(old(View()), Stale(host))
    {
      SettleUnobserved(host, {});
    }

    method RemoveHosts(removed: set<string>)
      modifies this
      ensures View() == Step(old(View()), Removed(removed))
    {
      devices := map k | k in devices && k.host !in removed :: devices[k];
      identities := map h | h in identities && h !in removed :: identities[h];
    }
  }
}
