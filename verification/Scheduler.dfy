/**
  The probe scheduler as interleaved steps: configuration updates and manual
  requests from other threads against the loop's own sections.
 */
module Scheduler {
  import opened Common

  const MAX_PROBE_WORKERS := 64

  datatype Task = Task(host: string, batch: nat, incarnation: nat)

  /** Where the loop is: before its snapshot, after it, or after the inventory section. */
  datatype Phase = Top | Snapshot(generation: nat, workers: nat) | Working(generation: nat, workers: nat) | Stopped

  type Tasks = map<nat, Task>

  datatype State = State(
    generation: nat,
    maxWorkers: nat,
    discovered: seq<string>,
    servers: map<string, nat>,
    nextIncarnation: nat,
    active: seq<string>,
    runtimeHosts: set<string>,
    manual: set<string>,
    inFlight: Tasks,
    inFlightHosts: set<string>,
    runtimeInFlight: set<string>,
    batches: map<nat, nat>,
    nextBatch: nat,
    nextTask: nat,
    lastCompleted: nat,
    cycles: seq<nat>,
    pending: Option<(nat, Task)>,
    lost: set<nat>,
    applied: seq<(nat, Task)>,
    phase: Phase)

  const Initial := State(0, 1, [], map[], 1, [], {}, {}, map[], {}, {}, map[], 1, 0, 0, [], None, {}, [], Top)

  datatype Step =
    | UpdateConfig(hosts: seq<string>, workers: nat)
    | RequestProbe(host: string, cooledDown: bool)
    | TakeSnapshot
    | Refresh(found: Option<seq<string>>)
    | Complete(task: nat)
    | ApplyResult
    | Submit(due: seq<string>)
    | Stop

  predicate Distinct(hosts: seq<string>) {
    forall i, j :: 0 <= i < j < |hosts| ==> hosts[i] != hosts[j]
  }

  function SetOf(hosts: seq<string>): set<string> {
    set h | h in hosts
  }

  // ---- the store's hosts -------------------------------------------------

  datatype Registry = Registry(servers: map<string, nat>, next: nat)

  /** Hosts the store does not know yet get the next incarnation, in order. */
  function AddHosts(r: Registry, hosts: seq<string>): Registry {
    if hosts == [] then r
    else
      var before := AddHosts(r, hosts[..|hosts| - 1]);
      var h := hosts[|hosts| - 1];
      if h in before.servers then before else Registry(before.servers[h := before.next], before.next + 1)
  }

  function SetHosts(r: Registry, hosts: seq<string>): Registry {
    AddHosts(Registry(map h | h in r.servers && h in hosts :: r.servers[h], r.next), hosts)
  }

  predicate StillThere(servers: map<string, nat>, t: Task) {
    t.host in servers && servers[t.host] == t.incarnation
  }

  /** The inventory changes; tasks whose host goes are noted. */
  function ChangeHosts(s: State, hosts: seq<string>): State {
    var r := SetHosts(Registry(s.servers, s.nextIncarnation), hosts);
    s.(discovered := hosts, servers := r.servers, nextIncarnation := r.next,
       lost := s.lost + (set t | t in s.inFlight && s.inFlight[t].host !in hosts)
                      + (if s.pending.Some? && s.pending.value.1.host !in hosts then {s.pending.value.0} else {}))
  }

  // ---- submission and completion -----------------------------------------

  function SubmitAll(inFlight: Tasks, due: seq<string>, servers: map<string, nat>, first: nat, batch: nat): Tasks
    requires forall h :: h in due ==> h in servers
  {
    if due == [] then inFlight
    else
      var h := due[|due| - 1];
      SubmitAll(inFlight, due[..|due| - 1], servers, first, batch)[first + |due| - 1 := Task(h, batch, servers[h])]
  }

  /** Hosts the selection may pick: active, not in flight, no more than there are free workers. */
  predicate Selectable(s: State, due: seq<string>) {
    && s.phase.Working? && Distinct(due)
    && (forall h :: h in due ==> h in s.active && h !in s.inFlightHosts)
    && |due| <= Max(0, s.phase.workers - |s.inFlight|)
  }

  /** The scheduler reads the incarnation of every host it submits. */
  predicate IncarnationsKnown(s: State, due: seq<string>) {
    forall h :: h in due ==> h in s.servers
  }

  function DoSubmit(s: State, due: seq<string>): State {
    if !s.phase.Working? || s.pending.Some? then s
    else if s.phase.generation != s.generation then s.(phase := Top)
    else if !Selectable(s, due) || !IncarnationsKnown(s, due) then s
    else if due == [] then s.(phase := Top)
    else
      s.(inFlight := SubmitAll(s.inFlight, due, s.servers, s.nextTask, s.nextBatch),
         inFlightHosts := s.inFlightHosts + SetOf(due), runtimeInFlight := s.runtimeInFlight + SetOf(due),
         manual := s.manual - SetOf(due),
         batches := s.batches[s.nextBatch := |due|], nextBatch := s.nextBatch + 1, nextTask := s.nextTask + |due|,
         phase := Top)
  }

  /** Open batches, the newest one that ended and the cycles reported. */
  datatype Progress = Progress(batches: map<nat, nat>, lastCompleted: nat, cycles: seq<nat>)

  /** A batch ends with its last probe; only one newer than any that ended reports its duration. */
  function CountDown(p: Progress, batch: nat): Progress {
    if batch !in p.batches || p.batches[batch] == 0 then p
    else if p.batches[batch] > 1 then p.(batches := p.batches[batch := p.batches[batch] - 1])
    else if batch > p.lastCompleted then Progress(p.batches - {batch}, batch, p.cycles + [batch])
    else p.(batches := p.batches - {batch})
  }

  function Handover(active: seq<string>, servers: map<string, nat>, t: nat, task: Task): Option<(nat, Task)> {
    if task.host in active && StillThere(servers, task) then Some((t, task)) else None
  }

  function DoComplete(s: State, t: nat): State {
    if t !in s.inFlight || s.pending.Some? || !s.phase.Working? then s
    else
      var task := s.inFlight[t];
      var p := CountDown(Progress(s.batches, s.lastCompleted, s.cycles), task.batch);
      s.(inFlight := s.inFlight - {t},
         inFlightHosts := s.inFlightHosts - {task.host}, runtimeInFlight := s.runtimeInFlight - {task.host},
         batches := p.batches, lastCompleted := p.lastCompleted, cycles := p.cycles,
         pending := Handover(s.active, s.servers, t, task))
  }

  /** The store checks the incarnation again, under its own lock. */
  function DoApply(s: State): State {
    if s.pending.None? then s
    else s.(pending := None,
            applied := if StillThere(s.servers, s.pending.value.1) then s.applied + [s.pending.value] else s.applied)
  }

  function DoRequest(s: State, host: string, cooledDown: bool): State {
    if host !in s.runtimeHosts || host in s.runtimeInFlight || host in s.manual || !cooledDown then s
    else s.(manual := s.manual + {host})
  }

  function DoRefresh(s: State, found: Option<seq<string>>): State {
    if !s.phase.Snapshot? then s
    else if s.phase.generation != s.generation then s.(phase := Top)
    else
      var n := if found.Some? then ChangeHosts(s, found.value) else s;
      n.(active := n.discovered, runtimeHosts := SetOf(n.discovered), manual := n.manual * SetOf(n.discovered),
         phase := Working(s.phase.generation, s.phase.workers))
  }

  function Apply(s: State, step: Step): State {
    match step
    case UpdateConfig(hosts, workers) =>
      if !Distinct(hosts) then s
      else ChangeHosts(s, hosts).(runtimeHosts := s.runtimeHosts * SetOf(hosts), manual := s.manual * SetOf(hosts),
                                  maxWorkers := workers, generation := s.generation + 1)
    case RequestProbe(host, cooledDown) => DoRequest(s, host, cooledDown)
    case TakeSnapshot => if s.phase.Top? then s.(phase := Snapshot(s.generation, s.maxWorkers)) else s
    case Refresh(found) => if found.Some? && !Distinct(found.value) then s else DoRefresh(s, found)
    case Complete(t) => DoComplete(s, t)
    case ApplyResult => DoApply(s)
    case Submit(due) => DoSubmit(s, due)
    case Stop =>
      if s.phase.Top? || (s.phase.Working? && s.pending.None?)
      then s.(phase := Stopped, runtimeHosts := {}, runtimeInFlight := {}, manual := {}) else s
  }

  function Run(steps: seq<Step>): State {
    if steps == [] then Initial else Apply(Run(steps[..|steps| - 1]), steps[|steps| - 1])
  }

  // ---- the invariant -----------------------------------------------------

  function HostsOf(tasks: Tasks): set<string> {
    set t | t in tasks :: tasks[t].host
  }

  function OfBatch(tasks: Tasks, batch: nat): set<nat> {
    set t | t in tasks && tasks[t].batch == batch
  }

  /** No host has two probes in flight, and the loop's set of hosts names exactly the probed ones. */
  predicate ViewsAgree(tasks: Tasks, hosts: set<string>) {
    && hosts == HostsOf(tasks)
    && forall a, b :: a in tasks && b in tasks && a != b ==> tasks[a].host != tasks[b].host
  }

  /** Every batch counts exactly its probes in flight, and batches without any are gone. */
  predicate BatchesCount(tasks: Tasks, batches: map<nat, nat>) {
    && (forall b :: b in batches ==> batches[b] == |OfBatch(tasks, b)| > 0)
    && forall t :: t in tasks ==> tasks[t].batch in batches
  }

  predicate TasksBelow(tasks: Tasks, next: nat) {
    forall t :: t in tasks ==> t < next
  }

  predicate BatchesBelow(batches: map<nat, nat>, next: nat) {
    forall b :: b in batches ==> b < next
  }

  predicate RecordsBelow(servers: map<string, nat>, next: nat) {
    forall h :: h in servers ==> servers[h] < next
  }

  predicate LostBelow(lost: set<nat>, next: nat) {
    forall t :: t in lost ==> t < next
  }

  predicate PendingOut(pending: Option<(nat, Task)>, tasks: Tasks, next: nat) {
    pending.Some? ==> pending.value.0 < next && pending.value.0 !in tasks
  }

  /** A probe is lost exactly when its host's record is no longer the one it was started for. */
  predicate LostMeans(lost: set<nat>, servers: map<string, nat>, next: nat, t: nat, task: Task) {
    && task.incarnation < next
    && (t in lost <==> !StillThere(servers, task))
  }

  predicate LostTracked(tasks: Tasks, lost: set<nat>, servers: map<string, nat>, next: nat) {
    forall t :: t in tasks ==> LostMeans(lost, servers, next, t, tasks[t])
  }

  predicate PendingTracked(pending: Option<(nat, Task)>, lost: set<nat>, servers: map<string, nat>, next: nat) {
    pending.Some? ==> LostMeans(lost, servers, next, pending.value.0, pending.value.1)
  }

  /** A loop that read its snapshot under the current configuration works on the current inventory. */
  predicate InventoryCurrent(s: State) {
    match s.phase
    case Snapshot(generation, workers) =>
      generation <= s.generation && (generation == s.generation ==> workers == s.maxWorkers)
    case Working(generation, workers) =>
      && generation <= s.generation
      && (generation == s.generation ==> s.active == s.discovered && workers == s.maxWorkers)
    case _ => true
  }

  predicate Known(servers: map<string, nat>, discovered: seq<string>) {
    servers.Keys == SetOf(discovered)
  }

  predicate Inv(s: State) {
    && ViewsAgree(s.inFlight, s.inFlightHosts) && (!s.phase.Stopped? ==> s.runtimeInFlight == s.inFlightHosts)
    && BatchesCount(s.inFlight, s.batches)
    && TasksBelow(s.inFlight, s.nextTask) && BatchesBelow(s.batches, s.nextBatch)
    && RecordsBelow(s.servers, s.nextIncarnation) && LostBelow(s.lost, s.nextTask)
    && PendingOut(s.pending, s.inFlight, s.nextTask)
    && LostTracked(s.inFlight, s.lost, s.servers, s.nextIncarnation)
    && PendingTracked(s.pending, s.lost, s.servers, s.nextIncarnation)
    && Known(s.servers, s.discovered) && InventoryCurrent(s)
    && Distinct(s.discovered) && Distinct(s.active)
  }

  // ---- inventory changes -------------------------------------------------

  lemma SetOfSnoc(past: seq<string>, h: string)
    ensures SetOf(past + [h]) == SetOf(past) + {h}
  {
  }

  lemma AddHostsKeeps(r: Registry, hosts: seq<string>)
    requires RecordsBelow(r.servers, r.next)
    ensures
      var n := AddHosts(r, hosts);
      && n.servers.Keys == r.servers.Keys + SetOf(hosts)
      && n.next >= r.next
      && RecordsBelow(n.servers, n.next)
      && (forall h :: h in r.servers ==> n.servers[h] == r.servers[h])
      && (forall h :: h in n.servers && h !in r.servers ==> n.servers[h] >= r.next)
  {
  }

  lemma SetHostsEffect(r: Registry, hosts: seq<string>)
    requires RecordsBelow(r.servers, r.next)
    ensures
      var n := SetHosts(r, hosts);
      && Known(n.servers, hosts) && n.next >= r.next && RecordsBelow(n.servers, n.next)
      && (forall h :: h in r.servers && h in hosts ==> n.servers[h] == r.servers[h])
      && (forall h :: h in n.servers && h !in r.servers ==> n.servers[h] >= r.next)
  {
    AddHostsKeeps(Registry(map h | h in r.servers && h in hosts :: r.servers[h], r.next), hosts);
    hide AddHosts;
  }

  /** A change of inventory loses exactly the probes whose record goes. */
  lemma LostAfter(r: Registry, hosts: seq<string>, lost: set<nat>, now: set<nat>, t: nat, task: Task)
    requires RecordsBelow(r.servers, r.next) && LostMeans(lost, r.servers, r.next, t, task)
    requires t in now <==> t in lost || task.host !in hosts
    ensures
      var n := SetHosts(r, hosts);
      LostMeans(now, n.servers, n.next, t, task)
  {
    SetHostsEffect(r, hosts);
    hide SetHosts;
  }

  lemma ChangeHostsLost(s: State, hosts: seq<string>)
    requires RecordsBelow(s.servers, s.nextIncarnation) && PendingOut(s.pending, s.inFlight, s.nextTask)
    requires LostTracked(s.inFlight, s.lost, s.servers, s.nextIncarnation)
    requires PendingTracked(s.pending, s.lost, s.servers, s.nextIncarnation)
    ensures
      var n := ChangeHosts(s, hosts);
      && LostTracked(n.inFlight, n.lost, n.servers, n.nextIncarnation)
      && PendingTracked(n.pending, n.lost, n.servers, n.nextIncarnation)
  {
    hide SetHosts, LostMeans, RecordsBelow;
    var r := Registry(s.servers, s.nextIncarnation);
    var n := ChangeHosts(s, hosts);
    forall t | t in s.inFlight ensures LostMeans(n.lost, n.servers, n.nextIncarnation, t, s.inFlight[t]) {
      LostAfter(r, hosts, s.lost, n.lost, t, s.inFlight[t]);
    }
    if s.pending.Some? {
      LostAfter(r, hosts, s.lost, n.lost, s.pending.value.0, s.pending.value.1);
    }
  }

  lemma ChangeHostsInv(s: State, hosts: seq<string>)
    requires Inv(s)
    ensures
      var n := ChangeHosts(s, hosts);
      && Known(n.servers, n.discovered) && RecordsBelow(n.servers, n.nextIncarnation) && LostBelow(n.lost, n.nextTask)
      && LostTracked(n.inFlight, n.lost, n.servers, n.nextIncarnation)
      && PendingTracked(n.pending, n.lost, n.servers, n.nextIncarnation)
  {
    ChangeHostsLost(s, hosts);
    SetHostsEffect(Registry(s.servers, s.nextIncarnation), hosts);
    hide SetHosts, ViewsAgree, BatchesCount, BatchesBelow, RecordsBelow, LostTracked, PendingTracked, Known;
    hide InventoryCurrent;
  }

  lemma UpdateInv(s: State, hosts: seq<string>, workers: nat)
    requires Inv(s) && Distinct(hosts)
    ensures Inv(Apply(s, UpdateConfig(hosts, workers)))
  {
    ChangeHostsInv(s, hosts);
    hide SetHosts, ViewsAgree, BatchesCount, TasksBelow, BatchesBelow, RecordsBelow, LostBelow, PendingOut, LostTracked;
    hide PendingTracked, Known, SetOf;
  }

  lemma RefreshInv(s: State, found: Option<seq<string>>)
    requires Inv(s) && (found.Some? ==> Distinct(found.value))
    ensures Inv(DoRefresh(s, found))
  {
    if found.Some? {
      ChangeHostsInv(s, found.value);
    }
    hide SetHosts, ViewsAgree, BatchesCount, TasksBelow, BatchesBelow, RecordsBelow, LostBelow, PendingOut, LostTracked;
    hide PendingTracked, Known, SetOf;
  }

  // ---- completion --------------------------------------------------------

  function Decremented(batches: map<nat, nat>, b: nat): map<nat, nat>
    requires b in batches && batches[b] >= 1
  {
    if batches[b] == 1 then batches - {b} else batches[b := batches[b] - 1]
  }

  lemma RemoveCounts(tasks: Tasks, batches: map<nat, nat>, t: nat)
    requires BatchesCount(tasks, batches) && t in tasks
    ensures
      var b := tasks[t].batch;
      b in batches && batches[b] >= 1 && BatchesCount(tasks - {t}, Decremented(batches, b))
  {
    var b := tasks[t].batch;
    var rest := tasks - {t};
    assert t in OfBatch(tasks, b);
    assert OfBatch(rest, b) == OfBatch(tasks, b) - {t};
    forall o | o != b ensures OfBatch(rest, o) == OfBatch(tasks, o) {}
    if batches[b] == 1 {
      forall u | u in rest ensures rest[u].batch != b {
        if rest[u].batch == b {
          OnlyOne(OfBatch(tasks, b), t, u);
        }
      }
    }
  }

  lemma OnlyOne(s: set<nat>, a: nat, b: nat)
    requires |s| == 1 && a in s && b in s
    ensures a == b
  {
    assert |s - {a}| == 0;
  }

  lemma RemoveView(tasks: Tasks, hosts: set<string>, t: nat)
    requires ViewsAgree(tasks, hosts) && t in tasks
    ensures ViewsAgree(tasks - {t}, hosts - {tasks[t].host})
  {
    forall h | h in HostsOf(tasks) - {tasks[t].host} ensures h in HostsOf(tasks - {t}) {
      var u :| u in tasks && tasks[u].host == h;
      assert u in tasks - {t};
    }
  }

  lemma RemoveRest(s: State, t: nat)
    requires Inv(s) && t in s.inFlight
    ensures
      var rest := s.inFlight - {t};
      && TasksBelow(rest, s.nextTask) && LostTracked(rest, s.lost, s.servers, s.nextIncarnation)
      && t < s.nextTask && LostMeans(s.lost, s.servers, s.nextIncarnation, t, s.inFlight[t])
      && BatchesBelow(Decremented(s.batches, s.inFlight[t].batch), s.nextBatch)
  {
    assert s.inFlight[t].batch in s.batches;
    assert s.batches[s.inFlight[t].batch] > 0;
    hide ViewsAgree, BatchesCount, RecordsBelow, LostBelow, PendingOut, PendingTracked, Known, InventoryCurrent;
    hide LostMeans;
  }

  lemma CompleteInv(s: State, t: nat)
    requires Inv(s)
    ensures Inv(DoComplete(s, t))
  {
    hide ViewsAgree, BatchesCount, TasksBelow, BatchesBelow, RecordsBelow, LostBelow, LostTracked, LostMeans;
    hide StillThere, Known;
    if t in s.inFlight && s.pending.None? && s.phase.Working? {
      RemoveCounts(s.inFlight, s.batches, t);
      RemoveView(s.inFlight, s.inFlightHosts, t);
      RemoveRest(s, t);
    }
  }

  // ---- submission --------------------------------------------------------

  lemma SubmitAllAdds(tasks: Tasks, due: seq<string>, servers: map<string, nat>, first: nat, batch: nat)
    requires forall h :: h in due ==> h in servers
    requires TasksBelow(tasks, first)
    ensures
      var n := SubmitAll(tasks, due, servers, first, batch);
      && TasksBelow(n, first + |due|) && |n| == |tasks| + |due|
      && forall t :: t in n && t < first ==> t in tasks && n[t] == tasks[t]
  {
  }

  lemma InsertCounts(tasks: Tasks, t: nat, task: Task)
    requires t !in tasks
    ensures forall b :: b != task.batch ==> OfBatch(tasks[t := task], b) == OfBatch(tasks, b)
    ensures |OfBatch(tasks[t := task], task.batch)| == |OfBatch(tasks, task.batch)| + 1
  {
    var n := tasks[t := task];
    forall b | b != task.batch ensures OfBatch(n, b) == OfBatch(tasks, b) {}
    assert OfBatch(n, task.batch) == OfBatch(tasks, task.batch) + {t};
  }

  lemma {:induction false} SubmitBatches(
    tasks: Tasks, due: seq<string>, servers: map<string, nat>, first: nat, batch: nat)
    requires forall h :: h in due ==> h in servers
    requires TasksBelow(tasks, first)
    ensures
      var n := SubmitAll(tasks, due, servers, first, batch);
      && (forall b :: b != batch ==> OfBatch(n, b) == OfBatch(tasks, b))
      && |OfBatch(n, batch)| == |OfBatch(tasks, batch)| + |due|
      && forall t :: t in n ==> n[t].batch == batch || (t in tasks && n[t] == tasks[t])
  {
    hide OfBatch, TasksBelow;
    if due != [] {
      var past := due[..|due| - 1];
      var h := due[|due| - 1];
      SubmitBatches(tasks, past, servers, first, batch);
      var before := SubmitAll(tasks, past, servers, first, batch);
      NextIsFree(tasks, past, servers, first, batch);
      InsertCounts(before, first + |past|, Task(h, batch, servers[h]));
    }
  }

  lemma NextIsFree(tasks: Tasks, due: seq<string>, servers: map<string, nat>, first: nat, batch: nat)
    requires forall h :: h in due ==> h in servers
    requires TasksBelow(tasks, first)
    ensures first + |due| !in SubmitAll(tasks, due, servers, first, batch)
  {
    SubmitAllAdds(tasks, due, servers, first, batch);
  }

  lemma SubmitCounts(
    tasks: Tasks, batches: map<nat, nat>, due: seq<string>, servers: map<string, nat>, first: nat, batch: nat)
    requires forall h :: h in due ==> h in servers
    requires TasksBelow(tasks, first) && BatchesCount(tasks, batches) && batch !in batches && due != []
    ensures BatchesCount(SubmitAll(tasks, due, servers, first, batch), batches[batch := |due|])
  {
    SubmitBatches(tasks, due, servers, first, batch);
    hide SubmitAll;
    assert OfBatch(tasks, batch) == {};
  }

  lemma InsertView(tasks: Tasks, hosts: set<string>, t: nat, task: Task)
    requires ViewsAgree(tasks, hosts) && t !in tasks && task.host !in hosts
    ensures ViewsAgree(tasks[t := task], hosts + {task.host})
  {
    var n := tasks[t := task];
    forall u | u in tasks ensures tasks[u].host in hosts && n[u] == tasks[u] {
      assert tasks[u].host in HostsOf(tasks);
    }
    assert HostsOf(n) == HostsOf(tasks) + {task.host} by {
      assert n[t] == task;
      forall h | h in HostsOf(tasks) ensures h in HostsOf(n) {
        var u :| u in tasks && tasks[u].host == h;
        assert n[u].host == h;
      }
    }
  }

  lemma {:induction false} SubmitViews(
    tasks: Tasks, hosts: set<string>, due: seq<string>, servers: map<string, nat>, first: nat, batch: nat)
    requires forall h :: h in due ==> h in servers && h !in hosts
    requires TasksBelow(tasks, first) && Distinct(due) && ViewsAgree(tasks, hosts)
    ensures ViewsAgree(SubmitAll(tasks, due, servers, first, batch), hosts + SetOf(due))
  {
    hide ViewsAgree, TasksBelow;
    if due == [] {
      assert hosts + SetOf(due) == hosts;
    } else {
      var past := due[..|due| - 1];
      var h := due[|due| - 1];
      assert past + [h] == due;
      SetOfSnoc(past, h);
      assert h !in past;
      SubmitViews(tasks, hosts, past, servers, first, batch);
      NextIsFree(tasks, past, servers, first, batch);
      var next := first + |past|;
      InsertView(SubmitAll(tasks, past, servers, first, batch), hosts + SetOf(past), next, Task(h, batch, servers[h]));
      assert hosts + SetOf(past) + {h} == hosts + SetOf(due);
    }
  }

  lemma SubmitRest(s: State, due: seq<string>)
    requires Inv(s) && IncarnationsKnown(s, due)
    ensures
      var n := SubmitAll(s.inFlight, due, s.servers, s.nextTask, s.nextBatch);
      && TasksBelow(n, s.nextTask + |due|) && LostTracked(n, s.lost, s.servers, s.nextIncarnation)
      && LostBelow(s.lost, s.nextTask + |due|)
      && BatchesBelow(s.batches[s.nextBatch := |due|], s.nextBatch + 1)
  {
  }

  lemma SubmitInv(s: State, due: seq<string>)
    requires Inv(s)
    ensures Inv(DoSubmit(s, due))
  {
    hide SubmitAll, ViewsAgree, BatchesCount, TasksBelow, RecordsBelow, LostBelow, LostTracked, LostMeans, Known;
    hide SetOf, Distinct;
    if due != [] && s.phase.Working? && s.pending.None? && s.phase.generation == s.generation
       && Selectable(s, due) && IncarnationsKnown(s, due)
    {
      SubmitCounts(s.inFlight, s.batches, due, s.servers, s.nextTask, s.nextBatch);
      SubmitViews(s.inFlight, s.inFlightHosts, due, s.servers, s.nextTask, s.nextBatch);
      SubmitRest(s, due);
    }
  }

  // ---- every step keeps it -----------------------------------------------

  lemma StepKeepsInv(s: State, step: Step)
    requires Inv(s)
    ensures Inv(Apply(s, step))
  {
    hide DoRefresh, DoComplete, DoSubmit, ChangeHosts, ViewsAgree, BatchesCount, TasksBelow, BatchesBelow, RecordsBelow;
    hide LostBelow, LostTracked, LostMeans, Known, SetOf, Distinct;
    match step
    case UpdateConfig(hosts, workers) =>
      if Distinct(hosts) {
        UpdateInv(s, hosts, workers);
      }
    case Refresh(found) =>
      if found.None? || Distinct(found.value) {
        RefreshInv(s, found);
      }
    case Complete(t) => CompleteInv(s, t);
    case Submit(due) => SubmitInv(s, due);
    case _ =>
  }

  lemma EmptyInv()
    ensures Inv(Initial)
  {
  }

  lemma {:induction false} RunInv(steps: seq<Step>)
    ensures Inv(Run(steps))
  {
    hide Apply, Inv;
    if steps == [] {
      EmptyInv();
    } else {
      RunInv(steps[..|steps| - 1]);
      StepKeepsInv(Run(steps[..|steps| - 1]), steps[|steps| - 1]);
    }
  }

  // ---- the theorems ------------------------------------------------------

  /** At every point: no host is probed twice at once, the loop's set, the shared set and the probes in flight name the
      same hosts, and every open batch counts exactly its probes in flight. */
  lemma InFlightAgrees(steps: seq<Step>)
    ensures
      var s := Run(steps);
      && (forall a, b :: a in s.inFlight && b in s.inFlight && a != b ==> s.inFlight[a].host != s.inFlight[b].host)
      && s.inFlightHosts == HostsOf(s.inFlight)
      && (!s.phase.Stopped? ==> s.runtimeInFlight == s.inFlightHosts)
      && (forall b :: b in s.batches ==> s.batches[b] == |OfBatch(s.inFlight, b)| > 0)
      && (forall t :: t in s.inFlight ==> s.inFlight[t].batch in s.batches)
  {
    hide Run, HostsOf, OfBatch;
    RunInv(steps);
  }

  lemma SafeSubmission(s: State, due: seq<string>)
    requires Inv(s) && s.phase.Working? && s.phase.generation == s.generation && s.pending.None?
    requires Selectable(s, due) && due != []
    ensures IncarnationsKnown(s, due)
    ensures |DoSubmit(s, due).inFlight| == |s.inFlight| + |due| <= DoSubmit(s, due).maxWorkers
    ensures forall h :: h in due ==> h in DoSubmit(s, due).inFlightHosts && h !in DoSubmit(s, due).manual
  {
    hide ViewsAgree, BatchesCount, RecordsBelow, LostTracked, PendingTracked, BatchesBelow, LostBelow, Distinct;
    assert IncarnationsKnown(s, due);
    SubmitAllAdds(s.inFlight, due, s.servers, s.nextTask, s.nextBatch);
    hide SubmitAll;
  }

  /** Whatever the selection picks under the current configuration is in the store, so its incarnation is there
      to be read, and submitting it stays within the configured workers. */
  lemma SubmissionIsSafe(steps: seq<Step>, due: seq<string>)
    requires
      var s := Run(steps);
      s.phase.Working? && s.phase.generation == s.generation && s.pending.None? && Selectable(s, due) && due != []
    ensures
      var s := Run(steps);
      var n := Apply(s, Submit(due));
      && IncarnationsKnown(s, due)
      && |n.inFlight| == |s.inFlight| + |due| <= n.maxWorkers
      && forall h :: h in due ==> h in n.inFlightHosts && h !in n.manual
  {
    hide Run, Inv, DoSubmit, Selectable;
    RunInv(steps);
    SafeSubmission(Run(steps), due);
  }

  /** The probe is over and its host's record outlived it. */
  predicate Kept(s: State, t: nat) {
    t !in s.inFlight && t < s.nextTask && (s.pending.Some? ==> s.pending.value.0 != t) && t !in s.lost
  }

  predicate AppliedToOwn(s: State) {
    forall i :: 0 <= i < |s.applied| ==> Kept(s, s.applied[i].0)
  }

  lemma SubmitKeeps(s: State, due: seq<string>, t: nat)
    requires Inv(s) && Kept(s, t)
    ensures Kept(DoSubmit(s, due), t)
  {
    hide ViewsAgree, BatchesCount, BatchesBelow, RecordsBelow, LostTracked, PendingTracked, Known, SetOf, Distinct;
    if IncarnationsKnown(s, due) {
      SubmitAllAdds(s.inFlight, due, s.servers, s.nextTask, s.nextBatch);
    }
    hide SubmitAll;
  }

  lemma StaysKept(s: State, step: Step, t: nat)
    requires Inv(s) && Kept(s, t)
    ensures Kept(Apply(s, step), t)
  {
    hide Inv, SetHosts, SetOf, DoSubmit, Distinct, StillThere;
    if step.Submit? {
      SubmitKeeps(s, step.due, t);
    }
  }

  lemma NewlyApplied(s: State)
    requires Inv(s) && s.pending.Some?
    ensures
      var n := DoApply(s);
      n.applied == s.applied || (n.applied == s.applied + [s.pending.value] && Kept(n, s.pending.value.0))
  {
  }

  lemma StepAppliedToOwn(s: State, step: Step)
    requires Inv(s) && AppliedToOwn(s)
    ensures AppliedToOwn(Apply(s, step))
  {
    var n := Apply(s, step);
    forall i | 0 <= i < |s.applied| ensures Kept(n, s.applied[i].0) {
      StaysKept(s, step, s.applied[i].0);
    }
    if n.applied != s.applied {
      NewlyApplied(s);
    }
    hide Apply, Inv, Kept;
  }

  lemma {:induction false} AllAppliedToOwn(steps: seq<Step>)
    ensures AppliedToOwn(Run(steps))
  {
    hide Apply, Inv, AppliedToOwn;
    if steps == [] {
      NoneApplied();
    } else {
      AllAppliedToOwn(steps[..|steps| - 1]);
      RunInv(steps[..|steps| - 1]);
      StepAppliedToOwn(Run(steps[..|steps| - 1]), steps[|steps| - 1]);
    }
  }

  lemma NoneApplied()
    ensures AppliedToOwn(Initial)
  {
  }

  /** A result that reaches the store reaches the very host record its probe was started for: had the host been
      removed meanwhile, even to come back under a new record, the result would not have been applied. */
  lemma ResultsReachTheirHost(steps: seq<Step>, i: nat)
    requires i < |Run(steps).applied|
    ensures Run(steps).applied[i].0 !in Run(steps).lost
  {
    hide Run;
    AllAppliedToOwn(steps);
    assert Kept(Run(steps), Run(steps).applied[i].0);
  }
}
