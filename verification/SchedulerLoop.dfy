/**
  The scheduler object: the sections of the loop and of the other threads,
  each changing the shared collections as one step of the model.
 */
module SchedulerLoop {
  import opened Common
  import opened Scheduler

  // ---- choosing the due hosts --------------------------------------------

  /** What the selection ranks by: the deadline, 0 when none is set, then the inventory order. */
  datatype Ranking = Ranking(active: seq<string>, busy: set<string>, deadlines: map<string, real>, now: real)
  {
    function Deadline(i: nat): real
      requires i < |active|
    {
      if active[i] in deadlines then deadlines[active[i]] else 0.0
    }

    predicate Due(i: nat) {
      i < |active| && active[i] !in busy && Deadline(i) <= now
    }

    predicate NotAfter(i: nat, j: nat)
      requires i < |active| && j < |active|
    {
      Deadline(i) < Deadline(j) || (Deadline(i) == Deadline(j) && i <= j)
    }

    function DueSet(): set<nat> {
      set i: nat | i < |active| && Due(i)
    }
  }

  method SoonestOf(r: Ranking, s: set<nat>) returns (m: nat)
    requires s != {} && forall i :: i in s ==> i < |r.active|
    ensures m in s && forall i :: i in s ==> r.NotAfter(m, i)
  {
    m :| m in s;
    var left := s - {m};
    while left != {}
      invariant m in s && left <= s
      invariant forall i :: i in s - left ==> r.NotAfter(m, i)
      decreases |left|
    {
      var i :| i in left;
      if r.NotAfter(i, m) {
        forall x | x in s - left ensures r.NotAfter(i, x) {
          assert r.NotAfter(m, x);
        }
        m := i;
      }
      left := left - {i};
    }
  }

  /** The positions of the `available` soonest due hosts. */
  method SmallestDue(r: Ranking, available: nat) returns (chosen: seq<nat>)
    ensures forall i, j :: 0 <= i < j < |chosen| ==> chosen[i] != chosen[j]
    ensures forall i :: i in chosen ==> i in r.DueSet()
    ensures |chosen| == if available <= |r.DueSet()| then available else |r.DueSet()|
    ensures forall i, j :: i in chosen && j in r.DueSet() && j !in chosen ==>
        i < |r.active| && j < |r.active| && r.NotAfter(i, j)
  {
    chosen := [];
    var left := r.DueSet();
    while |chosen| < available && left != {}
      invariant left <= r.DueSet() && |left| + |chosen| == |r.DueSet()|
      invariant |chosen| <= available
      invariant forall i :: i in chosen <==> i in r.DueSet() - left
      invariant forall i, j :: 0 <= i < j < |chosen| ==> chosen[i] != chosen[j]
      invariant forall i, j :: i in chosen && j in left ==> i < |r.active| && j < |r.active| && r.NotAfter(i, j)
      decreases |left|
    {
      var m := SoonestOf(r, left);
      chosen := chosen + [m];
      left := left - {m};
    }
  }

  predicate Within(positions: seq<nat>, n: nat) {
    forall i :: 0 <= i < |positions| ==> positions[i] < n
  }

  function HostsAt(active: seq<string>, positions: seq<nat>): (hosts: seq<string>)
    requires Within(positions, |active|)
    ensures |hosts| == |positions|
    ensures forall i :: 0 <= i < |positions| ==> hosts[i] == active[positions[i]]
  {
    if positions == [] then []
    else HostsAt(active, positions[..|positions| - 1]) + [active[positions[|positions| - 1]]]
  }

  // ---- the scheduler object ----------------------------------------------

  method Register(kept: map<string, nat>, from: nat, hosts: seq<string>) returns (servers: map<string, nat>, next: nat)
    ensures Registry(servers, next) == AddHosts(Registry(kept, from), hosts)
  {
    servers, next := kept, from;
    for i := 0 to |hosts|
      invariant Registry(servers, next) == AddHosts(Registry(kept, from), hosts[..i])
    {
      if hosts[i] !in servers {
        servers := servers[hosts[i] := next];
        next := next + 1;
      }
      assert hosts[..i + 1][..i] == hosts[..i];
    }
    assert hosts[..|hosts|] == hosts;
  }

  /** The probes of one batch enter the in-flight tasks and both views, host by host. */
  method Launch(tasks: Tasks, hosts: set<string>, shared: set<string>, requested: set<string>, due: seq<string>,
                servers: map<string, nat>, first: nat, batch: nat)
    returns (inFlight: Tasks, inFlightHosts: set<string>, runtimeInFlight: set<string>, manual: set<string>)
    requires forall h :: h in due ==> h in servers
    ensures inFlight == SubmitAll(tasks, due, servers, first, batch)
    ensures inFlightHosts == hosts + SetOf(due) && runtimeInFlight == shared + SetOf(due)
    ensures manual == requested - SetOf(due)
  {
    hide SubmitAll;
    inFlight, inFlightHosts, runtimeInFlight, manual := tasks, hosts, shared, requested;
    SubmitNone(tasks, servers, first, batch);
    for i := 0 to |due|
      invariant inFlight == SubmitAll(tasks, due[..i], servers, first, batch)
      invariant inFlightHosts == hosts + SetOf(due[..i]) && runtimeInFlight == shared + SetOf(due[..i])
      invariant manual == requested - SetOf(due[..i])
    {
      var h := due[i];
      assert due[..i + 1] == due[..i] + [h];
      SetOfSnoc(due[..i], h);
      SubmitSnoc(tasks, due[..i], h, servers, first, batch);
      inFlightHosts := inFlightHosts + {h};
      runtimeInFlight := runtimeInFlight + {h};
      manual := manual - {h};
      inFlight := inFlight[first + i := Task(h, batch, servers[h])];
    }
    assert due[..|due|] == due;
  }

  lemma SubmitNone(tasks: Tasks, servers: map<string, nat>, first: nat, batch: nat)
    ensures SubmitAll(tasks, [], servers, first, batch) == tasks
  {
  }

  /** Choosing and launching: what one round submits under a current configuration. */
  method Choose(s: State, deadlines: map<string, real>, now: real) returns (due: seq<string>)
    requires s.phase.Working? && Distinct(s.active)
    ensures Selectable(s, due)
  {
    var available := if s.phase.workers > |s.inFlight| then s.phase.workers - |s.inFlight| else 0;
    var r := Ranking(s.active, s.inFlightHosts, deadlines, now);
    var chosen := SmallestDue(r, available);
    forall i | 0 <= i < |chosen| ensures chosen[i] in r.DueSet() && chosen[i] < |s.active| {
      assert chosen[i] in chosen;
    }
    due := HostsAt(s.active, chosen);
    forall h | h in due ensures h in s.active && h !in s.inFlightHosts {
      var i :| 0 <= i < |due| && due[i] == h;
      assert chosen[i] in r.DueSet();
    }
  }

  lemma SubmitSnoc(tasks: Tasks, due: seq<string>, h: string, servers: map<string, nat>, first: nat, batch: nat)
    requires forall o :: o in due ==> o in servers
    requires h in servers
    ensures SubmitAll(tasks, due + [h], servers, first, batch) ==
            SubmitAll(tasks, due, servers, first, batch)[first + |due| := Task(h, batch, servers[h])]
  {
  }

  /** The scheduler with the store whose host records it reads; `state` holds the collections both change. */
  class ProbeScheduler {
    var state: State

    ghost predicate Valid()
      reads this
    {
      Inv(state)
    }

    constructor ()
      ensures Valid() && state == Initial
    {
      state := Initial;
      new;
      EmptyInv();
    }

    /** Hosts leave the store, newcomers get fresh incarnations in order. */
    method SetStoreHosts(hosts: seq<string>)
      modifies this
      ensures state == ChangeHosts(old(state), hosts)
    {
      hide AddHosts;
      var servers, next :=
          Register(map h | h in state.servers && h in hosts :: state.servers[h], state.nextIncarnation, hosts);
      var gone := set t | t in state.inFlight && state.inFlight[t].host !in hosts;
      if state.pending.Some? && state.pending.value.1.host !in hosts {
        gone := gone + {state.pending.value.0};
      }
      assert state.lost + gone == ChangeHosts(state, hosts).lost;
      state := state.(discovered := hosts, servers := servers, nextIncarnation := next, lost := state.lost + gone);
    }

    method ReplaceConfig(hosts: seq<string>, workers: nat)
      requires Valid() && Distinct(hosts)
      modifies this
      ensures Valid() && state == Apply(old(state), UpdateConfig(hosts, workers))
    {
      hide Inv, ChangeHosts;
      StepKeepsInv(state, UpdateConfig(hosts, workers));
      var wanted := SetOf(hosts);
      SetStoreHosts(hosts);
      ChangeHostsKeeps(old(state), hosts);
      state := state.(runtimeHosts := state.runtimeHosts * wanted, manual := state.manual * wanted,
                      maxWorkers := workers, generation := state.generation + 1);
    }

    /** The answer to a manual request, and the request that is queued by it. */
    method RequestHostProbe(host: string, cooledDown: bool) returns (accepted: bool)
      requires Valid()
      modifies this
      ensures Valid() && state == Apply(old(state), RequestProbe(host, cooledDown))
      ensures accepted <==> host in state.manual && host in state.runtimeHosts && host !in state.runtimeInFlight
    {
      hide Inv;
      StepKeepsInv(state, RequestProbe(host, cooledDown));
      accepted := false;
      if host in state.runtimeHosts && host !in state.runtimeInFlight {
        if host in state.manual {
          accepted := true;
        } else if cooledDown {
          state := state.(manual := state.manual + {host});
          accepted := true;
        }
      }
    }

    /** The loop leaves at its top or in the section that submits. */
    method LeaveLoop()
      requires Valid() && (state.phase.Top? || state.phase.Working?) && state.pending.None?
      modifies this
      ensures Valid() && state == Apply(old(state), Stop)
    {
      hide Inv;
      StepKeepsInv(state, Stop);
      state := state.(phase := Stopped, runtimeHosts := {}, runtimeInFlight := {}, manual := {});
    }

    method BeginRound()
      requires Valid() && state.phase.Top?
      modifies this
      ensures Valid() && state == Apply(old(state), TakeSnapshot)
    {
      hide Inv;
      StepKeepsInv(state, TakeSnapshot);
      state := state.(phase := Snapshot(state.generation, state.maxWorkers));
    }

    method RefreshInventory(found: Option<seq<string>>)
      requires Valid() && state.phase.Snapshot? && (found.Some? ==> Distinct(found.value))
      modifies this
      ensures Valid() && state == Apply(old(state), Refresh(found))
    {
      hide Inv, ChangeHosts;
      StepKeepsInv(state, Refresh(found));
      var snapshot := state.phase;
      if snapshot.generation != state.generation {
        state := state.(phase := Top);
        return;
      }
      if found.Some? {
        SetStoreHosts(found.value);
      }
      var hosts := SetOf(state.discovered);
      state := state.(active := state.discovered, runtimeHosts := hosts, manual := state.manual * hosts,
                      phase := Working(snapshot.generation, snapshot.workers));
    }

    /** A finished probe leaves all three views; its batch counts down and ends with its last probe. */
    method DrainOne(t: nat)
      requires Valid() && state.phase.Working? && state.pending.None? && t in state.inFlight
      modifies this
      ensures Valid() && state == Apply(old(state), Complete(t))
    {
      hide Inv;
      StepKeepsInv(state, Complete(t));
      var task := state.inFlight[t];
      state := state.(inFlight := state.inFlight - {t}, inFlightHosts := state.inFlightHosts - {task.host},
                      runtimeInFlight := state.runtimeInFlight - {task.host});
      var batch := task.batch;
      if batch in state.batches && state.batches[batch] > 0 {
        if state.batches[batch] > 1 {
          state := state.(batches := state.batches[batch := state.batches[batch] - 1]);
        } else {
          if batch > state.lastCompleted {
            state := state.(lastCompleted := batch, cycles := state.cycles + [batch]);
          }
          state := state.(batches := state.batches - {batch});
        }
      }
      if task.host in state.active && StillThere(state.servers, task) {
        state := state.(pending := Some((t, task)));
      }
    }

    /** The store applies a result only to the record its probe was started for. */
    method ApplyPending() returns (done: bool)
      requires Valid()
      modifies this
      ensures Valid() && state == Apply(old(state), ApplyResult)
      ensures done <==> state.applied != old(state).applied
    {
      hide Inv;
      StepKeepsInv(state, ApplyResult);
      done := state.pending.Some? && StillThere(state.servers, state.pending.value.1);
      if done {
        state := state.(applied := state.applied + [state.pending.value]);
      }
      state := state.(pending := None);
    }

    /** One round's submissions: the soonest due hosts, as many as there are free workers. */
    method SubmitDue(deadlines: map<string, real>, now: real) returns (due: seq<string>)
      requires Valid() && state.phase.Working? && state.pending.None?
      modifies this
      ensures Valid() && state == Apply(old(state), Submit(due))
      ensures old(state).phase.generation == old(state).generation ==> Selectable(old(state), due) && state.phase.Top?
      ensures due != [] ==> |state.inFlight| == |old(state).inFlight| + |due| <= state.maxWorkers
    {
      hide Inv, SubmitAll, SetOf;
      due := [];
      if state.phase.generation != state.generation {
        StepKeepsInv(state, Submit(due));
        state := state.(phase := Top);
        return;
      }
      ActiveDistinct(state);
      due := Choose(state, deadlines, now);
      StepKeepsInv(state, Submit(due));
      if due != [] {
        SafeSubmission(state, due);
        var tasks, hosts, shared, manual :=
          Launch(state.inFlight, state.inFlightHosts, state.runtimeInFlight, state.manual, due, state.servers,
                 state.nextTask, state.nextBatch);
        state := state.(inFlight := tasks, inFlightHosts := hosts, runtimeInFlight := shared, manual := manual,
                        batches := state.batches[state.nextBatch := |due|], nextBatch := state.nextBatch + 1,
                        nextTask := state.nextTask + |due|);
      }
      state := state.(phase := Top);
    }
  }

  lemma ActiveDistinct(s: State)
    requires Inv(s)
    ensures Distinct(s.active)
  {
  }

  lemma ChangeHostsKeeps(s: State, hosts: seq<string>)
    ensures
      var n := ChangeHosts(s, hosts);
      n.runtimeHosts == s.runtimeHosts && n.manual == s.manual && n.generation == s.generation
  {
  }
}
