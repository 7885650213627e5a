/**
  Tracker and durable log together, as the state store drives them: every
  applied sample updates the tracker and hands the log the new transitions
  with the criteria of the host's active conditions.
 */
module IncidentService {
  import opened Common
  import opened IncidentRules
  import opened IncidentTracker
  import opened IncidentRuns
  import opened IncidentStore

  class DurableTracker {
    const tracker: Tracker
    const recoveryCycles: int
    /** The tables after every write so far was committed. */
    ghost var db: Db
    ghost var ops: seq<Op>

    ghost predicate Valid()
      reads this, tracker
    {
      && tracker.Valid()
      && tracker.nextEventId == NextId(ops)
      && Honest(ops, recoveryCycles)
      && db == DbRun(ops)
      && forall host, k :: tracker.Tables(host).At(k) == KeyRun(ops, host, k)
    }

    constructor (historyPoints: nat, recoveryCycles: int)
      ensures Valid() && fresh(tracker) && ops == [] && this.recoveryCycles == recoveryCycles
    {
      tracker := new Tracker(historyPoints, [], [], recoveryCycles);
      this.recoveryCycles := recoveryCycles;
      db, ops := Db(map[], map[]), [];
    }

    /** A new process over the log of `before`: it is handed the newest rows, oldest first, and the
        conditions that are open in the log. */
    constructor Resume(historyPoints: nat, before: DurableTracker, historical: seq<Event>, open: seq<OpenIncident>)
      requires before.Valid() && historyPoints > 0
      requires ReadBack(open, before.db)
      requires NewestRows(historical, before.db)
      ensures Valid() && fresh(tracker) && recoveryCycles == before.recoveryCycles
      ensures db == before.db && ops == before.ops + [Op.Restart(before.recoveryCycles)]
    {
      tracker := new Tracker(historyPoints, historical, open, before.recoveryCycles);
      this.recoveryCycles := before.recoveryCycles;
      db, ops := before.db, before.ops + [Op.Restart(before.recoveryCycles)];
      new;
      hide Rebuilt, RestoredState, ReadBack;
      assert ops[..|ops| - 1] == before.ops;
      NextAfterNewest(historical, before.db, historyPoints, tracker.nextEventId);
      forall host, k ensures tracker.Tables(host).At(k) == KeyRun(ops, host, k) {
        ReadBackState(open, before.db, host, k, recoveryCycles);
      }
    }

    /** The confirmed criteria of one host, including those held during a pending change. */
    method Criteria(host: string) returns (criteria: seq<(Key, Option<int>)>)
      requires tracker.Valid()
      ensures forall k :: Projects(criteria, k, tracker.Tables(host).At(k))
    {
      var active := tracker.Tables(host).active;
      criteria := [];
      var pending := active.Keys;
      while pending != {}
        invariant pending <= active.Keys
        invariant forall c :: c in criteria ==> c.0 in active && c.1 == active[c.0].criticalAt
        invariant forall k :: k in active && k !in pending ==> (k, active[k].criticalAt) in criteria
        decreases pending
      {
        var key :| key in pending;
        pending := pending - {key};
        criteria := criteria + [(key, active[key].criticalAt)];
      }
      forall k ensures Projects(criteria, k, tracker.Tables(host).At(k)) {
        if k in active {
          assert (k, active[k].criticalAt) in criteria;
        }
      }
    }

    /** One applied sample. */
    method Apply(s: Sample) returns (created: seq<Event>)
      requires Valid()
      requires FromPolicy(s) && CarriesCriterion(s)
      requires forall k :: k in s.conditions ==> s.conditions[k].recoveryCycles == recoveryCycles
      modifies this, tracker
      ensures Valid()
      ensures exists criteria :: ops == old(ops) + [Observe(s, created, criteria)]
    {
      created := tracker.Update(s);
      var criteria := Criteria(s.host);
      ghost var op := Observe(s, created, criteria);
      ghost var past := ops;
      hide Step, Reports, Projects, HostTables.At, Of;
      forall k
        ensures Reports(Of(created, s.host, k), k, s, Step(KeyRun(past, s.host, k), k, s).emitted)
        ensures Projects(criteria, k, Step(KeyRun(past, s.host, k), k, s).state)
      {
        assert old(tracker.Tables(s.host)).At(k) == KeyRun(past, s.host, k);
        assert tracker.Tables(s.host).At(k) == Step(KeyRun(past, s.host, k), k, s).state;
      }
      assert Produced(past, s, created, criteria, recoveryCycles);
      assert (past + [op])[..|past|] == past;
      ops := past + [op];
      db := WriteState(db, s.host, created, criteria);
    }

    lemma RetireRuns(ops: seq<Op>, expired: Stamp -> bool, recoveryCycles: int)
      requires Honest(ops, recoveryCycles)
      ensures
        var next := ops + [Op.Retire(expired)];
        && Honest(next, recoveryCycles) && DbRun(next) == Prune(DbRun(ops), expired) && NextId(next) == NextId(ops)
        && forall host, k :: KeyRun(next, host, k) == KeyRun(ops, host, k)
    {
      hide Prune;
      assert (ops + [Op.Retire(expired)])[..|ops|] == ops;
    }

    /** One retention run. */
    ghost method Retire(expired: Stamp -> bool)
      requires Valid()
      modifies this`db, this`ops
      ensures Valid() && ops == old(ops) + [Op.Retire(expired)]
    {
      hide Prune, Honest, HostTables.At;
      RetireRuns(ops, expired, recoveryCycles);
      ops := ops + [Op.Retire(expired)];
      db := Prune(db, expired);
    }

    /** A new inventory: the tracker forgets all other hosts, and the log is told nothing. */
    method RemoveHosts(desired: set<string>)
      requires Valid()
      modifies this`ops, tracker
      ensures Valid() && ops == old(ops) + [Op.Remove(desired)] && db == old(db)
    {
      hide HostTables.At, DbRun;
      EmptyIsIdle();
      tracker.RemoveHosts(desired);
      RemoveRuns(ops, desired, recoveryCycles);
      ops := ops + [Op.Remove(desired)];
    }

    lemma EmptyIsIdle()
      ensures forall k :: Empty.At(k) == Idle
    {
    }

    lemma RemoveRuns(ops: seq<Op>, desired: set<string>, recoveryCycles: int)
      requires Honest(ops, recoveryCycles)
      ensures
        var next := ops + [Op.Remove(desired)];
        && Honest(next, recoveryCycles) && DbRun(next) == DbRun(ops) && NextId(next) == NextId(ops)
        && forall host, k :: KeyRun(next, host, k) == if host in desired then KeyRun(ops, host, k) else Idle
    {
      assert (ops + [Op.Remove(desired)])[..|ops|] == ops;
    }

    /** In every state the service can reach, the log on disk mirrors every condition that was not dropped with its
        host while active. */
    lemma Mirrored(host: string, key: Key)
      requires Valid()
      ensures Mirrors(tracker.Tables(host).At(key), db, host, key) <==> !Orphaned(ops, host, key)
    {
      LogMirrorsTracker(ops, recoveryCycles, host, key);
    }
  }
}
