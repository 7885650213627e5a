/**
  The asynchronous history writer: producers, flush barriers, close and the
  writer thread as interleaved atomic steps, each one section under a lock or
  one queue operation.
 */
module WriterProtocol {
  import opened Common

  const QUEUE_CAPACITY := 4096
  const WRITE_BATCH_SIZE := 128

  /** A queued write, numbered in submission order, or the barrier of a flush; a barrier remembers how many
      writes had been submitted when it was admitted. */
  datatype Item = Write(id: nat) | Barrier(flush: nat, mark: nat)

  datatype Phase =
    | Idle
    | SawEmpty
    | Collecting(items: seq<Item>)
    | Ready(items: seq<Item>)
    | Committed(items: seq<Item>)
    | Exited
    | Broken

  /** A flush call: `before` is the acknowledged loss count it read, `start` the loss count at that moment. */
  datatype Flush =
    | Started(before: nat, start: nat)
    | Waiting(before: nat, start: nat, mark: nat)
    | Completed(before: nat, start: nat, mark: nat, dropped: nat, failed: bool)
    | Returned(ok: bool)

  datatype State = State(
    queue: seq<Item>,
    phase: Phase,
    submitted: nat,
    committed: seq<nat>,
    dropped: seq<nat>,
    closed: bool,
    writerFailed: bool,
    flushes: map<nat, Flush>,
    flushedDrops: nat)

  const Initial := State([], Idle, 0, [], [], false, false, map[], 0)

  /** How a batch ends: stored except for writes that lost points to retention, or given up after the retry. */
  datatype Outcome = Stored(filtered: set<nat>) | Lost

  datatype Step =
    | Enqueue
    | Close
    | FlushStart(flush: nat)
    | FlushAdmit(flush: nat)
    | FlushTimeout(flush: nat)
    | FlushReturn(flush: nat)
    | TakeFirst
    | TakeMore
    | Seal
    | Commit(outcome: Outcome)
    | Finish
    | FindEmpty
    | TestStop
    | Crash

  // ---- items -------------------------------------------------------------

  function WritesOf(items: seq<Item>): seq<nat> {
    if items == [] then []
    else WritesOf(items[..|items| - 1]) + if items[|items| - 1].Write? then [items[|items| - 1].id] else []
  }

  function Keep(ids: seq<nat>, filtered: set<nat>, inside: bool): seq<nat> {
    if ids == [] then []
    else Keep(ids[..|ids| - 1], filtered, inside) + if (ids[|ids| - 1] in filtered) == inside then [ids[|ids| - 1]]
        else []
  }

  /** Writes taken from the queue whose outcome is still open. */
  function InBatch(p: Phase): seq<Item> {
    if p.Collecting? || p.Ready? then p.items else []
  }

  /** Items whose barrier has not been completed. */
  function Unfinished(p: Phase): seq<Item> {
    if p.Collecting? || p.Ready? || p.Committed? then p.items else []
  }

  /** Barriers among the items complete with the loss count of this moment. */
  function CompleteAll(flushes: map<nat, Flush>, items: seq<Item>, dropped: nat, failed: bool): map<nat, Flush> {
    map f | f in flushes ::
      if flushes[f].Waiting? && Barrier(f, flushes[f].mark) in items
      then Completed(flushes[f].before, flushes[f].start, flushes[f].mark, dropped, failed)
      else flushes[f]
  }

  // ---- steps -------------------------------------------------------------

  function DoEnqueue(s: State): State {
    var n := s.(submitted := s.submitted + 1);
    if s.closed || s.writerFailed || s.phase.Exited? || |s.queue| >= QUEUE_CAPACITY
    then n.(dropped := s.dropped + [s.submitted])
    else n.(queue := s.queue + [Write(s.submitted)])
  }

  function DoAdmit(s: State, f: nat): State {
    if f !in s.flushes || !s.flushes[f].Started? then s
    else if s.closed || s.writerFailed then s.(flushes := s.flushes[f := Returned(false)])
    else if |s.queue| >= QUEUE_CAPACITY then s
    else s.(queue := s.queue + [Barrier(f, s.submitted)],
            flushes := s.flushes[f := Waiting(s.flushes[f].before, s.flushes[f].start, s.submitted)])
  }

  function DoReturn(s: State, f: nat): State {
    if f in s.flushes && s.flushes[f].Completed? then
      var c := s.flushes[f];
      s.(flushedDrops := Max(s.flushedDrops, c.dropped),
         flushes := s.flushes[f := Returned(!c.failed && c.dropped == c.before)])
    else s
  }

  function DoCommit(s: State, outcome: Outcome): State {
    if !s.phase.Ready? then s
    else
      var ids := WritesOf(s.phase.items);
      var done := s.(phase := Committed(s.phase.items));
      match outcome
      case Stored(filtered) =>
        done.(committed := s.committed + Keep(ids, filtered, false), dropped := s.dropped + Keep(ids, filtered, true))
      case Lost => done.(dropped := s.dropped + ids)
  }

  /** The writer gives up: what it held uncommitted and all that is queued count as dropped, and every barrier
      completes as failed. */
  function DoCrash(s: State): State {
    if s.phase.Collecting? || s.phase.Exited? || s.phase.Broken? then s
    else
      var dropped := s.dropped + WritesOf(InBatch(s.phase)) + WritesOf(s.queue);
      s.(writerFailed := true, phase := Broken, queue := [], dropped := dropped,
         flushes := CompleteAll(s.flushes, Unfinished(s.phase) + s.queue, |dropped|, true))
  }

  function Apply(s: State, step: Step): State {
    match step
    case Enqueue => DoEnqueue(s)
    case Close => s.(closed := true)
    case FlushStart(f) =>
      if f in s.flushes then s else s.(flushes := s.flushes[f := Started(s.flushedDrops, |s.dropped|)])
    case FlushAdmit(f) => DoAdmit(s, f)
    case FlushTimeout(f) =>
      if f in s.flushes && (s.flushes[f].Started? || s.flushes[f].Waiting?)
      then s.(flushes := s.flushes[f := Returned(false)]) else s
    case FlushReturn(f) => DoReturn(s, f)
    case TakeFirst =>
      if s.phase.Idle? && s.queue != [] then s.(phase := Collecting([s.queue[0]]), queue := s.queue[1..]) else s
    case TakeMore =>
      if s.phase.Collecting? && s.phase.items != [] && s.phase.items[|s.phase.items| - 1].Write?
         && |s.phase.items| < WRITE_BATCH_SIZE && s.queue != []
      then s.(phase := Collecting(s.phase.items + [s.queue[0]]), queue := s.queue[1..]) else s
    case Seal =>
      if s.phase.Collecting? && s.phase.items != []
         && (s.phase.items[|s.phase.items| - 1].Barrier? || |s.phase.items| == WRITE_BATCH_SIZE || s.queue == [])
      then s.(phase := Ready(s.phase.items)) else s
    case Commit(outcome) => DoCommit(s, outcome)
    case Finish =>
      if s.phase.Committed? then
        s.(phase := Idle, flushes := CompleteAll(s.flushes, s.phase.items, |s.dropped|, false)) else s
    case FindEmpty => if s.phase.Idle? && s.queue == [] then s.(phase := SawEmpty) else s
    case TestStop => if s.phase.SawEmpty? then s.(phase := if s.closed then Exited else Idle) else s
    case Crash => DoCrash(s)
  }

  function Run(steps: seq<Step>): State {
    if steps == [] then Initial else Apply(Run(steps[..|steps| - 1]), steps[|steps| - 1])
  }

  // ---- accounting --------------------------------------------------------

  function Upto(n: nat): multiset<nat> {
    if n == 0 then multiset{} else Upto(n - 1) + multiset{n - 1}
  }

  predicate Balanced(
    queued: multiset<nat>, batch: multiset<nat>, committed: multiset<nat>, dropped: multiset<nat>, submitted: nat)
  {
    queued + batch + committed + dropped == Upto(submitted)
  }

  /** Every submitted write is exactly once in the queue, in the batch, committed or dropped. */
  predicate Accounted(s: State) {
    Balanced(multiset(WritesOf(s.queue)), multiset(WritesOf(InBatch(s.phase))), multiset(s.committed),
             multiset(s.dropped), s.submitted)
  }

  function Stamp(i: Item): nat {
    if i.Write? then 2 * i.id + 1 else 2 * i.mark
  }

  predicate Ascending(items: seq<Item>) {
    forall i, j :: 0 <= i < j < |items| ==> Stamp(items[i]) <= Stamp(items[j])
  }

  /** Items are in submission order, barriers between the writes before and after their admission. */
  predicate Ordered(s: State) {
    && Ascending(Unfinished(s.phase) + s.queue)
    && forall i :: i in Unfinished(s.phase) + s.queue ==> Stamp(i) <= 2 * s.submitted
  }

  /** A flush waits exactly while its barrier is somewhere ahead of completion. */
  predicate BarriersKnown(s: State) {
    forall f :: f in s.flushes && s.flushes[f].Waiting? ==>
        Barrier(f, s.flushes[f].mark) in Unfinished(s.phase) + s.queue
  }

  predicate LifecycleOk(s: State) {
    && (s.writerFailed <==> s.phase.Broken?)
    && (s.writerFailed ==> s.queue == [])
    && (s.phase.Exited? ==> s.closed)
    && ((s.phase.Collecting? || s.phase.Ready? || s.phase.Committed?) ==> s.phase.items != [])
  }

  /** Everything submitted before the mark is committed or among the first `dropped` losses. */
  predicate Settled(s: State, mark: nat, dropped: nat)
    requires dropped <= |s.dropped|
  {
    forall id :: 0 <= id < mark ==> id in s.committed || id in s.dropped[..dropped]
  }

  predicate FlushOk(s: State, f: Flush) {
    match f
    case Started(before, start) => before <= start <= |s.dropped|
    case Waiting(before, start, mark) => before <= start <= |s.dropped| && mark <= s.submitted
    case Completed(before, start, mark, dropped, failed) =>
      && before <= start <= dropped <= |s.dropped| && mark <= s.submitted
      && (!failed ==> Settled(s, mark, dropped))
    case Returned(_) => true
  }

  predicate FlushesOk(s: State) {
    && s.flushedDrops <= |s.dropped|
    && forall f :: f in s.flushes ==> FlushOk(s, s.flushes[f])
  }

  predicate Inv(s: State) {
    Accounted(s) && Ordered(s) && BarriersKnown(s) && LifecycleOk(s) && FlushesOk(s)
  }

  // ---- accounting is kept ------------------------------------------------

  lemma {:induction false} WritesConcat(a: seq<Item>, b: seq<Item>)
    ensures WritesOf(a + b) == WritesOf(a) + WritesOf(b)
  {
    if b == [] {
      assert a + b == a;
    } else {
      WritesConcat(a, b[..|b| - 1]);
      assert (a + b)[..|a + b| - 1] == a + b[..|b| - 1];
    }
  }

  lemma KeepSnoc(ids: seq<nat>, id: nat, filtered: set<nat>, inside: bool)
    ensures multiset(Keep(ids + [id], filtered, inside))
         == multiset(Keep(ids, filtered, inside)) + if (id in filtered) == inside then multiset{id} else multiset{}
  {
    assert (ids + [id])[..|ids|] == ids;
  }

  lemma {:induction false} KeepSplits(ids: seq<nat>, filtered: set<nat>)
    ensures multiset(Keep(ids, filtered, true)) + multiset(Keep(ids, filtered, false)) == multiset(ids)
  {
    if ids != [] {
      var past, id := ids[..|ids| - 1], ids[|ids| - 1];
      assert ids == past + [id];
      KeepSplits(past, filtered);
      KeepSnoc(past, id, filtered, true);
      KeepSnoc(past, id, filtered, false);
      hide Keep;
      Regroup(multiset(Keep(past, filtered, true)), multiset(Keep(past, filtered, false)), multiset{id});
    }
  }

  lemma Regroup(a: multiset<nat>, b: multiset<nat>, x: multiset<nat>)
    ensures a + x + (b + multiset{}) == a + b + x
    ensures a + multiset{} + (b + x) == a + b + x
  {
  }

  lemma WritesSnoc(items: seq<Item>, i: Item)
    ensures WritesOf(items + [i]) == WritesOf(items) + if i.Write? then [i.id] else []
  {
  }

  lemma CountOfSnoc(ids: seq<nat>, id: nat)
    ensures multiset(ids + [id]) == multiset(ids) + multiset{id}
  {
  }

  lemma CountOfConcat(a: seq<nat>, b: seq<nat>)
    ensures multiset(a + b) == multiset(a) + multiset(b)
  {
  }

  lemma OneMore(q: multiset<nat>, b: multiset<nat>, c: multiset<nat>, d: multiset<nat>, n: nat)
    requires Balanced(q, b, c, d, n)
    ensures Balanced(q + multiset{n}, b, c, d, n + 1)
    ensures Balanced(q, b, c, d + multiset{n}, n + 1)
  {
  }

  lemma EnqueueAccounted(s: State)
    requires Accounted(s)
    ensures Accounted(DoEnqueue(s))
  {
    hide WritesOf, Balanced;
    var queued, inBatch := multiset(WritesOf(s.queue)), multiset(WritesOf(InBatch(s.phase)));
    OneMore(queued, inBatch, multiset(s.committed), multiset(s.dropped), s.submitted);
    WritesSnoc(s.queue, Write(s.submitted));
    CountOfSnoc(WritesOf(s.queue), s.submitted);
    CountOfSnoc(s.dropped, s.submitted);
  }

  lemma AdmitAccounted(s: State, f: nat)
    requires Accounted(s)
    ensures Accounted(DoAdmit(s, f))
  {
    WritesSnoc(s.queue, Barrier(f, s.submitted));
    hide WritesOf, Upto;
    assert WritesOf(s.queue) + [] == WritesOf(s.queue);
  }

  lemma Moved(head: multiset<nat>, rest: multiset<nat>, b: multiset<nat>, c: multiset<nat>, d: multiset<nat>, n: nat)
    requires Balanced(head + rest, b, c, d, n)
    ensures Balanced(rest, b + head, c, d, n)
  {
  }

  /** Taking the head of the queue into the batch. */
  lemma TakeAccounted(s: State, next: State, items: seq<Item>)
    requires Accounted(s) && s.queue != [] && InBatch(s.phase) == items
    requires next == s.(phase := Collecting(items + [s.queue[0]]), queue := s.queue[1..])
    ensures Accounted(next)
  {
    hide WritesOf, Balanced;
    var head, rest := [s.queue[0]], s.queue[1..];
    assert s.queue == head + rest;
    WritesConcat(head, rest);
    WritesConcat(items, head);
    CountOfConcat(WritesOf(head), WritesOf(rest));
    CountOfConcat(WritesOf(items), WritesOf(head));
    Moved(multiset(WritesOf(head)), multiset(WritesOf(rest)), multiset(WritesOf(items)), multiset(s.committed),
          multiset(s.dropped), s.submitted);
  }

  lemma Booked(q: multiset<nat>, stored: multiset<nat>, lost: multiset<nat>, c: multiset<nat>, d: multiset<nat>, n: nat)
    requires Balanced(q, lost + stored, c, d, n)
    ensures Balanced(q, multiset{}, c + stored, d + lost, n)
  {
  }

  /** A batch's writes move, split by their outcome, to the two ends. */
  lemma BookAccounted(s: State, stored: seq<nat>, lost: seq<nat>)
    requires Accounted(s) && s.phase.Ready?
    requires multiset(lost) + multiset(stored) == multiset(WritesOf(s.phase.items))
    ensures
      var committed, dropped := s.committed + stored, s.dropped + lost;
      Accounted(s.(phase := Committed(s.phase.items), committed := committed, dropped := dropped))
  {
    hide Balanced;
    Booked(multiset(WritesOf(s.queue)), multiset(stored), multiset(lost), multiset(s.committed), multiset(s.dropped),
           s.submitted);
    CountOfConcat(s.committed, stored);
    CountOfConcat(s.dropped, lost);
  }

  lemma CommitAccounted(s: State, outcome: Outcome)
    requires Accounted(s)
    ensures Accounted(DoCommit(s, outcome))
  {
    hide Accounted, WritesOf, Keep;
    if s.phase.Ready? {
      var ids := WritesOf(s.phase.items);
      if outcome.Stored? {
        KeepSplits(ids, outcome.filtered);
        BookAccounted(s, Keep(ids, outcome.filtered, false), Keep(ids, outcome.filtered, true));
      } else {
        assert s.committed + [] == s.committed;
        BookAccounted(s, [], ids);
      }
    }
  }

  lemma Drained(q: multiset<nat>, b: multiset<nat>, c: multiset<nat>, d: multiset<nat>, n: nat)
    requires Balanced(q, b, c, d, n)
    ensures Balanced(multiset{}, multiset{}, c, d + b + q, n)
  {
  }

  lemma CrashAccounted(s: State)
    requires Accounted(s)
    ensures Accounted(DoCrash(s))
  {
    hide Balanced, CompleteAll;
    var batch, queued := WritesOf(InBatch(s.phase)), WritesOf(s.queue);
    Drained(multiset(queued), multiset(batch), multiset(s.committed), multiset(s.dropped), s.submitted);
    CountOfConcat(s.dropped, batch);
    CountOfConcat(s.dropped + batch, queued);
  }

  lemma StepAccounted(s: State, step: Step)
    requires Accounted(s)
    ensures Accounted(Apply(s, step))
  {
    hide DoEnqueue, DoAdmit, DoReturn, DoCommit, DoCrash, WritesOf, Upto, CompleteAll;
    match step
    case Enqueue => EnqueueAccounted(s);
    case FlushAdmit(f) => AdmitAccounted(s, f);
    case FlushReturn(f) => ReturnKeeps(s, f);
    case TakeFirst =>
      if s.phase.Idle? && s.queue != [] {
        assert [] + [s.queue[0]] == [s.queue[0]];
        TakeAccounted(s, Apply(s, step), []);
      }
    case TakeMore =>
      if Apply(s, step) != s {
        TakeAccounted(s, Apply(s, step), s.phase.items);
      }
    case Commit(outcome) => CommitAccounted(s, outcome);
    case Crash => CrashAccounted(s);
    case _ =>
  }

  lemma ReturnKeeps(s: State, f: nat)
    ensures
      var n := DoReturn(s, f);
      n == s.(flushedDrops := n.flushedDrops, flushes := n.flushes)
  {
  }

  // ---- order is kept -----------------------------------------------------

  lemma EnqueueOrdered(s: State)
    requires Ordered(s)
    ensures Ordered(DoEnqueue(s))
  {
    var items := Unfinished(s.phase) + s.queue;
    assert Unfinished(s.phase) + (s.queue + [Write(s.submitted)]) == items + [Write(s.submitted)];
  }

  lemma AdmitOrdered(s: State, f: nat)
    requires Ordered(s)
    ensures Ordered(DoAdmit(s, f))
  {
    var items := Unfinished(s.phase) + s.queue;
    assert Unfinished(s.phase) + (s.queue + [Barrier(f, s.submitted)]) == items + [Barrier(f, s.submitted)];
  }

  lemma SuffixOrdered(items: seq<Item>, rest: seq<Item>)
    requires Ascending(items + rest)
    ensures Ascending(rest)
    ensures forall i :: i in rest ==> i in items + rest
  {
    assert forall i :: 0 <= i < |rest| ==> rest[i] == (items + rest)[|items| + i];
  }

  lemma StepOrdered(s: State, step: Step)
    requires Ordered(s)
    ensures Ordered(Apply(s, step))
  {
    hide DoEnqueue, DoAdmit, DoReturn, DoCrash, CompleteAll, Ordered, WritesOf, Keep;
    match step
    case Enqueue => EnqueueOrdered(s);
    case FlushAdmit(f) => AdmitOrdered(s, f);
    case FlushReturn(f) =>
      ReturnKeeps(s, f);
      SameOrdered(s, Apply(s, step));
    case TakeFirst =>
      TakeSame(s);
      SameOrdered(s, Apply(s, step));
    case TakeMore =>
      TakeSame(s);
      SameOrdered(s, Apply(s, step));
    case Finish =>
      if s.phase.Committed? {
        FinishOrdered(s);
      }
    case Crash => CrashOrdered(s);
    case _ => SameOrdered(s, Apply(s, step));
  }

  /** A step that keeps the items and the count of submissions keeps the order. */
  lemma SameOrdered(s: State, n: State)
    requires Ordered(s) && n.submitted == s.submitted
    requires Unfinished(n.phase) + n.queue == Unfinished(s.phase) + s.queue
    ensures Ordered(n)
  {
    hide Ascending, Unfinished;
  }

  lemma FinishOrdered(s: State)
    requires Ordered(s) && s.phase.Committed?
    ensures Ordered(Apply(s, Finish))
  {
    hide CompleteAll, Ascending;
    SuffixOrdered(s.phase.items, s.queue);
    assert [] + s.queue == s.queue;
  }

  lemma CrashOrdered(s: State)
    requires Ordered(s)
    ensures Ordered(DoCrash(s))
  {
    hide CompleteAll, Ascending, WritesOf;
    NoneOrdered();
    assert Unfinished(Broken) + [] == [];
  }

  lemma NoneOrdered()
    ensures Ascending([])
  {
  }

  /** Taking from the queue moves the boundary, not the items. */
  lemma TakeSame(s: State)
    ensures
      var a := Apply(s, TakeFirst);
      Unfinished(a.phase) + a.queue == Unfinished(s.phase) + s.queue
    ensures
      var b := Apply(s, TakeMore);
      Unfinished(b.phase) + b.queue == Unfinished(s.phase) + s.queue
  {
  }

  // ---- barriers are kept -------------------------------------------------

  lemma StepBarriers(s: State, step: Step)
    requires BarriersKnown(s)
    ensures BarriersKnown(Apply(s, step))
  {
    hide DoReturn, WritesOf, Keep, Stamp;
    match step
    case FlushReturn(f) => ReturnBarriers(s, f);
    case TakeFirst => TakeSame(s);
    case TakeMore => TakeSame(s);
    case _ =>
  }

  lemma ReturnBarriers(s: State, f: nat)
    requires BarriersKnown(s)
    ensures BarriersKnown(DoReturn(s, f))
  {
  }

  lemma StepLifecycle(s: State, step: Step)
    requires LifecycleOk(s)
    ensures LifecycleOk(Apply(s, step))
  {
  }

  // ---- flushes are kept --------------------------------------------------

  predicate Grows(s: State, n: State) {
    s.dropped <= n.dropped && s.committed <= n.committed && s.submitted <= n.submitted
  }

  lemma SettledGrows(s: State, n: State, mark: nat, dropped: nat)
    requires Grows(s, n) && dropped <= |s.dropped| && Settled(s, mark, dropped)
    ensures Settled(n, mark, dropped)
  {
    assert n.dropped[..dropped] == s.dropped[..dropped];
    assert n.committed == s.committed + n.committed[|s.committed|..];
  }

  lemma FlushGrows(s: State, n: State, f: Flush)
    requires Grows(s, n) && FlushOk(s, f)
    ensures FlushOk(n, f)
  {
    if f.Completed? && !f.failed {
      SettledGrows(s, n, f.mark, f.dropped);
    }
    hide Settled;
  }

  lemma StepGrows(s: State, step: Step)
    ensures Grows(s, Apply(s, step))
  {
  }

  lemma UptoHas(n: nat, id: nat)
    ensures Upto(n)[id] == if id < n then 1 else 0
  {
  }

  lemma WritesIn(items: seq<Item>, id: nat)
    ensures id in WritesOf(items) <==> Write(id) in items
  {
  }

  /** When a batch is committed, everything submitted before a barrier in it is settled. */
  lemma BatchSettles(s: State, f: nat, mark: nat)
    requires Accounted(s) && Ordered(s) && s.phase.Committed? && mark <= s.submitted
    requires Barrier(f, mark) in s.phase.items
    ensures Settled(s, mark, |s.dropped|)
  {
    forall id | 0 <= id < mark ensures id in s.committed || id in s.dropped[..|s.dropped|] {
      UptoHas(s.submitted, id);
      assert s.dropped[..|s.dropped|] == s.dropped;
      NotQueued(s, f, mark, id);
      assert WritesOf([]) == [];
      assert multiset(s.committed)[id] + multiset(s.dropped)[id] == 1;
    }
    hide WritesOf, Upto;
  }

  /** Writes still queued behind a barrier of the batch were submitted after it. */
  lemma QueuedLater(s: State, f: nat, mark: nat, id: nat)
    requires Ordered(s) && s.phase.Committed? && Barrier(f, mark) in s.phase.items && Write(id) in s.queue
    ensures mark <= id
  {
    var items := s.phase.items;
    var all := items + s.queue;
    var i :| 0 <= i < |items| && items[i] == Barrier(f, mark);
    var j :| 0 <= j < |s.queue| && s.queue[j] == Write(id);
    assert all[i] == Barrier(f, mark) && all[|items| + j] == Write(id);
  }

  lemma NotQueued(s: State, f: nat, mark: nat, id: nat)
    requires Ordered(s) && s.phase.Committed? && Barrier(f, mark) in s.phase.items && id < mark
    ensures id !in WritesOf(s.queue)
  {
    WritesIn(s.queue, id);
    if Write(id) in s.queue {
      QueuedLater(s, f, mark, id);
    }
  }

  lemma FinishFlushes(s: State)
    requires Accounted(s) && Ordered(s) && FlushesOk(s) && s.phase.Committed?
    ensures FlushesOk(Apply(s, Finish))
  {
    hide Accounted, Ordered, Settled;
    var n := Apply(s, Finish);
    forall f | f in n.flushes ensures FlushOk(n, n.flushes[f]) {
      assert FlushOk(s, s.flushes[f]);
      if s.flushes[f].Waiting? && Barrier(f, s.flushes[f].mark) in s.phase.items {
        BatchSettles(s, f, s.flushes[f].mark);
        SettledGrows(s, n, s.flushes[f].mark, |s.dropped|);
      } else {
        FlushGrows(s, n, s.flushes[f]);
      }
    }
  }

  lemma CrashFlushes(s: State)
    requires FlushesOk(s)
    ensures FlushesOk(DoCrash(s))
  {
    hide WritesOf, Settled;
    var n := DoCrash(s);
    StepGrows(s, Crash);
    forall f | f in n.flushes ensures FlushOk(n, n.flushes[f]) {
      assert FlushOk(s, s.flushes[f]);
      FlushGrows(s, n, s.flushes[f]);
    }
  }

  /** A step that changes at most one flush record, into an acceptable one. */
  lemma OthersGrow(s: State, n: State, g: nat)
    requires FlushesOk(s) && Grows(s, n) && n.flushedDrops <= |n.dropped|
    requires forall f :: f in n.flushes && f != g ==> f in s.flushes && n.flushes[f] == s.flushes[f]
    requires g in n.flushes ==> FlushOk(n, n.flushes[g]) || (g in s.flushes && n.flushes[g] == s.flushes[g])
    ensures FlushesOk(n)
  {
    hide Settled, FlushOk, Grows;
    forall f | f in n.flushes ensures FlushOk(n, n.flushes[f]) {
      if f in s.flushes && n.flushes[f] == s.flushes[f] {
        FlushGrows(s, n, s.flushes[f]);
      }
    }
  }

  lemma ReturnFlushes(s: State, f: nat)
    requires FlushesOk(s)
    ensures FlushesOk(DoReturn(s, f))
  {
  }

  lemma AdmitFlushes(s: State, f: nat)
    requires FlushesOk(s)
    ensures FlushesOk(DoAdmit(s, f))
  {
  }

  lemma StepFlushes(s: State, step: Step)
    requires Inv(s)
    ensures FlushesOk(Apply(s, step))
  {
    hide Accounted, Ordered, BarriersKnown, LifecycleOk, Settled, CompleteAll, WritesOf, Keep, DoAdmit, DoReturn;
    match step
    case FlushAdmit(f) => AdmitFlushes(s, f);
    case FlushReturn(f) => ReturnFlushes(s, f);
    case Finish =>
      if s.phase.Committed? {
        FinishFlushes(s);
      }
    case Crash => CrashFlushes(s);
    case FlushStart(f) => StartFlushes(s, f);
    case FlushTimeout(f) => TimeoutFlushes(s, f);
    case _ =>
      StepGrows(s, step);
      OtherFlushes(s, step);
  }

  lemma StartFlushes(s: State, f: nat)
    requires FlushesOk(s)
    ensures FlushesOk(Apply(s, FlushStart(f)))
  {
    hide Settled;
    OthersGrow(s, Apply(s, FlushStart(f)), f);
  }

  lemma TimeoutFlushes(s: State, f: nat)
    requires FlushesOk(s)
    ensures FlushesOk(Apply(s, FlushTimeout(f)))
  {
    hide Settled;
    OthersGrow(s, Apply(s, FlushTimeout(f)), f);
  }

  predicate NotOfFlushes(step: Step) {
    step.Enqueue? || step.Close? || step.TakeFirst? || step.TakeMore? || step.Seal? || step.Commit?
    || step.FindEmpty? || step.TestStop?
  }

  lemma OtherFlushes(s: State, step: Step)
    requires FlushesOk(s) && NotOfFlushes(step) && Grows(s, Apply(s, step))
    ensures FlushesOk(Apply(s, step))
  {
    hide Settled, FlushOk, Grows, WritesOf, Keep;
    OthersGrow(s, Apply(s, step), 0);
  }

  lemma StepKeepsInv(s: State, step: Step)
    requires Inv(s)
    ensures Inv(Apply(s, step))
  {
    hide Apply, Accounted, Ordered, BarriersKnown, LifecycleOk, FlushesOk;
    StepAccounted(s, step);
    StepOrdered(s, step);
    StepBarriers(s, step);
    StepLifecycle(s, step);
    StepFlushes(s, step);
  }

  lemma {:induction false} RunInv(steps: seq<Step>)
    ensures Inv(Run(steps))
  {
    if steps != [] {
      RunInv(steps[..|steps| - 1]);
      StepKeepsInv(Run(steps[..|steps| - 1]), steps[|steps| - 1]);
      hide Apply, Inv;
    }
  }

  // ---- the theorems ------------------------------------------------------

  /** In every interleaving each submitted write is in exactly one place: queued, in the batch being written,
      committed, or counted as lost. */
  lemma ExactlyOnce(steps: seq<Step>, id: nat)
    requires id < Run(steps).submitted
    ensures
      var s := Run(steps);
      multiset(WritesOf(s.queue))[id] + multiset(WritesOf(InBatch(s.phase)))[id]
      + multiset(s.committed)[id] + multiset(s.dropped)[id] == 1
  {
    RunInv(steps);
    UptoHas(Run(steps).submitted, id);
    hide Run, Upto, WritesOf, Ordered, BarriersKnown, LifecycleOk, FlushesOk;
  }

  /** A flush that returns true lost nothing while it ran, and everything submitted before its barrier is
      committed or was already lost, and acknowledged, when it began. */
  lemma FlushTrueMeansStored(steps: seq<Step>, f: nat)
    requires f in Run(steps).flushes && Run(steps).flushes[f].Completed?
    requires Apply(Run(steps), FlushReturn(f)).flushes[f] == Returned(true)
    ensures
      var s := Run(steps);
      var c := s.flushes[f];
      && c.before == c.start == c.dropped <= |s.dropped|
      && forall id :: 0 <= id < c.mark ==> id in s.committed || id in s.dropped[..c.start]
  {
    RunInv(steps);
    var s := Run(steps);
    assert FlushOk(s, s.flushes[f]);
    hide Run, Accounted, Ordered, BarriersKnown, LifecycleOk, FlushesOk;
  }

  lemma RunSnoc(steps: seq<Step>, step: Step)
    ensures Run(steps + [step]) == Apply(Run(steps), step)
  {
  }

  lemma {:induction false} FailedForGood(steps: seq<Step>, later: seq<Step>)
    requires Run(steps).writerFailed
    ensures Run(steps + later).writerFailed
    decreases |later|
  {
    hide Run, Apply;
    if later == [] {
      assert steps + later == steps;
    } else {
      var past := later[..|later| - 1];
      var step := later[|later| - 1];
      FailedForGood(steps, past);
      assert steps + later == steps + past + [step];
      RunSnoc(steps + past, step);
      StaysFailed(Run(steps + past), step);
    }
  }

  /** After the writer failed nothing stays queued and no flush is left waiting, for good. */
  lemma FailureIsFinal(steps: seq<Step>, later: seq<Step>)
    requires Run(steps).writerFailed
    ensures
      var s := Run(steps + later);
      && s.writerFailed && s.queue == []
      && forall f :: f in s.flushes ==> !s.flushes[f].Waiting?
  {
    hide Run, Inv;
    FailedForGood(steps, later);
    RunInv(steps + later);
    FailedMeans(Run(steps + later));
  }

  lemma StaysFailed(s: State, step: Step)
    requires s.writerFailed
    ensures Apply(s, step).writerFailed
  {
  }

  lemma FailedMeans(s: State)
    requires Inv(s) && s.writerFailed
    ensures s.queue == [] && forall f :: f in s.flushes ==> !s.flushes[f].Waiting?
  {
  }

  // ---- what is queued when the writer has gone ---------------------------

  /** The item a step puts at the end of the queue, if it is admitted. */
  function Admits(s: State, step: Step): seq<Item> {
    match step
    case Enqueue =>
      if s.closed || s.writerFailed || s.phase.Exited? || |s.queue| >= QUEUE_CAPACITY then [] else [Write(s.submitted)]
    case FlushAdmit(f) =>
      if f !in s.flushes || !s.flushes[f].Started? || s.closed || s.writerFailed || |s.queue| >= QUEUE_CAPACITY then []
      else [Barrier(f, s.submitted)]
    case _ => []
  }

  /** The items admitted by `later` steps after the steps `past`, in order. */
  function Admitted(past: seq<Step>, later: seq<Step>): seq<Item> {
    if later == [] then []
    else
      var before := later[..|later| - 1];
      Admitted(past, before) + Admits(Run(past + before), later[|later| - 1])
  }

  predicate Undisturbed(steps: seq<Step>) {
    forall i :: 0 <= i < |steps| ==> steps[i] != TestStop && steps[i] != Crash
  }

  /** The writer found the queue empty at step `p` and has not looked at anything since. */
  predicate LookedAt(steps: seq<Step>, p: nat) {
    && p < |steps| && steps[p] == FindEmpty
    && Run(steps[..p]).phase.Idle? && Run(steps[..p]).queue == []
    && Undisturbed(steps[p + 1..])
  }

  lemma BetweenStep(s: State, step: Step)
    requires s.phase.SawEmpty? && step != TestStop && step != Crash
    ensures Apply(s, step).phase.SawEmpty? && Apply(s, step).queue == s.queue + Admits(s, step)
    ensures s.closed ==> Apply(s, step).closed && Admits(s, step) == []
  {
  }

  lemma BecomesSawEmpty(s: State, step: Step)
    requires Apply(s, step).phase.SawEmpty?
    ensures
      || (s.phase.SawEmpty? && step != TestStop && step != Crash)
      || (step == FindEmpty && s.phase.Idle? && s.queue == [])
  {
  }

  lemma Sliced(steps: seq<Step>, p: nat, q: nat, n: nat)
    requires p <= q <= n <= |steps|
    ensures steps[..n][..p] == steps[..p] && steps[..n][p..q] == steps[p..q] && steps[..p] + steps[p..q] == steps[..q]
  {
  }

  lemma StillLookedAt(steps: seq<Step>, p: nat)
    requires steps != [] && LookedAt(steps[..|steps| - 1], p)
    requires steps[|steps| - 1] != TestStop && steps[|steps| - 1] != Crash
    ensures LookedAt(steps, p)
  {
    hide Run;
    var n := |steps| - 1;
    Sliced(steps, p, n, n);
    assert steps[p + 1..] == steps[..n][p + 1..] + [steps[n]];
  }

  lemma AdmittedMore(steps: seq<Step>, p: nat)
    requires p + 1 < |steps|
    ensures
      var n := |steps| - 1;
      Admitted(steps[..p + 1], steps[p + 1..]) ==
          Admitted(steps[..p + 1], steps[p + 1..n]) + Admits(Run(steps[..n]), steps[n])
  {
    hide Run, Admits;
    var n := |steps| - 1;
    var later := steps[p + 1..];
    assert later[..n - p - 1] == steps[p + 1..n];
    Sliced(steps, p + 1, n, n);
  }

  /** What is queued while the writer is between its two looks came after the first one. */
  lemma {:induction false} QueuedSinceLook(steps: seq<Step>) returns (p: nat)
    requires Run(steps).phase.SawEmpty?
    ensures LookedAt(steps, p)
    ensures Run(steps).queue == Admitted(steps[..p + 1], steps[p + 1..])
    ensures Run(steps[..p]).closed ==> Run(steps).closed && Run(steps).queue == []
  {
    hide Apply, Admits, Admitted, LookedAt;
    var n := |steps| - 1;
    var s := Run(steps[..n]);
    BecomesSawEmpty(s, steps[n]);
    if s.phase.SawEmpty? && steps[n] != TestStop && steps[n] != Crash {
      p := QueuedSinceLook(steps[..n]);
      BetweenStep(s, steps[n]);
      LookedWithin(steps[..n], p);
      StillLookedAt(steps, p);
      AdmittedMore(steps, p);
      Sliced(steps, p, n, n);
      Sliced(steps, p + 1, n, n);
      hide Run;
    } else {
      p := n;
      LooksNow(steps);
    }
  }

  lemma LookedWithin(steps: seq<Step>, p: nat)
    requires LookedAt(steps, p)
    ensures p < |steps|
  {
  }

  lemma LooksNow(steps: seq<Step>)
    requires steps != [] && steps[|steps| - 1] == FindEmpty
    requires var s := Run(steps[..|steps| - 1]); s.phase.Idle? && s.queue == []
    ensures LookedAt(steps, |steps| - 1)
    ensures Admitted(steps[..|steps|], steps[|steps|..]) == []
    ensures Run(steps).queue == [] && Run(steps).closed == Run(steps[..|steps| - 1]).closed
  {
  }

  lemma AfterExit(s: State, step: Step)
    requires LifecycleOk(s) && s.phase.Exited?
    ensures Apply(s, step).phase.Exited? && Apply(s, step).queue == s.queue
  {
  }

  lemma BecomesExited(s: State, step: Step)
    requires Apply(s, step).phase.Exited? && !s.phase.Exited?
    ensures step == TestStop && s.phase.SawEmpty? && s.closed && Apply(s, step).queue == s.queue
  {
  }

  /** The writer last looked at step `p` and exited at step `q`. */
  predicate ExitedAt(steps: seq<Step>, p: nat, q: nat) {
    p < q < |steps| && LookedAt(steps[..q], p) && steps[q] == TestStop && Run(steps[..q]).closed
  }

  lemma {:induction false} QueueAtExit(steps: seq<Step>) returns (p: nat, q: nat)
    requires Run(steps).phase.Exited?
    ensures ExitedAt(steps, p, q)
    ensures Run(steps).queue == Admitted(steps[..p + 1], steps[p + 1..q])
    ensures Run(steps[..p]).closed ==> Run(steps).queue == []
  {
    hide Apply, Admits, Admitted, LookedAt;
    var n := |steps| - 1;
    var s := Run(steps[..n]);
    if s.phase.Exited? {
      p, q := QueueAtExit(steps[..n]);
      RunInv(steps[..n]);
      AfterExit(s, steps[n]);
    } else {
      BecomesExited(s, steps[n]);
      p := QueuedSinceLook(steps[..n]);
      q := n;
      LookedWithin(steps[..n], p);
    }
    hide Run, Inv;
    Sliced(steps, p, q, n);
    Sliced(steps, p + 1, q, n);
    Sliced(steps, q, q, n);
  }

  /** Every run whose writer has exited found the queue empty at some step `p` and saw the stop flag at a later
      step `q` without looking again in between.  What is queued from then on is exactly what was admitted in
      between: nothing stays behind iff nothing was, and nothing can be when the writer was closed by step `p`. */
  lemma QueuedAtExitIff(steps: seq<Step>) returns (p: nat, q: nat)
    requires Run(steps).phase.Exited?
    ensures ExitedAt(steps, p, q)
    ensures Run(steps).queue == Admitted(steps[..p + 1], steps[p + 1..q])
    ensures Run(steps).queue == [] <==> forall i :: p < i < q ==> Admits(Run(steps[..i]), steps[i]) == []
    ensures Run(steps[..p]).closed ==> Run(steps).queue == []
  {
    hide Run, Admits, Admitted, LookedAt;
    p, q := QueueAtExit(steps);
    var later := steps[p + 1..q];
    AdmittedNothing(steps[..p + 1], later);
    forall j | 0 <= j < |later| ensures steps[..p + 1] + later[..j] == steps[..p + 1 + j]
        && later[j] == steps[p + 1 + j] {
      Sliced(steps, p + 1, p + 1 + j, q);
      assert later[..j] == steps[p + 1..p + 1 + j];
    }
    assert forall i :: p < i < q ==> later[i - p - 1] == steps[i];
  }

  lemma {:induction false} AdmittedNothing(past: seq<Step>, later: seq<Step>)
    ensures Admitted(past, later) == [] <==>
              forall j :: 0 <= j < |later| ==> Admits(Run(past + later[..j]), later[j]) == []
  {
    hide Run, Admits;
    if later != [] {
      var before := later[..|later| - 1];
      AdmittedNothing(past, before);
      assert forall j :: 0 <= j < |before| ==> before[..j] == later[..j] && before[j] == later[j];
    }
  }

  /** A write admitted between the writer finding the queue empty and testing the stop flag outlives the writer. */
  lemma QueuedAtExit()
    ensures
      var s := Run([FindEmpty, Enqueue, Close, TestStop]);
      s.phase.Exited? && s.queue == [Write(0)]
  {
    var steps := [FindEmpty, Enqueue, Close, TestStop];
    assert steps[..3] == [FindEmpty, Enqueue, Close] && steps[..3][..2] == [FindEmpty, Enqueue];
    assert steps[..3][..2][..1] == [FindEmpty] && [FindEmpty][..0] == [];
    var s1 := Run([FindEmpty]);
    assert s1 == Initial.(phase := SawEmpty);
    var s2 := Run([FindEmpty, Enqueue]);
    assert s2 == DoEnqueue(s1);
    var s3 := Run([FindEmpty, Enqueue, Close]);
    assert s3 == s2.(closed := true);
    assert Run(steps) == s3.(phase := Exited);
  }
}
