/**
  The writer object: the sections its threads run under a lock, each changing
  the shared fields exactly as one step of the protocol.
 */
module HistoryWriter {
  import opened Common
  import opened WriterProtocol

  class SqliteWriter {
    var queue: seq<Item>
    var phase: Phase
    var submitted: nat
    var committed: seq<nat>
    var dropped: seq<nat>
    var closed: bool
    var writerFailed: bool
    var flushes: map<nat, Flush>
    var flushedDrops: nat

    function View(): State
      reads this
    {
      State(queue, phase, submitted, committed, dropped, closed, writerFailed, flushes, flushedDrops)
    }

    constructor ()
      ensures View() == Initial
    {
      queue, phase, submitted, committed, dropped := [], Idle, 0, [], [];
      closed, writerFailed, flushes, flushedDrops := false, false, map[], 0;
    }

    /** A producer's admission: never blocks, and counts what it cannot queue. */
    method EnqueueWrite() returns (queued: bool)
      modifies this
      ensures View() == Apply(old(View()), Enqueue)
      ensures queued <==> dropped == old(dropped)
    {
      var id := submitted;
      submitted := submitted + 1;
      queued := false;
      if closed || writerFailed || phase.Exited? {
        dropped := dropped + [id];
        return;
      }
      if |queue| >= QUEUE_CAPACITY {
        dropped := dropped + [id];
        return;
      }
      queue := queue + [Write(id)];
      queued := true;
    }

    method RequestClose()
      modifies `closed
      ensures View() == Apply(old(View()), Close)
    {
      closed := true;
    }

    /** A flush reads the acknowledged losses before it tries to enter the queue. */
    method BeginFlush(f: nat)
      requires f !in flushes
      modifies `flushes
      ensures View() == Apply(old(View()), FlushStart(f))
    {
      flushes := flushes[f := Started(flushedDrops, |dropped|)];
    }

    /** One admission attempt; a full queue leaves the flush to try again. */
    method AdmitBarrier(f: nat)
      requires f in flushes && flushes[f].Started?
      modifies this
      ensures View() == Apply(old(View()), FlushAdmit(f))
    {
      if closed || writerFailed {
        flushes := flushes[f := Returned(false)];
      } else if |queue| < QUEUE_CAPACITY {
        var call := flushes[f];
        queue := queue + [Barrier(f, submitted)];
        flushes := flushes[f := Waiting(call.before, call.start, submitted)];
      }
    }

    /** The end of a flush whose barrier completed: its losses are acknowledged whatever it returns. */
    method EndFlush(f: nat) returns (ok: bool)
      requires f in flushes && flushes[f].Completed?
      modifies this
      ensures View() == Apply(old(View()), FlushReturn(f))
      ensures flushes[f] == Returned(ok)
    {
      var call := flushes[f];
      if call.dropped > flushedDrops {
        flushedDrops := call.dropped;
      }
      ok := !call.failed && call.dropped == call.before;
      flushes := flushes[f := Returned(ok)];
    }

    method TakeOne() returns (more: bool)
      requires phase.Idle? || (phase.Collecting? && phase.items != [])
      modifies this
      ensures more <==> View() != old(View())
      ensures View() == Apply(old(View()), if old(phase).Idle? then TakeFirst else TakeMore)
    {
      more := false;
      if queue == [] {
        return;
      }
      if phase.Idle? {
        phase := Collecting([queue[0]]);
      } else if phase.items[|phase.items| - 1].Write? && |phase.items| < WRITE_BATCH_SIZE {
        phase := Collecting(phase.items + [queue[0]]);
      } else {
        return;
      }
      queue := queue[1..];
      more := true;
    }

    /** The outcome of the batch's transaction is booked. */
    method BookCommit(outcome: Outcome)
      requires phase.Ready?
      modifies this
      ensures View() == Apply(old(View()), Commit(outcome))
    {
      var ids := WritesOf(phase.items);
      match outcome {
        case Stored(filtered) =>
          var lost, stored := [], [];
          for i := 0 to |ids|
            invariant lost == Keep(ids[..i], filtered, true)
            invariant stored == Keep(ids[..i], filtered, false)
          {
            if ids[i] in filtered {
              lost := lost + [ids[i]];
            } else {
              stored := stored + [ids[i]];
            }
            assert ids[..i + 1][..i] == ids[..i];
          }
          assert ids[..|ids|] == ids;
          committed := committed + stored;
          dropped := dropped + lost;
        case Lost =>
          dropped := dropped + ids;
      }
      phase := Committed(phase.items);
    }

    /** Every barrier among the items completes with the loss count of this moment. */
    method FinishItems(items: seq<Item>, failed: bool)
      modifies `flushes
      ensures flushes == CompleteAll(old(flushes), items, |dropped|, failed)
    {
      assert CompleteAll(flushes, [], |dropped|, failed) == flushes;
      for i := 0 to |items|
        invariant flushes == CompleteAll(old(flushes), items[..i], |dropped|, failed)
      {
        assert items[..i + 1] == items[..i] + [items[i]];
        if items[i].Barrier? && items[i].flush in flushes {
          var call := flushes[items[i].flush];
          if call.Waiting? && call.mark == items[i].mark {
            flushes := flushes[items[i].flush := Completed(call.before, call.start, call.mark, |dropped|, failed)];
          }
        }
      }
      assert items[..|items|] == items;
    }

    method FinishBatch()
      requires phase.Committed?
      modifies this
      ensures View() == Apply(old(View()), Finish)
    {
      FinishItems(phase.items, false);
      phase := Idle;
    }

    method Drain() returns (pending: seq<Item>)
      modifies `queue
      ensures pending == old(queue) && queue == []
    {
      pending := [];
      while queue != []
        invariant pending + queue == old(queue)
        decreases |queue|
      {
        pending := pending + [queue[0]];
        queue := queue[1..];
      }
    }

    /** The writer's last act when it fails: admission closes before the queue is drained. */
    method FailWriter()
      requires !phase.Collecting? && !phase.Exited? && !phase.Broken?
      modifies this
      ensures View() == Apply(old(View()), Crash)
    {
      hide WritesOf, CompleteAll;
      writerFailed := true;
      var pending := Drain();
      dropped := dropped + WritesOf(InBatch(phase)) + WritesOf(pending);
      FinishItems(Unfinished(phase) + pending, true);
      phase := Broken;
    }
  }
}
