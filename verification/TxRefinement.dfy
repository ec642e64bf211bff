/** The ring performs every event of the transmit side, so whatever holds of the
    queues of a run holds of the rings behind them. */
module TxRefinement {
  import opened Basics
  import opened TxQueueSpec
  import opened TxSystem
  import opened TxTheorems
  import opened TxContents
  import Ring = TxQueueRing

  /** The transmission the runner holds: the slot index and the frame. */
  type Transmission = Option<(nat, Frame)>

  function TransmissionOf(n: nat, q: Fifo): Transmission
    requires n >= 1
  {
    if q.runner.Transmitting? then Some((q.ended % n, q.runner.frame)) else None
  }

  /** The buffer that an event makes queue `qi` give back to the pool. */
  function GivenUp(n: nat, qi: nat, q: Fifo, e: Event): Option<nat>
    requires LocallyEnabled(qi, q, e)
  {
    match e
    case Submit(k, _) => if k == qi then Displaced(n, q) else None
    case RadioDone(k, result, _) =>
      if k == qi && FinishReleases(q, Some(result)) then Some(q.runner.frame.buffer) else None
    case AbortRunner(k) => if k == qi && q.runner.Transmitting? then Some(q.runner.frame.buffer) else None
    case DropPending(k, g) => if k == qi && g in q.unclaimed then Some(q.unclaimed[g].buffer) else None
    case _ => None
  }

  /** It is the buffer that the world's pool takes back. */
  lemma GivenUpIsReturned(w: World, e: Event)
    requires Enabled(w, e) && !e.Alloc? && !e.Write? && !e.Discard?
    ensures LocallyEnabled(e.queue, w.queues[e.queue], e)
    ensures GivenUp(w.n, e.queue, w.queues[e.queue], e) == Returned(w, e)
  {
  }

  /** What the holder of a handle is told by an event. */
  function Told(n: nat, qi: nat, q: Fifo, e: Event): Option<Poll> {
    if e.PollCompletion? && e.queue == qi then Some(PollAnswer(n, q, e.handle)) else None
  }

  /** An event on the ring of queue `qi`: it takes the abstract queue where the
      event takes it, gives up the same buffer and tells the same. Only what
      the source asserts of a submission is required. */
  method Perform(ring: Ring.TxQueue, qi: nat, e: Event, held: Transmission)
    returns (held': Transmission, givenUp: Option<nat>, told: Option<Poll>)
    requires ring.Valid() && LocallyEnabled(qi, ring.fifo, e) && held == TransmissionOf(ring.n, ring.fifo)
    requires e.Submit? && e.queue == qi ==> ring.fifo.Len() < ring.n && ring.counter < U64_MAX
    modifies ring, ring.slots, ring.interest, ring.wakers
    ensures ring.Valid() && ring.fifo == Local(ring.n, qi, old(ring.fifo), e)
    ensures held' == TransmissionOf(ring.n, ring.fifo)
    ensures givenUp == GivenUp(ring.n, qi, old(ring.fifo), e)
    ensures told == Told(ring.n, qi, old(ring.fifo), e)
  {
    assert ring.fifo.runner.Transmitting? ==> ring.fifo.runner.frame == ring.fifo.frames[ring.fifo.ended];
    hide Inv, Ring.Agrees, Ring.SlotOf;
    held', givenUp, told := held, None, None;
    match e {
      case Submit(k, frame) =>
        if k == qi {
          var _, displaced, _ := ring.EnqueueFrame(frame);
          givenUp := displaced;
        }
      case PollRunner(k) =>
        if k == qi {
          var ready := ring.PollNotEmpty();
          if ready {
            held' := ring.TryReceive();
          }
        }
      case RadioDone(k, result, _) =>
        if k == qi {
          var (index, frame) := held.value;
          var data := Ring.ReturnDataAvailable(Completion(result, frame.buffer, frame.length));
          var discarded, _ := ring.FinishSlot(index, data, Some(result));
          givenUp := if discarded.Some? then Ring.BufferIn(discarded.value) else None;
          held' := None;
        }
      case AbortRunner(k) =>
        if k == qi {
          if held.Some? {
            var _, _ := ring.FinishSlot(held.value.0, Ring.Empty, None);
            givenUp := Some(held.value.1.buffer);
            held' := None;
          } else {
            ring.StopRunner();
          }
        }
      case StartRunner(k) =>
        if k == qi {
          ring.StartRunner();
        }
      case PollCompletion(k, g) =>
        if k == qi {
          var poll := ring.PollCompletion(g);
          told := Some(poll);
        }
      case DropPending(k, g) =>
        if k == qi {
          givenUp := ring.DropPending(g);
        }
      case _ =>
    }
  }

  /** Any run of the transmit side, performed on a new ring for queue `qi`: no
      assertion of the source fails on the way, and the ring ends up
      representing that queue. */
  method Replay(n: nat, size: nat, ghost ws: seq<World>, es: seq<Event>, qi: nat) returns (ring: Ring.TxQueue)
    requires n >= 1 && IsRun(n, size, ws, es) && qi < QUEUES
    ensures fresh(ring) && ring.Valid() && ring.n == n
    ensures |ws[|es|].queues| == QUEUES && ring.fifo == ws[|es|].queues[qi]
  {
    ring := new Ring.TxQueue(n);
    ghost var qs := Project(n, size, ws, es, qi);
    var held: Transmission := None;
    for i := 0 to |es|
      invariant fresh(ring) && fresh(ring.slots) && fresh(ring.interest) && fresh(ring.wakers)
      invariant ring.Valid() && ring.n == n && ring.fifo == qs[i] && held == TransmissionOf(n, qs[i])
    {
      NoFaults(n, size, ws, es, i);
      var held', _, _ := Perform(ring, qi, es[i], held);
      held := held';
    }
  }
}
