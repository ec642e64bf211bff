/** Where buffers go and what becomes of their bytes. The radio gets what was
    submitted, and a handle's buffer comes back to its caller as the radio left it. */
module TxContents {
  import opened Basics
  import opened TxQueueSpec
  import opened TxSystem
  import opened TxTheorems

  /** The buffer that a step returns to the pool, if any. */
  function Returned(w: World, e: Event): Option<nat>
    requires Enabled(w, e)
  {
    match e
    case Discard(b) => Some(b)
    case Submit(qi, _) => Displaced(w.n, w.queues[qi])
    case RadioDone(qi, _, _) =>
      if w.queues[qi].ended in w.queues[qi].live then None else Some(w.queues[qi].runner.frame.buffer)
    case AbortRunner(qi) =>
      if w.queues[qi].runner.Transmitting? then Some(w.queues[qi].runner.frame.buffer) else None
    case DropPending(qi, g) =>
      if g in w.queues[qi].unclaimed then Some(w.queues[qi].unclaimed[g].buffer) else None
    case _ => None
  }

  /** A returned buffer was not in the pool, which has room for it. */
  lemma ReturnedIsOut(w: World, e: Event)
    requires WorldInv(w) && Enabled(w, e) && Returned(w, e).Some?
    ensures Returned(w, e).value < w.n && Returned(w, e).value !in w.pool && |w.pool| < w.n
  {
    ReturnedIsBooked(w, e);
    hide QueuesInv, MemoryInv, Booked, Enabled, Returned;
    PoolBelow(w, {}, Returned(w, e).value);
  }

  /** It was a caller's or a queue's. */
  lemma ReturnedIsBooked(w: World, e: Event)
    requires WorldInv(w) && Enabled(w, e) && Returned(w, e).Some?
    ensures Returned(w, e).value in w.ledger && !w.ledger[Returned(w, e).value].ByPool?
  {
    assert |w.queues| == QUEUES;
    if e.Discard? {
      hide QueuesInv, MemoryInv, Booked;
    } else {
      var q := w.queues[e.queue];
      assert Inv(w.n, q);
      hide QueuesInv, MemoryInv, Books;
      var g := if e.Submit? then |q.frames| - w.n else if e.DropPending? then e.handle else q.ended;
      HeldIsBooked(w, e.queue, g);
    }
  }

  lemma HeldIsBooked(w: World, qi: nat, g: nat)
    requires WorldInv(w) && qi < QUEUES && w.queues[qi].Holds(g)
    ensures g < |w.queues[qi].frames| && w.queues[qi].frames[g].buffer in w.ledger
    ensures w.ledger[w.queues[qi].frames[g].buffer] == ByQueue(qi, g)
    ensures g in w.queues[qi].unclaimed ==> w.queues[qi].unclaimed[g].buffer == w.queues[qi].frames[g].buffer
    ensures g == w.queues[qi].ended && w.queues[qi].runner.Transmitting? ==>
              w.queues[qi].runner.frame == w.queues[qi].frames[g]
  {
    assert Inv(w.n, w.queues[qi]) && Booked(w.ledger, qi, w.queues[qi]);
  }

  /** Where buffers go in one step: the pool gives its oldest to an allocation and
      takes back what is returned ... */
  lemma PoolMoves(w: World, e: Event)
    requires WorldInv(w) && Enabled(w, e)
    ensures Apply(w, e).pool == (if e.Alloc? then w.pool[1..] else w.pool)
                                + match Returned(w, e) case None => [] case Some(b) => [b]
  {
    hide WorldInv, RunnerPoll, PollHandle, DropHandle, Enqueue, Finish, Displaced, PollAnswer;
    if Returned(w, e).Some? {
      ReturnedIsOut(w, e);
    }
  }

  /** ... and a caller gives up what it submits or discards, and gets what it
      allocates or what its handle is answered with. */
  lemma CallersMove(w: World, e: Event)
    requires Enabled(w, e)
    ensures Apply(w, e).callers
            == match e
               case Alloc => w.callers + {w.pool[0]}
               case Discard(b) => w.callers - {b}
               case Submit(_, f) => w.callers - {f.buffer}
               case PollCompletion(qi, g) =>
                 (match PollAnswer(w.n, w.queues[qi], g)
                  case Done(Some(c)) => w.callers + {c.buffer}
                  case _ => w.callers)
               case _ => w.callers
  {
    hide RunnerPoll, PollHandle, DropHandle, Enqueue, Finish, Displaced, PollAnswer;
  }

  /** What becomes of the bytes of a buffer: its caller writes them, the radio
      leaves them in the frame it has finished, a return wipes them, and nothing
      else touches them. */
  lemma BytesMove(w: World, e: Event, b: nat)
    requires Enabled(w, e) && b in w.memory
    ensures b in Apply(w, e).memory
    ensures Apply(w, e).memory[b]
            == if Returned(w, e) == Some(b) then Zeros(w.size)
               else if e.Write? && e.buffer == b then e.content
               else if e.RadioDone? && w.queues[e.queue].runner.frame.buffer == b then e.content
               else w.memory[b]
  {
    hide RunnerPoll, PollHandle, DropHandle, Enqueue, Finish, Displaced, PollAnswer;
  }

  /** While a queue holds frame `g`, only the end of its transmission changes its bytes. */
  lemma HeldBytes(w: World, e: Event, qi: nat, g: nat)
    requires WorldInv(w) && Enabled(w, e) && qi < QUEUES && w.queues[qi].Holds(g)
    requires |Apply(w, e).queues| == QUEUES && Apply(w, e).queues[qi].Holds(g)
    ensures g < |w.queues[qi].frames| && w.queues[qi].frames[g].buffer in w.memory
    ensures var b := w.queues[qi].frames[g].buffer;
            && b in Apply(w, e).memory
            && Apply(w, e).memory[b] == if e.RadioDone? && Ends(qi, w.queues[qi], e, g) then e.content else w.memory[b]
  {
    HeldIsBooked(w, qi, g);
    var b := w.queues[qi].frames[g].buffer;
    assert b in w.memory by {
      hide QueuesInv, Booked, Enabled;
    }
    BytesMove(w, e, b);
    if Returned(w, e) == Some(b) {
      NotReturnedWhileHeld(w, e, qi, g);
    }
    assert e.Write? ==> e.buffer != b by {
      hide QueuesInv, Booked;
    }
    if e.RadioDone? && w.queues[e.queue].runner.frame.buffer == b {
      InFlightIsHeld(w, e.queue);
      HeldIsBooked(w, e.queue, w.queues[e.queue].ended);
    }
    hide WorldInv, Apply;
  }

  lemma NotReturnedWhileHeld(w: World, e: Event, qi: nat, g: nat)
    requires WorldInv(w) && Enabled(w, e) && qi < QUEUES && w.queues[qi].Holds(g)
    requires g < |w.queues[qi].frames| && Returned(w, e) == Some(w.queues[qi].frames[g].buffer)
    ensures |Apply(w, e).queues| == QUEUES && !Apply(w, e).queues[qi].Holds(g)
  {
    assert |w.queues| == QUEUES;
    hide WorldInv, Apply, Inv, Local;
    HeldIsBooked(w, qi, g);
    ApplyIsLocal(w, e, qi);
    if e.Discard? {
      DiscardedIsCallers(w, e.buffer);
    } else {
      QueueInv(w, e.queue);
      var h := LetsGoOf(w.n, w.queues[e.queue], e);
      HeldIsBooked(w, e.queue, h);
      hide Enabled, Returned;
      LocalLetsGo(w.n, qi, w.queues[qi], e);
    }
  }

  /** The generation whose buffer a returning event gives up. */
  lemma LetsGoOf(n: nat, q: Fifo, e: Event) returns (h: nat)
    requires Inv(n, q) && GivesUp(n, q, e)
    ensures q.Holds(h) && h < |q.frames|
    ensures h == GivenUpBy(n, q, e)
    ensures (e.Submit? || e.DropPending?) ==> h in q.unclaimed
  {
    h := GivenUpBy(n, q, e);
  }

  predicate GivesUp(n: nat, q: Fifo, e: Event) {
    match e
    case Submit(_, _) => Displaced(n, q).Some?
    case RadioDone(_, _, _) => q.runner.Transmitting? && q.ended !in q.live
    case AbortRunner(_) => q.runner.Transmitting?
    case DropPending(_, g) => g in q.unclaimed
    case _ => false
  }

  function GivenUpBy(n: nat, q: Fifo, e: Event): nat
    requires GivesUp(n, q, e)
  {
    if e.Submit? then |q.frames| - n else if e.DropPending? then e.handle else q.ended
  }

  lemma LocalLetsGo(n: nat, qi: nat, q: Fifo, e: Event)
    requires Inv(n, q) && LocallyEnabled(qi, q, e) && GivesUp(n, q, e) && e.queue == qi
    ensures !Local(n, qi, q, e).Holds(GivenUpBy(n, q, e))
  {
  }

  lemma QueueInv(w: World, qi: nat)
    requires WorldInv(w) && qi < |w.queues|
    ensures |w.queues| == QUEUES && Inv(w.n, w.queues[qi])
  {
  }

  lemma DiscardedIsCallers(w: World, b: nat)
    requires WorldInv(w) && b in w.callers
    ensures b in w.ledger && w.ledger[b].ByCaller?
  {
    hide QueuesInv, MemoryInv, Booked;
  }

  lemma GrowsByOneStep(n: nat, qi: nat, q: Fifo, e: Event)
    requires Inv(n, q) && LocallyEnabled(qi, q, e)
    ensures var q' := Local(n, qi, q, e);
            && |q.frames| <= |q'.frames| && q.ended <= q'.ended
            && forall g: nat :: g < |q.frames| ==> q'.frames[g] == q.frames[g]
  {
    LocalRecords(n, qi, q, e);
  }

  /** Frames keep their generation, and those ended stay so. */
  lemma {:induction false} FramesStay(n: nat, qi: nat, qs: seq<Fifo>, es: seq<Event>, j: nat, i: nat)
    requires IsQueueRun(n, qi, qs, es) && j <= i < |qs|
    ensures |qs[j].frames| <= |qs[i].frames| && qs[j].ended <= qs[i].ended
    ensures forall g: nat :: g < |qs[j].frames| ==> qs[i].frames[g] == qs[j].frames[g]
    decreases i
  {
    hide Inv, Local, LocallyEnabled;
    if j < i {
      FramesStay(n, qi, qs, es, j, i - 1);
      GrowsByOneStep(n, qi, qs[i - 1], es[i - 1]);
    }
  }

  /** The submission itself leaves the bytes as the caller wrote them. */
  lemma SubmittedBytes(w: World, qi: nat, f: Frame)
    requires WorldInv(w) && Enabled(w, Submit(qi, f))
    ensures f.buffer in w.memory && f.buffer in Apply(w, Submit(qi, f)).memory
    ensures Apply(w, Submit(qi, f)).memory[f.buffer] == w.memory[f.buffer]
  {
    assert f.buffer in w.memory && w.ledger[f.buffer].ByCaller? by {
      hide QueuesInv, Booked;
    }
    BytesMove(w, Submit(qi, f), f.buffer);
    if Displaced(w.n, w.queues[qi]) == Some(f.buffer) {
      assert |w.queues| == QUEUES;
      HeldIsBooked(w, qi, |w.queues[qi].frames| - w.n);
    }
    hide Apply;
  }

  lemma HeldBytesLater(w: World, e: Event, w': World, qi: nat, g: nat)
    requires WorldInv(w) && Enabled(w, e) && w' == Apply(w, e) && qi < QUEUES && |w.queues| == |w'.queues| == QUEUES
    requires w.queues[qi].Queued(g) && w'.queues[qi].Queued(g)
    ensures w.queues[qi].frames[g].buffer in w.memory && w.queues[qi].frames[g].buffer in w'.memory
    ensures w'.memory[w.queues[qi].frames[g].buffer] == w.memory[w.queues[qi].frames[g].buffer]
  {
    HeldBytes(w, e, qi, g);
    ApplyIsLocal(w, e, qi);
    hide WorldInv, Apply;
  }

  /** While a frame is queued, up to and including its time in flight, its buffer
      holds the bytes it was submitted with: the radio gets those. */
  lemma {:induction false} RadioGetsSubmitted(n: nat, size: nat, ws: seq<World>, es: seq<Event>, j: nat, i: nat,
                                              qi: nat, f: Frame)
    requires n >= 1 && IsRun(n, size, ws, es) && j < i < |ws| && qi < QUEUES && es[j] == Submit(qi, f)
    requires |ws[j].queues| == |ws[i].queues| == QUEUES
    requires ws[i].queues[qi].Queued(|ws[j].queues[qi].frames|)
    ensures ws[i].queues[qi].frames[|ws[j].queues[qi].frames|] == f
    ensures f.buffer in ws[j].memory && f.buffer in ws[i].memory && ws[i].memory[f.buffer] == ws[j].memory[f.buffer]
    decreases i
  {
    hide IsRun, WorldInv, Apply, Enabled;
    RunLength(n, size, ws, es);
    StepAt(n, size, ws, es, i - 1);
    QueuedSince(n, size, ws, es, j, i, qi, f);
    if i == j + 1 {
      SubmittedBytes(ws[j], qi, f);
    } else {
      RadioGetsSubmitted(n, size, ws, es, j, i - 1, qi, f);
      HeldBytesLater(ws[i - 1], es[i - 1], ws[i], qi, |ws[j].queues[qi].frames|);
    }
  }

  lemma StepAt(n: nat, size: nat, ws: seq<World>, es: seq<Event>, i: nat)
    requires n >= 1 && IsRun(n, size, ws, es) && i < |es|
    ensures |ws| == |es| + 1 && WorldInv(ws[i]) && Enabled(ws[i], es[i]) && ws[i + 1] == Apply(ws[i], es[i])
    ensures |ws[i].queues| == |ws[i + 1].queues| == QUEUES
  {
    RunInv(n, size, ws, es, i);
    RunInv(n, size, ws, es, i + 1);
    hide QueuesInv, MemoryInv, Apply, Enabled;
  }

  /** A frame keeps its place, and if still queued it was so all along. */
  lemma QueuedSince(n: nat, size: nat, ws: seq<World>, es: seq<Event>, j: nat, i: nat, qi: nat, f: Frame)
    requires n >= 1 && IsRun(n, size, ws, es) && j < i < |ws| && qi < QUEUES && es[j] == Submit(qi, f)
    requires |ws[j].queues| == |ws[i].queues| == |ws[i - 1].queues| == QUEUES
    ensures var g := |ws[j].queues[qi].frames|;
            && g < |ws[i].queues[qi].frames| && ws[i].queues[qi].frames[g] == f
            && (j < i - 1 && ws[i].queues[qi].Queued(g) ==>
                  ws[i - 1].queues[qi].Queued(g) && ws[i - 1].queues[qi].frames[g] == f)
  {
    hide IsRun, IsQueueRun;
    RunLength(n, size, ws, es);
    var qs := Project(n, size, ws, es, qi);
    QueueRunLength(n, qi, qs, es);
    assert qs[j] == ws[j].queues[qi] && qs[i] == ws[i].queues[qi] && qs[i - 1] == ws[i - 1].queues[qi];
    FrameAt(n, qi, qs, es, j, i, f);
    if j < i - 1 {
      FrameAt(n, qi, qs, es, j, i - 1, f);
      FramesStay(n, qi, qs, es, i - 1, i);
    }
  }

  lemma RunLength(n: nat, size: nat, ws: seq<World>, es: seq<Event>)
    requires IsRun(n, size, ws, es)
    ensures |ws| == |es| + 1
  {
  }

  lemma QueueRunLength(n: nat, qi: nat, qs: seq<Fifo>, es: seq<Event>)
    requires IsQueueRun(n, qi, qs, es)
    ensures |qs| == |es| + 1
  {
  }

  lemma FrameAt(n: nat, qi: nat, qs: seq<Fifo>, es: seq<Event>, j: nat, i: nat, f: Frame)
    requires IsQueueRun(n, qi, qs, es) && j < i < |qs| && es[j] == Submit(qi, f)
    ensures |qs[j].frames| < |qs[i].frames| && qs[i].frames[|qs[j].frames|] == f
  {
    hide Inv, Local, LocallyEnabled;
    LocalRecords(n, qi, qs[j], es[j]);
    FramesStay(n, qi, qs, es, j + 1, i);
    assert qs[j + 1].frames[|qs[j].frames|] == f;
  }
}
