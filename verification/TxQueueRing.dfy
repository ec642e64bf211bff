/** The transmit queue as it is stored: a ring of `n` slots with a completion
    interest flag and a waker each, a generation counter and a capacity count.
    Every operation is proved to do to the abstract queue `fifo` what
    `TxQueueSpec` says. */
module TxQueueRing {
  import opened Basics
  import Spec = TxQueueSpec
  import opened TxQueueSpec

  datatype Slot =
    | Empty
    | Pending(frame: Frame)
    | InProgress
    | ReturnDataAvailable(data: Completion)

  datatype Status = IsPending | IsInProgress | IsReturnDataAvailable | SlotNoLongerValid

  /** What the slot of generation `g` must contain while it is not reused. */
  function SlotOf(q: Fifo, g: nat): Slot {
    if g in q.unclaimed then ReturnDataAvailable(q.unclaimed[g])
    else if g < q.ended || g >= |q.frames| then Empty
    else if q.InFlight(g) then InProgress
    else Pending(q.frames[g])
  }

  /** Slot `i`, last used for generation `g`, is what queue `q` says it is. */
  ghost predicate Agrees(n: nat, q: Fifo, i: nat, g: nat, slot: Slot, flag: bool, waker: Option<nat>)
    requires n >= 1
  {
    && g % n == i
    && (if g < |q.frames| then !Stale(n, q, g) else g == i)
    && slot == SlotOf(q, g)
    && (g < |q.frames| ==> flag == (g in q.live))
    && (g in q.waiting ==> waker == Some(g))
  }

  /** Enqueueing leaves every slot but the next one as it was ... */
  lemma EnqueueKeeps(n: nat, q: Fifo, frame: Frame, i: nat, g: nat, slot: Slot, flag: bool, waker: Option<nat>)
    requires Inv(n, q) && Agrees(n, q, i, g, slot, flag, waker) && i != |q.frames| % n
    ensures Agrees(n, Spec.Enqueue(n, q, frame), i, g, slot, flag, waker)
  {
    if g + n == |q.frames| {
      ResidueIs(n, g + n, g / n + 1, i);
      assert false;
    }
    var q' := Spec.Enqueue(n, q, frame);
    assert g < |q.frames| ==> q'.frames[g] == q.frames[g];
  }

  /** ... and fits the next one for the new generation. */
  lemma EnqueueFills(n: nat, q: Fifo, frame: Frame, waker: Option<nat>)
    requires Inv(n, q)
    ensures Agrees(n, Spec.Enqueue(n, q, frame), |q.frames| % n, |q.frames|, Slot.Pending(frame), true, waker)
  {
  }

  function BufferIn(slot: Slot): Option<nat> {
    match slot
    case ReturnDataAvailable(data) => Some(data.buffer)
    case _ => None
  }

  /** The slot the next frame goes to holds the completion it displaces, if any. */
  lemma NextSlotDisplaces(n: nat, q: Fifo, g: nat, slot: Slot, flag: bool, waker: Option<nat>)
    requires Inv(n, q) && Agrees(n, q, |q.frames| % n, g, slot, flag, waker)
    ensures BufferIn(slot) == Displaced(n, q)
  {
    var c := |q.frames|;
    if c >= n {
      assert n * (c / n) - n == n * (c / n - 1);
      ResidueIs(n, c - n, c / n - 1, c % n);
      SameResidue(n, g, c - n);
    } else {
      ResidueIs(n, c, 0, c);
      if g < c {
        SameResidue(n, g, c);
      }
    }
  }

  /** Polling handle `h` leaves the slots of other generations as they were. */
  lemma PollKeeps(n: nat, q: Fifo, h: nat, i: nat, g: nat, slot: Slot, flag: bool, waker: Option<nat>)
    requires Inv(n, q) && Agrees(n, q, i, g, slot, flag, waker) && h != g
    ensures Agrees(n, PollHandle(n, q, h), i, g, slot, flag, waker)
  {
  }

  lemma PollUpdates(n: nat, q: Fifo, i: nat, g: nat, slot: Slot, flag: bool, waker: Option<nat>)
    requires Inv(n, q) && Agrees(n, q, i, g, slot, flag, waker) && g in q.live
    ensures PollAnswer(n, q, g) == match slot
            case ReturnDataAvailable(data) => Done(Some(data))
            case Empty => Done(None)
            case _ => NotYet
    ensures Agrees(n, PollHandle(n, q, g), i, g,
                   if slot.ReturnDataAvailable? then Empty else slot, flag,
                   if slot.Pending? || slot.InProgress? then Some(g) else waker)
  {
  }

  /** Taking the oldest frame changes only the slot of that frame. */
  lemma ReceiveKeeps(n: nat, q: Fifo, i: nat, g: nat, slot: Slot, flag: bool, waker: Option<nat>)
    requires Inv(n, q) && Agrees(n, q, i, g, slot, flag, waker)
    requires q.runner.Scheduled? && (q.Len() == 0 || g != q.ended)
    ensures Agrees(n, RunnerPoll(q), i, g, slot, flag, waker)
  {
  }

  /** A runner that comes or goes without a frame in hand changes no slot. */
  lemma RunnerKeeps(n: nat, q: Fifo, runner: Runner, i: nat, g: nat, slot: Slot, flag: bool, waker: Option<nat>)
    requires n >= 1 && Agrees(n, q, i, g, slot, flag, waker) && !q.runner.Transmitting? && !runner.Transmitting?
    ensures Agrees(n, q.(runner := runner), i, g, slot, flag, waker)
  {
  }

  /** So does ending its transmission ... */
  lemma FinishKeeps(n: nat, q: Fifo, outcome: Option<TxResult>,
                    i: nat, g: nat, slot: Slot, flag: bool, waker: Option<nat>)
    requires Inv(n, q) && Agrees(n, q, i, g, slot, flag, waker)
    requires q.runner.Transmitting? && g != q.ended
    ensures Agrees(n, Spec.Finish(q, outcome), i, g, slot, flag, waker)
  {
  }

  /** ... which leaves the completion there exactly when it is still wanted. */
  lemma FinishFills(n: nat, q: Fifo, outcome: Option<TxResult>, i: nat, slot: Slot, flag: bool, waker: Option<nat>)
    requires Inv(n, q) && Agrees(n, q, i, q.ended, slot, flag, waker) && q.runner.Transmitting?
    ensures var f := q.frames[q.ended];
            Agrees(n, Spec.Finish(q, outcome), i, q.ended,
                   if flag && outcome.Some?
                   then ReturnDataAvailable(Completion(outcome.value, f.buffer, f.length)) else Empty,
                   flag, None)
  {
  }

  /** Dropping handle `h` leaves the slots of other generations as they were. */
  lemma DropKeeps(n: nat, q: Fifo, h: nat, i: nat, g: nat, slot: Slot, flag: bool, waker: Option<nat>)
    requires Inv(n, q) && Agrees(n, q, i, g, slot, flag, waker) && h != g
    ensures Agrees(n, DropHandle(n, q, h), i, g, slot, flag, waker)
  {
  }

  lemma DropClears(n: nat, q: Fifo, i: nat, g: nat, slot: Slot, flag: bool, waker: Option<nat>)
    requires Inv(n, q) && Agrees(n, q, i, g, slot, flag, waker) && g in q.live
    ensures Agrees(n, DropHandle(n, q, g), i, g,
                   if slot.ReturnDataAvailable? then Empty else slot, false, waker)
  {
  }

  /** From generation `first` on the frames got these results, and live
      handles find them waiting. */
  ghost predicate Delivered(q: Fifo, first: nat, results: seq<TxResult>) {
    forall g: nat :: first <= g < first + |results| ==>
      && g in q.results && q.results[g] == results[g - first]
      && (g in q.live ==> g in q.unclaimed && q.unclaimed[g].result == results[g - first])
  }

  lemma SameLine(q: Fifo, q': Fifo)
    requires q'.frames == q.frames && q'.ended == q.ended
    ensures q'.Len() == q.Len()
  {
  }

  lemma NothingDelivered(q: Fifo, first: nat)
    ensures Delivered(q, first, [])
  {
  }

  lemma DeliveredMore(q: Fifo, first: nat, results: seq<TxResult>, result: TxResult)
    requires Delivered(q, first, results) && q.ended == first + |results| && q.Len() > 0
    ensures Delivered(Spec.Finish(RunnerPoll(q), Some(result)), first, results + [result])
  {
  }

  class TxQueue {
    const n: nat
    const slots: array<Slot>
    const interest: array<bool>
    const wakers: array<Option<nat>>
    var counter: nat
    var capacity: nat
    var updateWaker: bool

    ghost var fifo: Fifo
    /** The generation each slot was last used for, or its own index. */
    ghost var tags: seq<nat>

    ghost predicate SlotValid(i: nat)
      requires i < n && n == slots.Length == interest.Length == wakers.Length == |tags|
      reads this, slots, interest, wakers
    {
      Agrees(n, fifo, i, tags[i], slots[i], interest[i], wakers[i])
    }

    ghost predicate Shape()
      reads this
    {
      && n >= 1
      && n == slots.Length == interest.Length == wakers.Length == |tags|
      && slots as object != interest && slots as object != wakers && interest as object != wakers
    }

    ghost predicate Valid()
      reads this, slots, interest, wakers
    {
      && Shape()
      && Spec.Inv(n, fifo)
      && counter == |fifo.frames| && capacity + fifo.Len() == n
      && updateWaker == fifo.runnerWaker
      && forall i: nat :: i < n ==> SlotValid(i)
    }

    constructor (n: nat)
      requires n >= 1
      ensures Valid() && fresh(slots) && fresh(interest) && fresh(wakers)
      ensures this.n == n && fifo == Fresh() && counter == 0
    {
      this.n := n;
      slots := new Slot[n](_ => Empty);
      interest := new bool[n](_ => true);
      wakers := new Option<nat>[n](_ => None);
      counter, capacity, updateWaker := 0, n, false;
      fifo := Fresh();
      tags := seq(n, i => i);
      new;
      FreshInv(n);
      forall i: nat | i < n ensures SlotValid(i) {
        ResidueIs(n, i, 0, i);
      }
    }

    /** The slot of a generation that is still current carries its tag. */
    lemma CurrentTag(g: nat)
      requires Valid() && g < counter && !Stale(n, fifo, g)
      ensures tags[g % n] == g && SlotValid(g % n)
    {
      var i: nat := g % n;
      assert SlotValid(i);
      SameResidue(n, tags[i], g);
    }

    /** A runner's future comes into being; it will be polled. */
    ghost method StartRunner()
      requires Valid() && fifo.runner.Stopped?
      modifies this`fifo
      ensures Valid() && fifo == old(fifo).(runner := Scheduled)
    {
      SetRunner(Scheduled);
    }

    /** A runner that is not transmitting is dropped; the ring does not notice. */
    ghost method StopRunner()
      requires Valid() && !fifo.runner.Transmitting?
      modifies this`fifo
      ensures Valid() && fifo == old(fifo).(runner := Stopped)
    {
      SetRunner(Stopped);
    }

    ghost method SetRunner(runner: Runner)
      requires Valid() && !fifo.runner.Transmitting? && (runner.Stopped? || runner.Scheduled?)
      modifies this`fifo
      ensures Valid() && fifo == old(fifo).(runner := runner)
    {
      fifo := fifo.(runner := runner);
      forall i: nat | i < n ensures SlotValid(i) {
        assert old(SlotValid(i));
        RunnerKeeps(n, old(fifo), runner, i, tags[i], slots[i], interest[i], wakers[i]);
      }
    }

    /** Where the oldest frame sits, computed without a second remainder. */
    method FrontIndex() returns (index: nat)
      requires Valid() && fifo.Len() > 0
      ensures index == fifo.ended % n
    {
      var len := n - capacity;
      var nextSlotIndex := counter % n;
      if nextSlotIndex >= len {
        index := nextSlotIndex - len;
        ResidueIs(n, fifo.ended, counter / n, index);
      } else {
        var overrun := len - nextSlotIndex;
        index := n - overrun;
        assert n * (counter / n) - n == n * (counter / n - 1);
        ResidueIs(n, fifo.ended, counter / n - 1, index);
      }
    }

    /** Take in a frame. `displaced` is the buffer of an unclaimed completion
        whose slot the frame takes; it goes back to the pool. `wakesRunner` says
        whether a stored waker of the runner is called. */
    method EnqueueFrame(frame: Frame) returns (handle: nat, displaced: Option<nat>, wakesRunner: bool)
      requires Valid()
      requires fifo.Len() < n  // the source asserts that capacity is left
      requires counter < U64_MAX  // the source refuses to wrap the counter
      modifies this`counter, this`capacity, this`updateWaker, this`fifo, this`tags, slots, interest
      ensures Valid()
      ensures fifo == Spec.Enqueue(n, old(fifo), frame)
      ensures handle == |old(fifo.frames)| && displaced == Displaced(n, old(fifo))
      ensures wakesRunner == (old(updateWaker) && old(fifo).Len() == 0)
      ensures old(fifo).runner.Parked? ==> wakesRunner
    {
      EnqueueInv(n, fifo, frame);
      var wasEmpty := capacity == n;
      var next := counter % n;
      assert SlotValid(next);
      NextSlotDisplaces(n, fifo, tags[next], slots[next], interest[next], wakers[next]);
      assert fifo.ended <= |fifo.frames|;
      assert fifo.runner.Parked? ==> fifo.Len() == 0 && updateWaker;
      hide Agrees, Spec.Inv;
      handle := counter;
      counter := counter + 1;
      capacity := capacity - 1;
      displaced := BufferIn(slots[next]);
      slots[next] := Pending(frame);
      interest[next] := true;
      wakesRunner := wasEmpty && updateWaker;
      if wasEmpty {
        updateWaker := false;
      }
      fifo := Spec.Enqueue(n, fifo, frame);
      tags := tags[next := handle];
      forall i: nat | i < n && i != next ensures SlotValid(i) {
        assert old(SlotValid(i));
        EnqueueKeeps(n, old(fifo), frame, i, tags[i], slots[i], interest[i], wakers[i]);
      }
      EnqueueFills(n, old(fifo), frame, wakers[next]);
      assert SlotValid(next);
    }

    /** One poll of the future that waits for the queue to be nonempty. */
    method PollNotEmpty() returns (ready: bool)
      requires Valid() && fifo.runner.Scheduled?
      modifies this`updateWaker, this`fifo
      ensures Valid()
      ensures ready == (old(fifo).Len() > 0)
      ensures fifo == if ready then old(fifo) else RunnerPoll(old(fifo))
    {
      if capacity == n {
        updateWaker := true;
        fifo := RunnerPoll(fifo);
        ready := false;
        forall i: nat | i < n ensures SlotValid(i) {
          assert old(SlotValid(i));
          ReceiveKeeps(n, old(fifo), i, tags[i], slots[i], interest[i], wakers[i]);
        }
      } else {
        ready := true;
      }
    }

    /** Take the oldest frame for transmission. The arms the source calls
        unreachable are proved to be so. */
    method TryReceive() returns (received: Option<(nat, Frame)>)
      requires Valid() && fifo.runner.Scheduled?
      modifies this`fifo, slots
      ensures Valid()
      ensures received.None? <==> old(fifo).Len() == 0
      ensures received.None? ==> fifo == old(fifo)
      ensures received.Some? ==>
                && fifo == RunnerPoll(old(fifo)) && fifo.runner.Transmitting?
                && received.value == (fifo.ended % n, fifo.frames[fifo.ended])
    {
      if capacity == n {
        return None;
      }
      var front := FrontIndex();
      CurrentTag(fifo.ended);
      RunnerPollInv(n, fifo);
      assert slots[front] == Pending(fifo.frames[fifo.ended]);
      hide Agrees, Spec.Inv;
      received := None;
      match slots[front] {
        case Empty => assert false;
        case ReturnDataAvailable(_) => assert false;
        case InProgress => assert false;
        case Pending(frame) =>
          slots[front] := InProgress;
          received := Some((front, frame));
          fifo := RunnerPoll(fifo);
          forall i: nat | i < n && i != front ensures SlotValid(i) {
            assert old(SlotValid(i));
            ReceiveKeeps(n, old(fifo), i, tags[i], slots[i], interest[i], wakers[i]);
          }
      }
    }

    /** End the transmission in slot `index`. The source calls this with the
        return data, or with an empty slot when the transmission is dropped.
        `discarded` is the state nobody will read; `woken` the waker called. */
    method FinishSlot(index: nat, newSlot: Slot, ghost outcome: Option<TxResult>)
      returns (discarded: Option<Slot>, woken: Option<nat>)
      requires Valid() && fifo.runner.Transmitting? && index == fifo.ended % n
      requires newSlot == match outcome
               case None => Empty
               case Some(r) =>
                 var f := fifo.frames[fifo.ended];
                 ReturnDataAvailable(Completion(r, f.buffer, f.length))
      modifies this`capacity, this`fifo, slots, wakers
      ensures Valid()
      ensures fifo == Spec.Finish(old(fifo), outcome)
      ensures discarded == if old(fifo.ended in fifo.live) then None else Some(newSlot)
      ensures old(fifo.ended in fifo.waiting) ==> woken == Some(old(fifo.ended))
    {
      CurrentTag(fifo.ended);
      FinishInv(n, fifo, outcome);
      FinishFills(n, fifo, outcome, index, slots[index], interest[index], wakers[index]);
      assert fifo.Queued(fifo.ended) && fifo.runner.frame == fifo.frames[fifo.ended];
      assert interest[index] == (fifo.ended in fifo.live);
      assert fifo.ended in fifo.waiting ==> wakers[index] == Some(fifo.ended);
      hide Agrees, Spec.Inv;
      capacity := capacity + 1;
      if interest[index] {
        slots[index] := newSlot;
        discarded := None;
      } else {
        slots[index] := Empty;
        discarded := Some(newSlot);
      }
      woken := wakers[index];
      wakers[index] := None;
      fifo := Spec.Finish(fifo, outcome);
      forall i: nat | i < n && i != index ensures SlotValid(i) {
        assert old(SlotValid(i));
        FinishKeeps(n, old(fifo), outcome, i, tags[i], slots[i], interest[i], wakers[i]);
      }
    }

    /** One turn of the runner's loop: pick up, transmit, finish. */
    method RunOnce(result: TxResult) returns (sent: Option<Frame>)
      requires Valid() && fifo.runner.Scheduled?
      modifies this`capacity, this`fifo, slots, wakers
      ensures Valid() && fifo.runner.Scheduled?
      ensures sent.None? <==> old(fifo).Len() == 0
      ensures sent.None? ==> fifo == old(fifo)
      ensures sent.Some? ==>
                && old(fifo).ended < |old(fifo).frames| && sent.value == old(fifo).frames[old(fifo).ended]
                && fifo == Spec.Finish(RunnerPoll(old(fifo)), Some(result))
    {
      hide Agrees, Spec.Inv;
      var received := TryReceive();
      match received {
        case None => sent := None;
        case Some((index, frame)) =>
          var data := Completion(result, frame.buffer, frame.length);
          var _, _ := FinishSlot(index, ReturnDataAvailable(data), Some(result));
          sent := Some(frame);
      }
    }

    /** The runner's loop, for as long as the radio delivers `results`. */
    method Run(results: seq<TxResult>) returns (sent: seq<Frame>)
      requires Valid() && fifo.runner.Scheduled?
      modifies this`capacity, this`fifo, slots, wakers
      ensures Valid() && fifo.runner.Scheduled?
      ensures |sent| == if |results| < old(fifo).Len() then |results| else old(fifo).Len()
      ensures sent == old(fifo.frames[fifo.ended..])[..|sent|]
      ensures fifo.frames == old(fifo.frames) && fifo.ended == old(fifo.ended) + |sent|
      ensures fifo.live == old(fifo.live)
      ensures Delivered(fifo, old(fifo.ended), results[..|sent|])
    {
      assert fifo.ended <= |fifo.frames|;
      hide Agrees, Spec.Inv, Delivered;
      sent := [];
      ghost var start := fifo;
      NothingDelivered(fifo, fifo.ended);
      while |sent| < |results|
        invariant Valid() && fifo.runner.Scheduled?
        invariant |sent| <= |results| && |sent| <= start.Len()
        invariant fifo.frames == start.frames && fifo.ended == start.ended + |sent|
        invariant fifo.live == start.live
        invariant sent == start.frames[start.ended..][..|sent|]
        invariant Delivered(fifo, start.ended, results[..|sent|])
      {
        ghost var before := fifo;
        var result := results[|sent|];
        var frame := RunOnce(result);
        if frame.None? {
          return;
        }
        DeliveredMore(before, start.ended, results[..|sent|], result);
        assert results[..|sent| + 1] == results[..|sent|] + [result];
        sent := sent + [frame.value];
      }
    }

    method GetStatus(handle: nat) returns (status: Status)
      requires Valid() && handle in fifo.live
      ensures status == if Stale(n, fifo, handle) then SlotNoLongerValid
                        else if handle in fifo.unclaimed then IsReturnDataAvailable
                        else if handle < fifo.ended then SlotNoLongerValid
                        else if fifo.InFlight(handle) then IsInProgress
                        else IsPending
    {
      if counter - handle > n {
        return SlotNoLongerValid;
      }
      CurrentTag(handle);
      match slots[handle % n] {
        case InProgress => status := IsInProgress;
        case Pending(_) => status := IsPending;
        case ReturnDataAvailable(_) => status := IsReturnDataAvailable;
        case Empty => status := SlotNoLongerValid;
      }
    }

    /** One poll of the future returned by `wait_for_completion`. */
    method PollCompletion(handle: nat) returns (poll: Poll)
      requires Valid() && handle in fifo.live
      modifies this`fifo, slots, wakers
      ensures Valid()
      ensures poll == PollAnswer(n, old(fifo), handle)
      ensures fifo == PollHandle(n, old(fifo), handle)
      ensures poll.NotYet? ==> wakers[handle % n] == Some(handle)
      ensures old(Stale(n, fifo, handle)) ==> slots[..] == old(slots[..]) && wakers[..] == old(wakers[..])
    {
      PollHandleInv(n, fifo, handle);
      if counter - handle > n {
        return Done(None);
      }
      CurrentTag(handle);
      var index := handle % n;
      PollUpdates(n, fifo, index, handle, slots[index], interest[index], wakers[index]);
      SameLine(fifo, PollHandle(n, fifo, handle));
      hide Agrees, Spec.Inv, PollHandle, PollAnswer;
      poll := Done(None);
      match slots[index] {
        case ReturnDataAvailable(data) =>
          slots[index] := Empty;
          poll := Done(Some(data));
        case Empty =>
        case _ =>
          wakers[index] := Some(handle);
          poll := NotYet;
      }
      fifo := PollHandle(n, fifo, handle);
      forall i: nat | i < n && i != index ensures SlotValid(i) {
        assert old(SlotValid(i));
        PollKeeps(n, old(fifo), handle, i, tags[i], slots[i], interest[i], wakers[i]);
      }
    }

    /** The slot of a current handle holds its completion exactly when that is unclaimed. */
    lemma DropReleases(handle: nat)
      requires Valid() && handle in fifo.live
      ensures handle < counter
      ensures Stale(n, fifo, handle) ==> handle !in fifo.unclaimed
      ensures !Stale(n, fifo, handle) ==>
                BufferIn(slots[handle % n])
                == if handle in fifo.unclaimed then Some(fifo.unclaimed[handle].buffer) else None
      ensures forall i: nat :: i < n && tags[i] == handle ==> i == handle % n && !Stale(n, fifo, handle)
    {
      assert forall i: nat :: i < n && tags[i] == handle ==> SlotValid(i);
      if !Stale(n, fifo, handle) {
        CurrentTag(handle);
      }
    }

    /** A handle goes away. `released` is the buffer of a completion that
        nobody can claim any more. */
    method DropPending(handle: nat) returns (released: Option<nat>)
      requires Valid() && handle in fifo.live
      modifies this`fifo, slots, interest
      ensures Valid()
      ensures fifo == DropHandle(n, old(fifo), handle)
      ensures released == if handle in old(fifo).unclaimed then Some(old(fifo).unclaimed[handle].buffer) else None
      ensures old(Stale(n, fifo, handle)) ==> slots[..] == old(slots[..]) && interest[..] == old(interest[..])
    {
      hide Agrees, Spec.Inv;
      DropHandleInv(n, fifo, handle);
      DropReleases(handle);
      SameLine(fifo, DropHandle(n, fifo, handle));
      hide DropHandle;
      released := None;
      if counter - handle <= n {
        CurrentTag(handle);
        var index := handle % n;
        interest[index] := false;
        match slots[index] {
          case ReturnDataAvailable(data) =>
            slots[index] := Empty;
            released := Some(data.buffer);
          case _ =>
        }
      }
      fifo := DropHandle(n, fifo, handle);
      forall i: nat | i < n ensures SlotValid(i) {
        assert old(SlotValid(i));
        if tags[i] == handle {
          DropClears(n, old(fifo), i, handle, old(slots[i]), old(interest[i]), wakers[i]);
        } else {
          DropKeeps(n, old(fifo), handle, i, tags[i], slots[i], interest[i], wakers[i]);
        }
      }
    }
  }
}
