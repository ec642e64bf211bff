/** What the transmit side promises over whole runs. Statements here speak of
    buffers, events and answers; the ledger stays in the proofs. */
module TxTheorems {
  import opened Basics
  import opened TxQueueSpec
  import opened TxSystem

  // ------------------------------------------------------------- conservation

  /** Queue `qi` owns buffer `b` through frame `g`. */
  predicate HeldFor(w: World, qi: nat, g: nat, b: nat) {
    && qi < |w.queues| && g < |w.queues[qi].frames|
    && w.queues[qi].Holds(g) && w.queues[qi].frames[g].buffer == b
  }

  function HeldBy(q: Fifo): set<nat> {
    set g: nat | g < |q.frames| && q.Holds(g) :: q.frames[g].buffer
  }

  lemma HeldByLedger(w: World, qi: nat, b: nat)
    requires Books(w, {}) && qi < QUEUES
    ensures b in HeldBy(w.queues[qi]) <==> b in w.ledger && w.ledger[b].ByQueue? && w.ledger[b].queue == qi
  {
    assert Booked(w.ledger, qi, w.queues[qi]);
  }

  ghost predicate AtMostOneHolder(w: World) {
    forall qi: nat, qj: nat, g: nat, h: nat, b: nat ::
      HeldFor(w, qi, g, b) && HeldFor(w, qj, h, b) ==> qi == qj && g == h
  }

  /** In every state of every run the pool, the callers and the four queues
      split the `n` buffers among them, and within a queue no two frames share one. */
  lemma Conservation(n: nat, size: nat, ws: seq<World>, es: seq<Event>, i: nat)
    requires n >= 1 && IsRun(n, size, ws, es) && i < |ws|
    ensures var w := ws[i];
            var pool := Elems(w.pool);
            && Distinct(w.pool) && |w.queues| == QUEUES
            && pool + w.callers + HeldBy(w.queues[0]) + HeldBy(w.queues[1])
                 + HeldBy(w.queues[2]) + HeldBy(w.queues[3]) == Buffers(n)
            && pool !! w.callers !! HeldBy(w.queues[0]) !! HeldBy(w.queues[1])
                 !! HeldBy(w.queues[2]) !! HeldBy(w.queues[3])
            && AtMostOneHolder(w)
  {
    RunInv(n, size, ws, es, i);
    hide QueuesInv, MemoryInv, Booked, HeldBy, IsRun;
    var w := ws[i];
    forall qi: nat, b: nat | qi < QUEUES
      ensures b in HeldBy(w.queues[qi]) <==> b in w.ledger && w.ledger[b].ByQueue? && w.ledger[b].queue == qi
    {
      HeldByLedger(w, qi, b);
    }
    OneHolder(w);
    Partition(w.ledger, Elems(w.pool), w.callers, HeldBy(w.queues[0]), HeldBy(w.queues[1]),
              HeldBy(w.queues[2]), HeldBy(w.queues[3]));
  }

  /** A ledger that books every buffer once splits them. */
  lemma Partition(ledger: map<nat, Owner>, p: set<nat>, c: set<nat>,
                  q0: set<nat>, q1: set<nat>, q2: set<nat>, q3: set<nat>)
    requires forall b :: b in ledger ==> !ledger[b].InTransit? && (ledger[b].ByQueue? ==> ledger[b].queue < QUEUES)
    requires forall b :: b in p <==> b in ledger && ledger[b].ByPool?
    requires forall b :: b in c <==> b in ledger && ledger[b].ByCaller?
    requires forall b :: b in q0 <==> b in ledger && ledger[b].ByQueue? && ledger[b].queue == 0
    requires forall b :: b in q1 <==> b in ledger && ledger[b].ByQueue? && ledger[b].queue == 1
    requires forall b :: b in q2 <==> b in ledger && ledger[b].ByQueue? && ledger[b].queue == 2
    requires forall b :: b in q3 <==> b in ledger && ledger[b].ByQueue? && ledger[b].queue == 3
    ensures p + c + q0 + q1 + q2 + q3 == ledger.Keys
    ensures p !! c !! q0 !! q1 !! q2 !! q3
  {
  }

  lemma OneHolder(w: World)
    requires Books(w, {})
    ensures AtMostOneHolder(w)
  {
    hide PoolBooked, CallersBooked;
    forall qi: nat, qj: nat, g: nat, h: nat, b: nat | HeldFor(w, qi, g, b) && HeldFor(w, qj, h, b)
      ensures qi == qj && g == h
    {
      assert Booked(w.ledger, qi, w.queues[qi]) && Booked(w.ledger, qj, w.queues[qj]);
    }
  }

  /** The assertion that capacity is left never fires, and the channel of the
      pool is never full when a buffer is dropped, so none is ever lost. */
  lemma NoFaults(n: nat, size: nat, ws: seq<World>, es: seq<Event>, i: nat)
    requires n >= 1 && IsRun(n, size, ws, es) && i < |es|
    ensures es[i].Submit? ==> ws[i].queues[es[i].queue].Len() < n
    ensures forall b: nat :: b < n && b !in ws[i].pool ==> |ws[i].pool| < n
  {
    RunInv(n, size, ws, es, i);
    hide QueuesInv, MemoryInv;
    var w := ws[i];
    if es[i].Submit? {
      QueueHasRoom(w, es[i].queue, es[i].frame.buffer);
    }
    forall b: nat | b < n && b !in w.pool ensures |w.pool| < n {
      PoolBelow(w, {}, b);
    }
  }

  /** Nothing in the queues, no handle left, no buffer with a caller. */
  predicate Quiet(w: World) {
    && w.callers == {}
    && forall qi :: 0 <= qi < |w.queues| ==>
         w.queues[qi].ended == |w.queues[qi].frames| && w.queues[qi].live == {}
  }

  /** A completion is kept only for a live handle of exactly its generation,
      so a quiet system has every buffer back in the pool, wiped. */
  lemma NothingStranded(n: nat, size: nat, ws: seq<World>, es: seq<Event>, i: nat)
    requires n >= 1 && IsRun(n, size, ws, es) && i < |ws|
    ensures forall qi: nat, g: nat :: qi < |ws[i].queues| && g in ws[i].queues[qi].unclaimed ==>
              g in ws[i].queues[qi].live
    ensures Quiet(ws[i]) ==> |ws[i].pool| == n && forall b: nat :: b < n ==>
              b in ws[i].pool && b in ws[i].memory && ws[i].memory[b] == Zeros(size)
  {
    RunInv(n, size, ws, es, i);
    var w := ws[i];
    assert forall qi :: 0 <= qi < QUEUES ==> Inv(n, w.queues[qi]);
    if Quiet(w) {
      QuietPool(w);
    }
  }

  lemma QueueEmptyHanded(n: nat, q: Fifo, g: nat)
    requires Inv(n, q) && q.ended == |q.frames| && q.live == {}
    ensures !q.Holds(g)
  {
  }

  lemma QuietPool(w: World)
    requires WorldInv(w) && Quiet(w)
    ensures |w.pool| == w.n && forall b: nat :: b < w.n ==> b in w.pool
  {
    forall b: nat | b < w.n ensures b in w.pool {
      assert b in w.ledger;
      if w.ledger[b].ByQueue? {
        var qi := w.ledger[b].queue;
        QueueEmptyHanded(w.n, w.queues[qi], w.ledger[b].generation);
        assert false;
      }
    }
    hide QueuesInv, Booked;
    assert Elems(w.pool) == Buffers(w.n);
    ElemsCard(w.pool);
  }

  // --------------------------------------------------------------- first in, first out

  /** The frames given to queue `qi` in the first `i` steps ... */
  function Submitted(es: seq<Event>, qi: nat, i: nat): seq<Frame>
    requires i <= |es|
  {
    if i == 0 then [] else
      var before := Submitted(es, qi, i - 1);
      if es[i - 1].Submit? && es[i - 1].queue == qi then before + [es[i - 1].frame] else before
  }

  /** ... and those its runner took to the radio. */
  function Taken(qs: seq<Fifo>, es: seq<Event>, qi: nat, i: nat): seq<Frame>
    requires i <= |es| < |qs|
  {
    if i == 0 then [] else
      var before := Taken(qs, es, qi, i - 1);
      if Takes(qi, es[i - 1], qs[i])
      then before + [qs[i].runner.frame]
      else before
  }

  function TakenCount(q: Fifo): nat {
    if q.runner.Transmitting? then q.ended + 1 else q.ended
  }

  // ------------------------------------------------------- one queue of a run

  /** The states of one queue along a run. */
  ghost predicate IsQueueRun(n: nat, qi: nat, qs: seq<Fifo>, es: seq<Event>) {
    && |qs| == |es| + 1 && qs[0] == Fresh()
    && (forall i :: 0 <= i < |qs| ==> Inv(n, qs[i]))
    && (forall i :: 0 <= i < |es| ==> LocallyEnabled(qi, qs[i], es[i]) && qs[i + 1] == Local(n, qi, qs[i], es[i]))
  }

  lemma Project(n: nat, size: nat, ws: seq<World>, es: seq<Event>, qi: nat) returns (qs: seq<Fifo>)
    requires n >= 1 && IsRun(n, size, ws, es) && qi < QUEUES
    ensures IsQueueRun(n, qi, qs, es)
    ensures forall i :: 0 <= i < |ws| ==> |ws[i].queues| == QUEUES && qs[i] == ws[i].queues[qi]
  {
    forall i | 0 <= i < |ws| ensures |ws[i].queues| == QUEUES && Inv(n, ws[i].queues[qi]) {
      RunInv(n, size, ws, es, i);
    }
    hide Inv, WorldInv;
    qs := seq(|ws|, i requires 0 <= i < |ws| => ws[i].queues[qi]);
    forall i | 0 <= i < |es|
      ensures LocallyEnabled(qi, qs[i], es[i]) && qs[i + 1] == Local(n, qi, qs[i], es[i])
    {
      RunInv(n, size, ws, es, i);
      ApplyIsLocal(ws[i], es[i], qi);
    }
  }

  predicate Takes(qi: nat, e: Event, q': Fifo) {
    e.PollRunner? && e.queue == qi && q'.runner.Transmitting?
  }

  lemma LocalRecords(n: nat, qi: nat, q: Fifo, e: Event)
    requires Inv(n, q) && LocallyEnabled(qi, q, e)
    ensures var q' := Local(n, qi, q, e);
            && q'.frames == (if e.Submit? && e.queue == qi then q.frames + [e.frame] else q.frames)
            && TakenCount(q) <= |q.frames|
            && (if Takes(qi, e, q')
                then TakenCount(q') == TakenCount(q) + 1 <= |q.frames| && q'.runner.frame == q.frames[TakenCount(q)]
                else TakenCount(q') == TakenCount(q))
  {
  }

  lemma LocalTaken(n: nat, qi: nat, q: Fifo, e: Event)
    requires Inv(n, q) && LocallyEnabled(qi, q, e)
    ensures var q' := Local(n, qi, q, e);
            && TakenCount(q) <= |q.frames| && TakenCount(q') <= |q'.frames|
            && q'.frames[..TakenCount(q')]
               == if Takes(qi, e, q') then q.frames[..TakenCount(q)] + [q'.runner.frame] else q.frames[..TakenCount(q)]
  {
    LocalRecords(n, qi, q, e);
    hide Inv, Local;
  }

  lemma {:induction false} QueueOrder(n: nat, qi: nat, qs: seq<Fifo>, es: seq<Event>, i: nat)
    requires IsQueueRun(n, qi, qs, es) && i <= |es|
    ensures Submitted(es, qi, i) == qs[i].frames
    ensures TakenCount(qs[i]) <= |qs[i].frames|
    ensures Taken(qs, es, qi, i) == qs[i].frames[..TakenCount(qs[i])]
  {
    hide Inv, Local;
    if i != 0 {
      QueueOrder(n, qi, qs, es, i - 1);
      LocalRecords(n, qi, qs[i - 1], es[i - 1]);
      LocalTaken(n, qi, qs[i - 1], es[i - 1]);
    }
  }

  /** The frames of queue `qi` that its runner took to the radio in the first
      `i` steps of a run. */
  function OnAir(ws: seq<World>, es: seq<Event>, qi: nat, i: nat): seq<Frame>
    requires i <= |es| < |ws|
  {
    if i == 0 then [] else
      OnAir(ws, es, qi, i - 1)
      + if qi < |ws[i].queues| && Takes(qi, es[i - 1], ws[i].queues[qi]) then [ws[i].queues[qi].runner.frame] else []
  }

  lemma {:induction false} OnAirIsTaken(ws: seq<World>, qs: seq<Fifo>, es: seq<Event>, qi: nat, i: nat)
    requires i <= |es| && |qs| == |ws| == |es| + 1
    requires forall k :: 0 <= k < |ws| ==> qi < |ws[k].queues| && qs[k] == ws[k].queues[qi]
    ensures OnAir(ws, es, qi, i) == Taken(qs, es, qi, i)
  {
    if i != 0 {
      OnAirIsTaken(ws, qs, es, qi, i - 1);
    }
  }

  /** Over every run, with aborts and cancelled handles anywhere, the radio gets
      the frames of each queue in the order they were given, each at most once
      and without a gap. */
  lemma RadioOrder(n: nat, size: nat, ws: seq<World>, es: seq<Event>, qi: nat, i: nat)
    requires n >= 1 && IsRun(n, size, ws, es) && qi < QUEUES && i <= |es|
    ensures OnAir(ws, es, qi, i) <= Submitted(es, qi, i)
    ensures |ws[i].queues| == QUEUES && |OnAir(ws, es, qi, i)| == TakenCount(ws[i].queues[qi])
  {
    var qs := Project(n, size, ws, es, qi);
    QueueOrder(n, qi, qs, es, i);
    OnAirIsTaken(ws, qs, es, qi, i);
  }

  // ------------------------------------------------------------ generations

  /** Step `i` hands completion `c` to the holder of handle `g`. */
  predicate Answers(ws: seq<World>, es: seq<Event>, i: nat, qi: nat, g: nat, c: Completion) {
    && i < |es| < |ws| && es[i] == PollCompletion(qi, g)
    && qi < |ws[i].queues| && PollAnswer(ws[i].n, ws[i].queues[qi], g) == Done(Some(c))
  }

  predicate Claimed(q: Fifo, g: nat) {
    exists k :: 0 <= k < |q.claims| && q.claims[k].generation == g
  }

  lemma ClaimedStays(n: nat, qi: nat, q: Fifo, e: Event, g: nat)
    requires LocallyEnabled(qi, q, e) && Claimed(q, g)
    ensures Claimed(Local(n, qi, q, e), g)
  {
    var q' := Local(n, qi, q, e);
    var k :| 0 <= k < |q.claims| && q.claims[k].generation == g;
    assert k < |q'.claims| && q'.claims[k] == q.claims[k];
  }

  lemma {:induction false} ClaimedForGood(n: nat, qi: nat, qs: seq<Fifo>, es: seq<Event>, i: nat, j: nat, g: nat)
    requires IsQueueRun(n, qi, qs, es) && i <= j < |qs| && Claimed(qs[i], g)
    ensures Claimed(qs[j], g)
    decreases j
  {
    hide Inv, Claimed;
    if i < j {
      ClaimedForGood(n, qi, qs, es, i, j - 1, g);
      ClaimedStays(n, qi, qs[j - 1], es[j - 1], g);
    }
  }

  lemma ClaimedNotUnclaimed(n: nat, q: Fifo, g: nat)
    requires Inv(n, q) && Claimed(q, g)
    ensures g !in q.unclaimed
  {
  }

  /** A handle obtains a completion at most once in any run. */
  lemma AnsweredOnce(n: nat, size: nat, ws: seq<World>, es: seq<Event>,
                     i: nat, j: nat, qi: nat, g: nat, c: Completion, d: Completion)
    requires n >= 1 && IsRun(n, size, ws, es) && qi < QUEUES
    requires Answers(ws, es, i, qi, g, c) && Answers(ws, es, j, qi, g, d)
    ensures i == j
  {
    RunInv(n, size, ws, es, i);
    RunInv(n, size, ws, es, j);
    var qs := Project(n, size, ws, es, qi);
    hide WorldInv, IsRun;
    AnsweredNeverAgain(n, qi, qs, es, i, j, g, c);
    AnsweredNeverAgain(n, qi, qs, es, j, i, g, d);
  }

  lemma AnsweredNeverAgain(n: nat, qi: nat, qs: seq<Fifo>, es: seq<Event>, i: nat, j: nat, g: nat, c: Completion)
    requires IsQueueRun(n, qi, qs, es) && i < |es| && j < |es|
    requires es[i] == PollCompletion(qi, g) && PollAnswer(n, qs[i], g) == Done(Some(c))
    ensures i < j ==> g !in qs[j].unclaimed
  {
    if i < j {
      assert qs[i + 1] == PollHandle(n, qs[i], g);
      assert qs[i + 1].claims[|qs[i].claims|].generation == g;
      ClaimedForGood(n, qi, qs, es, i + 1, j, g);
      ClaimedNotUnclaimed(n, qs[j], g);
    }
  }

  /** Frame `g` of a queue came from the submission that counted `g` before it. */
  lemma {:induction false} SubmissionOf(n: nat, qi: nat, qs: seq<Fifo>, es: seq<Event>, i: nat, g: nat) returns (j: nat)
    requires IsQueueRun(n, qi, qs, es) && i < |qs| && g < |qs[i].frames|
    ensures j < i && es[j] == Submit(qi, qs[i].frames[g]) && |qs[j].frames| == g
    decreases i
  {
    hide Inv, Local, LocallyEnabled, TakenCount, Takes;
    assert i != 0;
    LocalRecords(n, qi, qs[i - 1], es[i - 1]);
    if g < |qs[i - 1].frames| {
      j := SubmissionOf(n, qi, qs, es, i - 1, g);
    } else {
      j := i - 1;
    }
  }

  lemma LocalResults(n: nat, qi: nat, q: Fifo, e: Event, g: nat)
    requires LocallyEnabled(qi, q, e) && g in Local(n, qi, q, e).results
    ensures var q' := Local(n, qi, q, e);
            if e.RadioDone? && e.queue == qi && q.ended == g
            then q'.results[g] == e.result
            else g in q.results && q'.results[g] == q.results[g]
  {
  }

  /** The recorded result of frame `g` is the one the radio gave for it. */
  lemma {:induction false} ResultOf(n: nat, qi: nat, qs: seq<Fifo>, es: seq<Event>, i: nat, g: nat) returns (k: nat)
    requires IsQueueRun(n, qi, qs, es) && i < |qs| && g in qs[i].results
    ensures k < i && es[k].RadioDone? && es[k].queue == qi && es[k].result == qs[i].results[g] && qs[k].ended == g
    decreases i
  {
    hide Inv, Local, LocallyEnabled;
    assert i != 0;
    LocalResults(n, qi, qs[i - 1], es[i - 1], g);
    if es[i - 1].RadioDone? && es[i - 1].queue == qi && qs[i - 1].ended == g {
      k := i - 1;
    } else {
      k := ResultOf(n, qi, qs, es, i - 1, g);
    }
  }

  /** A handle only ever obtains its own frame: the buffer and length submitted
      as generation `g`, and the result the radio gave when `g` was in flight. */
  lemma AnswerIsOwn(n: nat, size: nat, ws: seq<World>, es: seq<Event>, i: nat, qi: nat, g: nat, c: Completion)
    returns (j: nat, k: nat)
    requires n >= 1 && IsRun(n, size, ws, es) && qi < QUEUES && Answers(ws, es, i, qi, g, c)
    ensures j < i && es[j].Submit? && es[j].queue == qi && |ws[j].queues| == QUEUES
    ensures |ws[j].queues[qi].frames| == g
    ensures es[j].frame.buffer == c.buffer && es[j].frame.length == c.length
    ensures k < i && es[k].RadioDone? && es[k].queue == qi && es[k].result == c.result
    ensures |ws[k].queues| == QUEUES && ws[k].queues[qi].ended == g
  {
    RunInv(n, size, ws, es, i);
    var qs := Project(n, size, ws, es, qi);
    hide WorldInv, IsRun;
    OwnCompletion(n, qs[i], g, c);
    hide Inv;
    j := SubmissionOf(n, qi, qs, es, i, g);
    k := ResultOf(n, qi, qs, es, i, g);
  }

  lemma OwnCompletion(n: nat, q: Fifo, g: nat, c: Completion)
    requires Inv(n, q) && g in q.unclaimed && q.unclaimed[g] == c
    ensures Faithful(q, g, c)
  {
  }

  // ------------------------------------------------------------------ wakeups

  /** A queue with frames in it never has a runner asleep, and a handle whose
      future sleeps still has its frame in the queue and its slot unshared, so
      the end of that transmission finds its waker. */
  lemma NobodySleepsForever(n: nat, size: nat, ws: seq<World>, es: seq<Event>, i: nat, qi: nat)
    requires n >= 1 && IsRun(n, size, ws, es) && i < |ws| && qi < QUEUES
    ensures |ws[i].queues| == QUEUES
    ensures ws[i].queues[qi].Len() > 0 ==> !ws[i].queues[qi].runner.Parked?
    ensures forall g :: g in ws[i].queues[qi].waiting ==>
              ws[i].queues[qi].Queued(g) && !Stale(n, ws[i].queues[qi], g)
  {
    RunInv(n, size, ws, es, i);
    assert Inv(n, ws[i].queues[qi]);
  }

  /** The transmission of frame `g` ends in this step, sent or aborted. */
  predicate Ends(qi: nat, q: Fifo, e: Event, g: nat) {
    (e.RadioDone? || e.AbortRunner?) && e.queue == qi && q.InFlight(g)
  }

  lemma WakeupsOfOneStep(n: nat, qi: nat, q: Fifo, e: Event, g: nat)
    requires Inv(n, q) && LocallyEnabled(qi, q, e)
    ensures var q' := Local(n, qi, q, e);
            && (g in q.waiting && g !in q'.waiting ==> e == DropPending(qi, g) || Ends(qi, q, e, g))
            && (g in q.live && Ends(qi, q, e, g) ==> PollAnswer(n, q', g).Done?)
            && (q.runner.Parked? && e.Submit? && e.queue == qi ==> q'.runner.Scheduled?)
            && (g in q.live ==> (PollAnswer(n, q, g).NotYet? <==> q.Queued(g)))
            && (e == PollCompletion(qi, g) && PollAnswer(n, q, g).NotYet? ==> g in q'.waiting)
            && (e == PollRunner(qi) && q.Len() == 0 ==> q'.runner.Parked? && q'.runnerWaker)
            && (e.RadioDone? && e.queue == qi ==> q'.runner.Scheduled?)
  {
  }

  /** Wakeups in every run. A poll that is put off, exactly while the frame is in
      the queue, leaves its waiter registered. A waiter stops waiting only when its
      own frame ends, after which its next poll is answered, or when it is dropped.
      A runner goes on after each completion and parks on an empty queue only, with
      its waker stored, and the very next frame schedules it. */
  lemma NoWakeupIsLost(n: nat, size: nat, ws: seq<World>, es: seq<Event>, i: nat, qi: nat, g: nat)
    requires n >= 1 && IsRun(n, size, ws, es) && i < |es| && qi < QUEUES
    ensures |ws[i].queues| == |ws[i + 1].queues| == QUEUES
    ensures var q, q' := ws[i].queues[qi], ws[i + 1].queues[qi];
            && (g in q.waiting && g !in q'.waiting ==>
                  es[i] == DropPending(qi, g) || (Ends(qi, q, es[i], g) && PollAnswer(n, q', g).Done?))
            && (g in q.live ==> (PollAnswer(n, q, g).NotYet? <==> q.Queued(g)))
            && (es[i] == PollCompletion(qi, g) && PollAnswer(n, q, g).NotYet? ==> g in q'.waiting)
            && (es[i] == PollRunner(qi) ==> (q'.runner.Parked? <==> q.Len() == 0))
            && (es[i].RadioDone? && es[i].queue == qi ==> q'.runner.Scheduled?)
            && (q'.runner.Parked? ==> q'.runnerWaker)
            && (q.runner.Parked? && es[i].Submit? && es[i].queue == qi ==> q'.runner.Scheduled?)
  {
    var qs := Project(n, size, ws, es, qi);
    hide IsRun;
    assert Inv(n, qs[i]);
    assert g in qs[i].waiting ==> g in qs[i].live;
    assert Inv(n, qs[i + 1]);
    PolledRunner(n, qi, qs[i], es[i]);
    hide Inv, Local;
    WakeupsOfOneStep(n, qi, qs[i], es[i], g);
  }

  lemma PolledRunner(n: nat, qi: nat, q: Fifo, e: Event)
    requires Inv(n, q) && LocallyEnabled(qi, q, e)
    ensures e == PollRunner(qi) ==> (Local(n, qi, q, e).runner.Parked? <==> q.Len() == 0)
  {
  }

  // -------------------------------------------------- completions reach handles

  /** Frame `g` of queue `q`, finished with `result`, as its handle gets it. */
  function Outcome(q: Fifo, g: nat, result: TxResult): Completion
    requires g < |q.frames|
  {
    Completion(result, q.frames[g].buffer, q.frames[g].length)
  }

  /** A submission makes its handle; only its own drop unmakes it. What the radio
      gives is kept for a live handle, and a kept completion goes only to the poll
      or the drop of that handle, or when the slot is needed `n` frames later. */
  lemma KeptByOneStep(n: nat, qi: nat, q: Fifo, e: Event, g: nat)
    requires Inv(n, q) && LocallyEnabled(qi, q, e)
    ensures var q' := Local(n, qi, q, e);
            && (g in q'.live <==> (g in q.live && e != DropPending(qi, g))
                                  || (e.Submit? && e.queue == qi && g == |q.frames|))
            && (e.RadioDone? && e.queue == qi && g == q.ended && g in q.live ==>
                  && g < |q.frames| && g in q'.unclaimed && q'.unclaimed[g] == Outcome(q, g, e.result))
            && (g in q.unclaimed && g !in q'.unclaimed ==>
                  || e == PollCompletion(qi, g) || e == DropPending(qi, g)
                  || (e.Submit? && e.queue == qi && |q.frames| == g + n))
            && (g in q.unclaimed && g in q'.unclaimed ==> q'.unclaimed[g] == q.unclaimed[g])
  {
    KeptHandles(n, qi, q, e, g);
    KeptCompletions(n, qi, q, e, g);
  }

  lemma KeptHandles(n: nat, qi: nat, q: Fifo, e: Event, g: nat)
    requires Inv(n, q) && LocallyEnabled(qi, q, e)
    ensures g in Local(n, qi, q, e).live
            <==> (g in q.live && e != DropPending(qi, g)) || (e.Submit? && e.queue == qi && g == |q.frames|)
  {
  }

  lemma KeptCompletions(n: nat, qi: nat, q: Fifo, e: Event, g: nat)
    requires Inv(n, q) && LocallyEnabled(qi, q, e)
    ensures var q' := Local(n, qi, q, e);
            && (e.RadioDone? && e.queue == qi && g == q.ended && g in q.live ==>
                  && g < |q.frames| && g in q'.unclaimed && q'.unclaimed[g] == Outcome(q, g, e.result))
            && (g in q.unclaimed && g !in q'.unclaimed ==>
                  || e == PollCompletion(qi, g) || e == DropPending(qi, g)
                  || (e.Submit? && e.queue == qi && |q.frames| == g + n))
            && (g in q.unclaimed && g in q'.unclaimed ==> q'.unclaimed[g] == q.unclaimed[g])
  {
  }

  /** Neither polled nor dropped, and its slot not needed again. */
  predicate LeavesAlone(n: nat, qi: nat, q: Fifo, e: Event, g: nat) {
    e != PollCompletion(qi, g) && e != DropPending(qi, g) && !(e.Submit? && e.queue == qi && |q.frames| == g + n)
  }

  lemma {:induction false} UnclaimedStays(n: nat, qi: nat, qs: seq<Fifo>, es: seq<Event>, i: nat, j: nat,
                                          g: nat, c: Completion)
    requires IsQueueRun(n, qi, qs, es) && i <= j < |qs| && g in qs[i].unclaimed && qs[i].unclaimed[g] == c
    requires forall k :: i <= k < j ==> LeavesAlone(n, qi, qs[k], es[k], g)
    ensures g in qs[j].unclaimed && qs[j].unclaimed[g] == c
    decreases j
  {
    hide Inv, Local, LocallyEnabled;
    if i < j {
      UnclaimedStays(n, qi, qs, es, i, j - 1, g, c);
      assert LeavesAlone(n, qi, qs[j - 1], es[j - 1], g);
      KeptByOneStep(n, qi, qs[j - 1], es[j - 1], g);
    }
  }

  /** The result of a frame whose handle lives is there for that handle, until it
      is fetched or dropped or `n` later frames have needed the slot. */
  lemma AnswerIsKept(n: nat, size: nat, ws: seq<World>, es: seq<Event>, i: nat, j: nat, qi: nat, result: TxResult)
    requires n >= 1 && IsRun(n, size, ws, es) && i < j < |ws| && qi < QUEUES
    requires |ws[i].queues| == |ws[j].queues| == QUEUES
    requires es[i].RadioDone? && es[i].queue == qi && es[i].result == result
    requires ws[i].queues[qi].ended in ws[i].queues[qi].live
    requires forall k :: i < k < j ==>
               |ws[k].queues| == QUEUES && LeavesAlone(n, qi, ws[k].queues[qi], es[k], ws[i].queues[qi].ended)
    ensures var q, g := ws[i].queues[qi], ws[i].queues[qi].ended;
            g < |q.frames| && PollAnswer(n, ws[j].queues[qi], g) == Done(Some(Outcome(q, g, result)))
  {
    var qs := Project(n, size, ws, es, qi);
    var g := qs[i].ended;
    hide IsRun;
    assert Inv(n, qs[i]) && Inv(n, qs[j]);
    KeptByOneStep(n, qi, qs[i], es[i], g);
    hide Local;
    UnclaimedStays(n, qi, qs, es, i + 1, j, g, Outcome(qs[i], g, result));
    NotStale(n, qs[j], g);
  }

  lemma NotStale(n: nat, q: Fifo, g: nat)
    requires Inv(n, q) && g in q.unclaimed
    ensures PollAnswer(n, q, g) == Done(Some(q.unclaimed[g]))
  {
  }
}
