/** Progress of the transmit side: it can always be brought to rest, with every
    buffer back in the pool, by nothing but its own runners, the radio and the
    dropping of handles and buffers. No completion and no caller's neglect
    can hold a buffer back for good. */
module TxProgress {
  import opened Basics
  import opened TxQueueSpec
  import opened TxSystem
  import opened TxTheorems

  /** Steps that ask nothing of the callers but to let go. */
  predicate Tidies(e: Event) {
    e.StartRunner? || e.PollRunner? || e.RadioDone? || e.DropPending? || e.Discard?
  }

  function Rank(r: Runner): nat {
    match r case Stopped => 2 case Scheduled => 1 case _ => 0
  }

  /** What is left to do in a queue. */
  function QueueWork(q: Fifo): nat { |q.live| + 3 * q.Len() + Rank(q.runner) }

  function Work(w: World): nat {
    if |w.queues| != QUEUES then 0 else
      |w.callers|
      + QueueWork(w.queues[0]) + QueueWork(w.queues[1]) + QueueWork(w.queues[2]) + QueueWork(w.queues[3])
  }

  predicate AtRest(q: Fifo) { q.ended == |q.frames| && q.live == {} }

  /** A queue that is not at rest has a step to take, and less to do after it. */
  lemma QueueStep(n: nat, qi: nat, q: Fifo, size: nat) returns (e: Event)
    requires Inv(n, q) && !AtRest(q)
    ensures Tidies(e) && !e.Discard? && e.queue == qi && LocallyEnabled(qi, q, e)
    ensures e.RadioDone? ==> |e.content| == size
    ensures QueueWork(Local(n, qi, q, e)) < QueueWork(q)
  {
    if q.live != {} {
      var g :| g in q.live;
      e := DropPending(qi, g);
      assert |q.live - {g}| == |q.live| - 1;
    } else {
      e := match q.runner
           case Stopped => StartRunner(qi)
           case Transmitting(_) => RadioDone(qi, TxResult.Ok(0), Zeros(size))
           case _ => PollRunner(qi);
    }
  }

  lemma OthersUnmoved(w: World, e: Event, qj: nat)
    requires Enabled(w, e) && qj < |w.queues|
    requires e.Discard? || (Tidies(e) && e.queue != qj)
    ensures |Apply(w, e).queues| == |w.queues| && Apply(w, e).queues[qj] == w.queues[qj]
  {
    ApplyIsLocal(w, e, qj);
    hide Apply, Enabled;
  }

  lemma CallersUnmoved(w: World, e: Event)
    requires Enabled(w, e) && Tidies(e)
    ensures Apply(w, e).callers == if e.Discard? then w.callers - {e.buffer} else w.callers
  {
  }

  /** Unless the world is quiet, some tidying step leaves less work. */
  lemma OneStep(w: World) returns (e: Event)
    requires WorldInv(w) && !Quiet(w)
    ensures |w.queues| == QUEUES && Enabled(w, e) && Tidies(e)
    ensures |Apply(w, e).queues| == QUEUES && Work(Apply(w, e)) < Work(w)
  {
    if w.callers != {} {
      hide Inv, Books, MemoryInv;
      var b :| b in w.callers;
      e := Discard(b);
      CallersUnmoved(w, e);
      forall qj | 0 <= qj < QUEUES ensures Apply(w, e).queues[qj] == w.queues[qj] {
        OthersUnmoved(w, e, qj);
      }
      assert |w.callers - {b}| == |w.callers| - 1;
    } else {
      hide Inv, Books, MemoryInv;
      var qi: nat :| qi < |w.queues| && !AtRest(w.queues[qi]);
      e := QueueStep(w.n, qi, w.queues[qi], w.size);
      assert Enabled(w, e);
      LessWork(w, e, qi);
    }
  }

  lemma LessWork(w: World, e: Event, qi: nat)
    requires |w.queues| == QUEUES && qi < QUEUES && Enabled(w, e) && Tidies(e) && !e.Discard? && e.queue == qi
    requires LocallyEnabled(qi, w.queues[qi], e)
    requires QueueWork(Local(w.n, qi, w.queues[qi], e)) < QueueWork(w.queues[qi])
    ensures |Apply(w, e).queues| == QUEUES && Work(Apply(w, e)) < Work(w)
  {
    CallersUnmoved(w, e);
    ApplyIsLocal(w, e, qi);
    forall qj | 0 <= qj < QUEUES && qj != qi ensures Apply(w, e).queues[qj] == w.queues[qj] {
      OthersUnmoved(w, e, qj);
    }
    hide Apply, Enabled, Local, QueueWork;
  }

  lemma Extend(n: nat, size: nat, ws: seq<World>, es: seq<Event>, e: Event)
    requires IsRun(n, size, ws, es) && Enabled(ws[|es|], e)
    ensures IsRun(n, size, ws + [Apply(ws[|es|], e)], es + [e])
  {
    hide Apply, Enabled;
  }

  /** Every run can be continued, by tidying steps only, to a world at rest with
      all buffers in the pool. */
  lemma {:induction false} ComesToRest(n: nat, size: nat, ws: seq<World>, es: seq<Event>)
    returns (ws': seq<World>, es': seq<Event>)
    requires n >= 1 && IsRun(n, size, ws, es)
    ensures IsRun(n, size, ws', es') && ws <= ws' && es <= es'
    ensures forall i :: |es| <= i < |es'| ==> Tidies(es'[i])
    ensures Quiet(ws'[|es'|]) && |ws'[|es'|].pool| == n
    decreases Work(ws[|es|])
  {
    hide IsRun, WorldInv, Apply, Enabled, Work, Quiet;
    RunEnd(n, size, ws, es);
    if Quiet(ws[|es|]) {
      ws', es' := ws, es;
    } else {
      var e := OneStep(ws[|es|]);
      Extend(n, size, ws, es, e);
      ws', es' := ComesToRest(n, size, ws + [Apply(ws[|es|], e)], es + [e]);
      assert es'[|es|] == e;
    }
  }

  lemma RunEnd(n: nat, size: nat, ws: seq<World>, es: seq<Event>)
    requires n >= 1 && IsRun(n, size, ws, es)
    ensures |ws| == |es| + 1 && WorldInv(ws[|es|])
    ensures Quiet(ws[|es|]) ==> |ws[|es|].pool| == n
  {
    hide WorldInv, Apply, Enabled;
    RunInv(n, size, ws, es, |es|);
    NothingStranded(n, size, ws, es, |es|);
  }

  /** Nothing but ownership limits the callers: who has a buffer may write, submit
      or discard it, who has a handle may poll or drop it, a free buffer may be
      taken, and a runner may be started or stopped at any time. */
  lemma CallersAreFree(w: World, b: nat, content: seq<Byte>, f: Frame, qi: nat, g: nat)
    requires WorldInv(w) && qi < QUEUES && |content| == w.size
    ensures |w.queues| == QUEUES && (Enabled(w, Alloc) <==> w.pool != [])
    ensures b in w.callers ==> Enabled(w, Write(b, content)) && Enabled(w, Discard(b))
    ensures f.buffer in w.callers && |w.queues[qi].frames| < U64_MAX ==> Enabled(w, Submit(qi, f))
    ensures g in w.queues[qi].live ==> Enabled(w, PollCompletion(qi, g)) && Enabled(w, DropPending(qi, g))
    ensures if w.queues[qi].runner.Stopped? then Enabled(w, StartRunner(qi)) else Enabled(w, AbortRunner(qi))
  {
    hide Books, MemoryInv, Inv;
  }

  function Plain(length: nat): Frame { Frame(0, length, None, None) }

  /** A caller gets a buffer, fills and submits it ... */
  lemma OneFrameIn(n: nat, size: nat, content: seq<Byte>, length: nat) returns (ws: seq<World>)
    requires n >= 1 && |content| == size
    ensures IsRun(n, size, ws, [Alloc, Write(0, content), Submit(0, Plain(length))])
    ensures |ws[3].queues| == QUEUES && ws[3].n == n && ws[3].size == size
    ensures ws[3].queues[0] == Fifo([Plain(length)], 0, Stopped, false, map[], {0}, {}, map[], [])
    ensures 0 in ws[3].memory && ws[3].memory[0] == content
  {
    var w0 := Init(n, size);
    assert w0.pool[0] == 0;
    var w1 := Apply(w0, Alloc);
    var w2 := Apply(w1, Write(0, content));
    var w3 := Apply(w2, Submit(0, Plain(length)));
    assert w3.queues[0] == Fifo([Plain(length)], 0, Stopped, false, map[], {0}, {}, map[], []);
    ws := [w0, w1, w2, w3];
  }

  lemma OneFrameTaken(w: World, length: nat)
    requires |w.queues| == QUEUES
    requires w.queues[0] == Fifo([Plain(length)], 0, Stopped, false, map[], {0}, {}, map[], [])
    ensures var start, poll := StartRunner(0), PollRunner(0);
            && Enabled(w, start) && Enabled(Apply(w, start), poll)
            && var v := Apply(Apply(w, start), poll);
               && |v.queues| == QUEUES && v.n == w.n && v.size == w.size && v.memory == w.memory
               && v.queues[0] == Fifo([Plain(length)], 0, Transmitting(Plain(length)), false, map[], {0}, {}, map[], [])
  {
  }

  /** ... and the runner takes it to the radio. */
  lemma OneFrameOut(n: nat, size: nat, content: seq<Byte>, length: nat) returns (ws: seq<World>)
    requires n >= 1 && |content| == size
    ensures var es := [Alloc, Write(0, content), Submit(0, Plain(length)), StartRunner(0), PollRunner(0)];
            IsRun(n, size, ws, es)
    ensures |ws| == 6 && |ws[5].queues| == QUEUES && ws[5].n == n && ws[5].size == size
    ensures ws[5].queues[0] == Fifo([Plain(length)], 0, Transmitting(Plain(length)), false, map[], {0}, {}, map[], [])
    ensures 0 in ws[5].memory && ws[5].memory[0] == content
  {
    hide IsRun, Apply, Enabled;
    ws := OneFrameIn(n, size, content, length);
    var es := [Alloc, Write(0, content), Submit(0, Plain(length))];
    RunEnd(n, size, ws, es);
    var start, poll := StartRunner(0), PollRunner(0);
    OneFrameTaken(ws[3], length);
    var w4 := Apply(ws[3], start);
    Extend(n, size, ws, es, start);
    ws, es := ws + [w4], es + [start];
    Extend(n, size, ws, es, poll);
    ws := ws + [Apply(w4, poll)];
    assert es + [poll] == [Alloc, Write(0, content), Submit(0, Plain(length)), StartRunner(0), PollRunner(0)];
  }

  lemma OneFrameBack(w: World, length: nat, result: TxResult, after: seq<Byte>)
    requires w.n >= 1 && |w.queues| == QUEUES && |after| == w.size
    requires w.queues[0] == Fifo([Plain(length)], 0, Transmitting(Plain(length)), false, map[], {0}, {}, map[], [])
    ensures var done, ask := RadioDone(0, result, after), PollCompletion(0, 0);
            && Enabled(w, done) && Enabled(Apply(w, done), ask)
            && PollAnswer(w.n, Apply(w, done).queues[0], 0) == Done(Some(Completion(result, 0, length)))
            && var v := Apply(Apply(w, done), ask); 0 in v.callers && 0 in v.memory && v.memory[0] == after
  {
    var w6 := Apply(w, RadioDone(0, result, after));
    assert w6.queues[0].unclaimed == map[0 := Completion(result, 0, length)];
  }

  /** The life of one frame, in steps that are all possible: the radio gets the
      bytes its caller wrote, and the handle's poll is answered with the radio's
      result and the buffer as the radio left it. */
  lemma OneFrame(n: nat, size: nat, content: seq<Byte>, length: nat, result: TxResult, after: seq<Byte>)
    returns (ws: seq<World>, es: seq<Event>)
    requires n >= 1 && |content| == |after| == size
    ensures IsRun(n, size, ws, es)
    ensures es == [Alloc, Write(0, content), Submit(0, Plain(length)), StartRunner(0), PollRunner(0),
                   RadioDone(0, result, after), PollCompletion(0, 0)]
    ensures |ws| == 8 && |ws[5].queues| == QUEUES && ws[5].queues[0].runner == Transmitting(Plain(length))
    ensures 0 in ws[5].memory && ws[5].memory[0] == content
    ensures Answers(ws, es, 6, 0, 0, Completion(result, 0, length))
    ensures 0 in ws[7].callers && 0 in ws[7].memory && ws[7].memory[0] == after
  {
    hide IsRun, Apply, Enabled;
    es := [Alloc, Write(0, content), Submit(0, Plain(length)), StartRunner(0), PollRunner(0)];
    ws := OneFrameOut(n, size, content, length);
    RunEnd(n, size, ws, es);
    var done, ask := RadioDone(0, result, after), PollCompletion(0, 0);
    OneFrameBack(ws[5], length, result, after);
    Extend(n, size, ws, es, done);
    var w6 := Apply(ws[5], done);
    ws, es := ws + [w6], es + [done];
    StepShape(ws[5], done);
    Extend(n, size, ws, es, ask);
    ws, es := ws + [Apply(w6, ask)], es + [ask];
  }

  lemma StepShape(w: World, e: Event)
    requires Enabled(w, e)
    ensures |Apply(w, e).queues| == |w.queues| && Apply(w, e).n == w.n
  {
  }
}
