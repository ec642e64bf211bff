/** The whole transmit side: one pool of `n` buffers, four EDCA queues, their
    runners, every handle and every caller. A step is one locked section or one
    poll, so a run is any interleaving of them. */
module TxSystem {
  import opened Basics
  import opened TxQueueSpec
  import Spec = TxQueueSpec

  const QUEUES: nat := 4

  datatype Owner = ByPool | ByCaller | ByQueue(queue: nat, generation: nat) | InTransit

  /** `pool` is the bounded channel of free buffers and `callers` the buffers
      application code holds. `ledger` is bookkeeping for the proofs: no step
      reads it to decide anything. */
  datatype World = World(
    n: nat,
    size: nat,
    pool: seq<nat>,
    memory: map<nat, seq<Byte>>,
    callers: set<nat>,
    queues: seq<Fifo>,
    ledger: map<nat, Owner>
  )

  datatype Event =
    | Alloc
    | Write(buffer: nat, content: seq<Byte>)
    | Discard(buffer: nat)
    | Submit(queue: nat, frame: Frame)
    | PollRunner(queue: nat)
    | RadioDone(queue: nat, result: TxResult, content: seq<Byte>)
    | AbortRunner(queue: nat)
    | StartRunner(queue: nat)
    | PollCompletion(queue: nat, handle: nat)
    | DropPending(queue: nat, handle: nat)

  function Init(n: nat, size: nat): World {
    World(n, size,
          seq(n, i => i),
          map b | b in Buffers(n) :: Zeros(size),
          {},
          [Fresh(), Fresh(), Fresh(), Fresh()],
          map b | b in Buffers(n) :: ByPool)
  }

  /** What ownership and control flow allow. Neither room in the queue nor
      room in the pool's channel is assumed here. */
  predicate Enabled(w: World, e: Event) {
    match e
    case Alloc => |w.pool| > 0
    case Write(b, content) => b in w.callers && |content| == w.size
    case Discard(b) => b in w.callers
    case Submit(qi, f) => qi < |w.queues| && f.buffer in w.callers && |w.queues[qi].frames| < U64_MAX
    case PollRunner(qi) => qi < |w.queues| && w.queues[qi].runner.Scheduled?
    case RadioDone(qi, _, content) => qi < |w.queues| && w.queues[qi].runner.Transmitting? && |content| == w.size
    case AbortRunner(qi) => qi < |w.queues| && !w.queues[qi].runner.Stopped?
    case StartRunner(qi) => qi < |w.queues| && w.queues[qi].runner.Stopped?
    case PollCompletion(qi, g) => qi < |w.queues| && g in w.queues[qi].live
    case DropPending(qi, g) => qi < |w.queues| && g in w.queues[qi].live
  }

  /** `TxBuffer::drop`: wipe the buffer and try to send it to the channel,
      which would silently lose it if it were full. */
  function Release(w: World, b: nat): World {
    w.(memory := w.memory[b := Zeros(w.size)],
       pool := if |w.pool| < w.n then w.pool + [b] else w.pool,
       ledger := w.ledger[b := ByPool])
  }

  function ToCaller(w: World, b: nat): World {
    w.(callers := w.callers + {b}, ledger := w.ledger[b := ByCaller])
  }

  function Apply(w: World, e: Event): World
    requires Enabled(w, e)
  {
    match e
    case Alloc =>
      ToCaller(w.(pool := w.pool[1..]), w.pool[0])
    case Write(b, content) =>
      w.(memory := w.memory[b := content])
    case Discard(b) =>
      Release(w.(callers := w.callers - {b}), b)
    case Submit(qi, f) =>
      var q := w.queues[qi];
      var w' := w.(callers := w.callers - {f.buffer},
                   ledger := w.ledger[f.buffer := ByQueue(qi, |q.frames|)],
                   queues := w.queues[qi := Spec.Enqueue(w.n, q, f)]);
      (match Displaced(w.n, q) case Some(b) => Release(w', b) case None => w')
    case PollRunner(qi) =>
      w.(queues := w.queues[qi := RunnerPoll(w.queues[qi])])
    case RadioDone(qi, result, content) =>
      var q := w.queues[qi];
      var b := q.runner.frame.buffer;
      var w' := w.(memory := w.memory[b := content],
                   queues := w.queues[qi := Spec.Finish(q, Some(result))]);
      if FinishReleases(q, Some(result)) then Release(w', b) else w'
    case AbortRunner(qi) =>
      var q := w.queues[qi];
      if q.runner.Transmitting?
      then Release(w.(queues := w.queues[qi := Spec.Finish(q, None)]), q.runner.frame.buffer)
      else w.(queues := w.queues[qi := q.(runner := Stopped)])
    case StartRunner(qi) =>
      w.(queues := w.queues[qi := w.queues[qi].(runner := Scheduled)])
    case PollCompletion(qi, g) =>
      var q := w.queues[qi];
      var w' := w.(queues := w.queues[qi := PollHandle(w.n, q, g)]);
      (match PollAnswer(w.n, q, g) case Done(Some(c)) => ToCaller(w', c.buffer) case _ => w')
    case DropPending(qi, g) =>
      var q := w.queues[qi];
      var w' := w.(queues := w.queues[qi := DropHandle(w.n, q, g)]);
      if g in q.unclaimed then Release(w', q.unclaimed[g].buffer) else w'
  }

  /** Any finite run from a fresh system. */
  predicate IsRun(n: nat, size: nat, ws: seq<World>, es: seq<Event>) {
    && |ws| == |es| + 1
    && ws[0] == Init(n, size)
    && forall i :: 0 <= i < |es| ==> Enabled(ws[i], es[i]) && ws[i + 1] == Apply(ws[i], es[i])
  }

  // ---------------------------------------------------------------- invariant

  ghost predicate PoolBooked(pool: seq<nat>, ledger: map<nat, Owner>) {
    Distinct(pool) && forall b :: b in pool <==> b in ledger && ledger[b].ByPool?
  }

  ghost predicate CallersBooked(callers: set<nat>, ledger: map<nat, Owner>) {
    forall b :: b in callers <==> b in ledger && ledger[b].ByCaller?
  }

  /** Queue `qi` holds exactly the buffers the ledger books to it. */
  ghost predicate Booked(ledger: map<nat, Owner>, qi: nat, q: Fifo) {
    && (forall g: nat :: q.Holds(g) ==>
         && g < |q.frames| && q.frames[g].buffer in ledger
         && ledger[q.frames[g].buffer] == ByQueue(qi, g))
    && (forall b :: b in ledger && ledger[b].ByQueue? && ledger[b].queue == qi ==>
         var g := ledger[b].generation;
         g < |q.frames| && q.Holds(g) && q.frames[g].buffer == b)
  }

  /** The books are right, apart from the buffers listed in `transit`. */
  ghost predicate Books(w: World, transit: set<nat>) {
    && |w.queues| == QUEUES && w.ledger.Keys == Buffers(w.n)
    && PoolBooked(w.pool, w.ledger)
    && CallersBooked(w.callers, w.ledger)
    && (forall qi: nat :: qi < |w.queues| ==> Booked(w.ledger, qi, w.queues[qi]))
    && (forall b :: b in w.ledger && w.ledger[b].ByQueue? ==> w.ledger[b].queue < |w.queues|)
    && (forall b :: b in w.ledger ==> (w.ledger[b].InTransit? <==> b in transit))
  }

  /** Every buffer has its size, and those in the pool are wiped. */
  ghost predicate MemoryInv(w: World) {
    && w.memory.Keys == Buffers(w.n)
    && (forall b :: b in w.memory ==> |w.memory[b]| == w.size)
    && (forall b :: b in w.pool && b in w.memory ==> w.memory[b] == Zeros(w.size))
  }

  ghost predicate QueuesInv(w: World) {
    w.n >= 1 && |w.queues| == QUEUES && forall qi :: 0 <= qi < QUEUES ==> Inv(w.n, w.queues[qi])
  }

  ghost predicate WorldInv(w: World) {
    QueuesInv(w) && Books(w, {}) && MemoryInv(w)
  }

  lemma InitInv(n: nat, size: nat)
    requires n >= 1
    ensures WorldInv(Init(n, size))
  {
    hide Inv, Booked;
    FreshInv(n);
    InitPool(n, size);
    InitQueues(n, size);
  }

  lemma InitQueues(n: nat, size: nat)
    ensures forall qi: nat :: qi < QUEUES ==> Booked(Init(n, size).ledger, qi, Init(n, size).queues[qi])
  {
    assert forall g: nat :: !Fresh().Holds(g);
  }

  lemma InitPool(n: nat, size: nat)
    ensures PoolBooked(Init(n, size).pool, Init(n, size).ledger)
  {
    var w := Init(n, size);
    assert forall b: nat :: b < n ==> w.pool[b] == b;
    forall b ensures b in w.pool <==> b in w.ledger {
      if b in w.ledger {
        assert w.pool[b] == b;
      }
    }
  }

  // ----------------------------------------------------------- keeping books

  lemma PoolBelow(w: World, transit: set<nat>, extra: nat)
    requires Books(w, transit) && extra < w.n && extra !in w.pool
    ensures |w.pool| < w.n
  {
    assert forall i :: 0 <= i < |w.pool| ==> w.pool[i] in w.pool;
    RoomForOneMore(w.pool, extra, w.n);
  }

  /** A caller with a buffer in hand always finds room in every queue. */
  lemma QueueHasRoom(w: World, qi: nat, b: nat)
    requires Books(w, {}) && qi < QUEUES && b in w.callers
    ensures w.queues[qi].Len() < w.n
  {
    var q := w.queues[qi];
    var s := seq(q.Len(), i requires 0 <= i < q.Len() => q.frames[q.ended + i].buffer) + [b];
    forall i | 0 <= i < q.Len() ensures s[i] in w.ledger && w.ledger[s[i]] == ByQueue(qi, q.ended + i) {
      assert q.Holds(q.ended + i);
    }
    assert Distinct(s);
    Pigeonhole(s, w.n);
  }

  /** Rebooking a buffer that is not booked to `qi`, before or after. */
  lemma RebookElsewhere(ledger: map<nat, Owner>, qi: nat, q: Fifo, b: nat, o: Owner)
    requires Booked(ledger, qi, q) && b in ledger
    requires ledger[b].ByQueue? ==> ledger[b].queue != qi
    requires o.ByQueue? ==> o.queue != qi
    ensures Booked(ledger[b := o], qi, q)
  {
  }

  /** Whoever held `b` but no queue gives it up. */
  lemma TakeOut(w: World, pool: seq<nat>, callers: set<nat>, b: nat)
    requires Books(w, {}) && b in w.ledger && !w.ledger[b].ByQueue?
    requires Distinct(pool) && forall x :: x in pool <==> x in w.pool && x != b
    requires forall x :: x in callers <==> x in w.callers && x != b
    ensures Books(w.(pool := pool, callers := callers, ledger := w.ledger[b := InTransit]), {b})
  {
    hide Booked;
    var ledger := w.ledger[b := InTransit];
    forall qi: nat | qi < QUEUES ensures Booked(ledger, qi, w.queues[qi]) {
      RebookElsewhere(w.ledger, qi, w.queues[qi], b, InTransit);
    }
    assert ledger.Keys == w.ledger.Keys;
  }

  /** The one buffer in transit is booked to the pool or a caller. */
  lemma PutIn(w: World, pool: seq<nat>, callers: set<nat>, b: nat, o: Owner)
    requires Books(w, {b}) && b in w.ledger && (o.ByPool? || o.ByCaller?)
    requires PoolBooked(pool, w.ledger[b := o]) && CallersBooked(callers, w.ledger[b := o])
    ensures Books(w.(pool := pool, callers := callers, ledger := w.ledger[b := o]), {})
  {
    hide Booked, PoolBooked, CallersBooked;
    var ledger := w.ledger[b := o];
    forall qi: nat | qi < QUEUES ensures Booked(ledger, qi, w.queues[qi]) {
      RebookElsewhere(w.ledger, qi, w.queues[qi], b, o);
    }
    assert ledger.Keys == w.ledger.Keys;
  }

  lemma IntoPool(w: World, b: nat)
    requires Books(w, {b}) && b in w.ledger
    ensures Books(w.(pool := w.pool + [b], ledger := w.ledger[b := ByPool]), {})
  {
    hide Booked;
    var pool := w.pool + [b];
    assert Distinct(pool) && forall x :: x in pool <==> x in w.pool || x == b;
    PutIn(w, pool, w.callers, b, ByPool);
  }

  lemma IntoCallers(w: World, b: nat)
    requires Books(w, {b}) && b in w.ledger
    ensures Books(w.(callers := w.callers + {b}, ledger := w.ledger[b := ByCaller]), {})
  {
    hide Booked;
    PutIn(w, w.pool, w.callers + {b}, b, ByCaller);
  }

  /** Queue `qi` lets go of the buffer of its frame `g`. */
  lemma LetGo(w: World, qi: nat, q': Fifo, g: nat)
    requires Books(w, {}) && qi < QUEUES
    requires q'.frames == w.queues[qi].frames && w.queues[qi].Holds(g)
    requires forall h: nat :: q'.Holds(h) <==> w.queues[qi].Holds(h) && h != g
    ensures g < |q'.frames| && q'.frames[g].buffer in w.ledger
    ensures var b := q'.frames[g].buffer;
            && w.ledger[b] == ByQueue(qi, g)
            && Books(w.(queues := w.queues[qi := q'], ledger := w.ledger[b := InTransit]), {b})
  {
    hide Booked;
    var q := w.queues[qi];
    LetGoBooked(w.ledger, qi, q, q', g);
    var b := q.frames[g].buffer;
    var ledger := w.ledger[b := InTransit];
    forall qj: nat | qj < QUEUES && qj != qi ensures Booked(ledger, qj, w.queues[qj]) {
      RebookElsewhere(w.ledger, qj, w.queues[qj], b, InTransit);
    }
    assert ledger.Keys == w.ledger.Keys;
  }

  lemma LetGoBooked(ledger: map<nat, Owner>, qi: nat, q: Fifo, q': Fifo, g: nat)
    requires Booked(ledger, qi, q) && q'.frames == q.frames && q.Holds(g)
    requires forall h: nat :: q'.Holds(h) <==> q.Holds(h) && h != g
    ensures g < |q.frames| && q.frames[g].buffer in ledger && ledger[q.frames[g].buffer] == ByQueue(qi, g)
    ensures Booked(ledger[q.frames[g].buffer := InTransit], qi, q')
  {
    var ledger' := ledger[q.frames[g].buffer := InTransit];
    forall h: nat | q'.Holds(h)
      ensures h < |q.frames| && q.frames[h].buffer in ledger' && ledger'[q.frames[h].buffer] == ByQueue(qi, h)
    {
      assert q.Holds(h);
    }
  }

  /** Queue `qi` changes without taking or giving a buffer. */
  lemma SameHoldings(w: World, qi: nat, q': Fifo)
    requires Books(w, {}) && qi < QUEUES && q'.frames == w.queues[qi].frames
    requires forall g: nat :: q'.Holds(g) <==> w.queues[qi].Holds(g)
    ensures Books(w.(queues := w.queues[qi := q']), {})
  {
    assert Booked(w.ledger, qi, w.queues[qi]);
    assert Booked(w.ledger, qi, q');
  }

  /** Queue `qi` takes the buffer in transit with a new frame. */
  lemma TakeIn(w: World, qi: nat, q': Fifo, frame: Frame)
    requires Books(w, {frame.buffer}) && frame.buffer in w.ledger && qi < QUEUES
    requires q'.frames == w.queues[qi].frames + [frame]
    requires forall h: nat :: q'.Holds(h) <==> w.queues[qi].Holds(h) || h == |w.queues[qi].frames|
    ensures Books(w.(queues := w.queues[qi := q'],
                     ledger := w.ledger[frame.buffer := ByQueue(qi, |w.queues[qi].frames|)]), {})
  {
    hide Booked;
    var q := w.queues[qi];
    var o := ByQueue(qi, |q.frames|);
    var ledger := w.ledger[frame.buffer := o];
    TakeInBooked(w.ledger, qi, q, q', frame);
    forall qj: nat | qj < QUEUES && qj != qi ensures Booked(ledger, qj, w.queues[qj]) {
      RebookElsewhere(w.ledger, qj, w.queues[qj], frame.buffer, o);
    }
    assert ledger.Keys == w.ledger.Keys;
  }

  lemma TakeInBooked(ledger: map<nat, Owner>, qi: nat, q: Fifo, q': Fifo, frame: Frame)
    requires Booked(ledger, qi, q) && q'.frames == q.frames + [frame]
    requires frame.buffer in ledger && !ledger[frame.buffer].ByQueue?
    requires forall h: nat :: q'.Holds(h) <==> q.Holds(h) || h == |q.frames|
    ensures Booked(ledger[frame.buffer := ByQueue(qi, |q.frames|)], qi, q')
  {
    var ledger' := ledger[frame.buffer := ByQueue(qi, |q.frames|)];
    forall h: nat | q'.Holds(h)
      ensures h < |q'.frames| && q'.frames[h].buffer in ledger' && ledger'[q'.frames[h].buffer] == ByQueue(qi, h)
    {
      if h != |q.frames| {
        assert q.Holds(h) && q'.frames[h] == q.frames[h];
      }
    }
  }

  // --------------------------------------- what one queue takes and gives up

  lemma EnqueueHolds(n: nat, q: Fifo, f: Frame)
    requires Inv(n, q)
    ensures var kept := q.(frames := q.frames + [f]);
            var q' := Spec.Enqueue(n, q, f);
            && (forall h: nat :: kept.Holds(h) <==> q.Holds(h) || h == |q.frames|)
            && (Displaced(n, q).None? ==> forall h: nat :: q'.Holds(h) <==> kept.Holds(h))
            && (Displaced(n, q).Some? ==>
                  var d: nat := |q.frames| - n;
                  && kept.Holds(d) && kept.frames[d].buffer == Displaced(n, q).value
                  && forall h: nat :: q'.Holds(h) <==> kept.Holds(h) && h != d)
  {
  }

  lemma FinishHolds(n: nat, q: Fifo, outcome: Option<TxResult>)
    requires Inv(n, q) && q.runner.Transmitting?
    ensures var q' := Spec.Finish(q, outcome);
            && q.Holds(q.ended) && q.frames[q.ended] == q.runner.frame
            && (FinishReleases(q, outcome) ==> forall h: nat :: q'.Holds(h) <==> q.Holds(h) && h != q.ended)
            && (!FinishReleases(q, outcome) ==> forall h: nat :: q'.Holds(h) <==> q.Holds(h))
  {
  }

  lemma PollHolds(n: nat, q: Fifo, g: nat)
    requires Inv(n, q) && g in q.live
    ensures var q' := PollHandle(n, q, g);
            match PollAnswer(n, q, g)
            case Done(Some(c)) =>
              && q.Holds(g) && c.buffer == q.frames[g].buffer
              && forall h: nat :: q'.Holds(h) <==> q.Holds(h) && h != g
            case _ => forall h: nat :: q'.Holds(h) <==> q.Holds(h)
  {
  }

  lemma DropHolds(n: nat, q: Fifo, g: nat)
    requires Inv(n, q) && g in q.live
    ensures var q' := DropHandle(n, q, g);
            if g in q.unclaimed then
              && q.Holds(g) && q.unclaimed[g].buffer == q.frames[g].buffer
              && forall h: nat :: q'.Holds(h) <==> q.Holds(h) && h != g
            else forall h: nat :: q'.Holds(h) <==> q.Holds(h)
  {
  }

  lemma SetRunnerInv(n: nat, q: Fifo, r: Runner)
    requires Inv(n, q) && (r.Stopped? || r.Scheduled?)
    ensures Inv(n, q.(runner := r))
    ensures forall h: nat :: q.(runner := r).Holds(h) <==> q.Holds(h)
  {
  }

  // ------------------------------------------------------------ step by step

  /** Dropping the buffer in transit: it is wiped, and the channel takes it. */
  lemma ReleaseSound(w: World, b: nat)
    requires Books(w.(ledger := w.ledger[b := InTransit]), {b}) && MemoryInv(w)
    ensures Books(Release(w, b), {}) && MemoryInv(Release(w, b))
    ensures Release(w, b).pool == w.pool + [b]
  {
    var u := w.(ledger := w.ledger[b := InTransit]);
    TransitKnown(u, b);
    hide Books;
    PoolBelow(u, {b}, b);
    assert u.ledger[b := ByPool] == w.ledger[b := ByPool];
    IntoPool(u, b);
    BooksIgnoreMemory(u.(pool := w.pool + [b], ledger := u.ledger[b := ByPool]), Release(w, b));
    MemoryWipe(w, b);
  }

  lemma TransitKnown(w: World, b: nat)
    requires Books(w, {b}) && b in w.ledger
    ensures b < w.n && b !in w.pool
  {
    hide Booked;
  }

  lemma BooksIgnoreMemory(w: World, w': World)
    requires Books(w, {}) && w' == w.(memory := w'.memory)
    ensures Books(w', {})
  {
    hide Booked, PoolBooked, CallersBooked;
  }

  lemma MemoryWipe(w: World, b: nat)
    requires MemoryInv(w) && b < w.n && |w.pool| < w.n
    ensures MemoryInv(Release(w, b))
  {
    assert Release(w, b).memory.Keys == w.memory.Keys;
  }

  lemma ToCallerSound(w: World, b: nat)
    requires Books(w.(ledger := w.ledger[b := InTransit]), {b})
    ensures Books(ToCaller(w, b), {})
  {
    hide Books;
    var u := w.(ledger := w.ledger[b := InTransit]);
    assert u.ledger[b := ByCaller] == w.ledger[b := ByCaller];
    IntoCallers(u, b);
    assert ToCaller(w, b) == u.(callers := w.callers + {b}, ledger := u.ledger[b := ByCaller]);
  }

  lemma AllocStep(w: World)
    requires WorldInv(w) && Enabled(w, Alloc)
    ensures WorldInv(Apply(w, Alloc))
  {
    hide Booked, Inv;
    var b := w.pool[0];
    var rest := w.pool[1..];
    assert forall x :: x in w.pool <==> x == b || x in rest;
    TakeOut(w, rest, w.callers, b);
    ToCallerSound(w.(pool := rest), b);
  }

  lemma DiscardStep(w: World, b: nat)
    requires WorldInv(w) && Enabled(w, Discard(b))
    ensures WorldInv(Apply(w, Discard(b)))
  {
    hide Booked, Inv;
    TakeOut(w, w.pool, w.callers - {b}, b);
    ReleaseSound(w.(callers := w.callers - {b}), b);
  }

  lemma QueueReplaced(w: World, w': World, qi: nat, q': Fifo)
    requires QueuesInv(w) && qi < QUEUES && Inv(w.n, q')
    requires w'.n == w.n && w'.queues == w.queues[qi := q']
    ensures QueuesInv(w')
  {
    hide Inv;
  }

  lemma SubmitBooks(w: World, qi: nat, f: Frame) returns (w1: World)
    requires Books(w, {}) && qi < QUEUES && f.buffer in w.callers
    ensures var q := w.queues[qi];
            w1 == w.(callers := w.callers - {f.buffer},
                     ledger := w.ledger[f.buffer := ByQueue(qi, |q.frames|)],
                     queues := w.queues[qi := q.(frames := q.frames + [f])])
    requires forall h: nat :: w.queues[qi].(frames := w.queues[qi].frames + [f]).Holds(h)
                              <==> w.queues[qi].Holds(h) || h == |w.queues[qi].frames|
    ensures Books(w1, {})
  {
    hide Booked;
    var q := w.queues[qi];
    var b := f.buffer;
    TakeOut(w, w.pool, w.callers - {b}, b);
    var u := w.(callers := w.callers - {b}, ledger := w.ledger[b := InTransit]);
    var kept := q.(frames := q.frames + [f]);
    var o := ByQueue(qi, |q.frames|);
    TakeIn(u, qi, kept, f);
    assert u.ledger[b := o] == w.ledger[b := o];
    w1 := u.(queues := w.queues[qi := kept], ledger := w.ledger[b := o]);
  }

  lemma SubmitStep(w: World, qi: nat, f: Frame)
    requires WorldInv(w) && Enabled(w, Submit(qi, f))
    ensures WorldInv(Apply(w, Submit(qi, f)))
  {
    hide Inv, Books;
    var q := w.queues[qi];
    QueueHasRoom(w, qi, f.buffer);
    EnqueueInv(w.n, q, f);
    EnqueueHolds(w.n, q, f);
    var w1 := SubmitBooks(w, qi, f);
    var q' := Spec.Enqueue(w.n, q, f);
    var w2 := w1.(queues := w.queues[qi := q']);
    assert w2.queues == w1.queues[qi := q'];
    match Displaced(w.n, q)
    case None =>
      SameHoldings(w1, qi, q');
      QueueReplaced(w, w2, qi, q');
    case Some(d) =>
      LetGo(w1, qi, q', |q.frames| - w.n);
      ReleaseSound(w2, d);
      QueueReplaced(w, Release(w2, d), qi, q');
  }

  lemma FinishStep(w: World, qi: nat, outcome: Option<TxResult>, memory: map<nat, seq<Byte>>)
    requires WorldInv(w) && qi < QUEUES && w.queues[qi].runner.Transmitting?
    requires MemoryInv(w.(memory := memory))
    ensures var q := w.queues[qi];
            var w' := w.(memory := memory, queues := w.queues[qi := Spec.Finish(q, outcome)]);
            WorldInv(if FinishReleases(q, outcome) then Release(w', q.runner.frame.buffer) else w')
  {
    hide Inv, Booked, PoolBooked, CallersBooked;
    var q := w.queues[qi];
    var q' := Spec.Finish(q, outcome);
    FinishInv(w.n, q, outcome);
    FinishHolds(w.n, q, outcome);
    var w' := w.(memory := memory, queues := w.queues[qi := q']);
    if FinishReleases(q, outcome) {
      var b := q.runner.frame.buffer;
      LetGo(w, qi, q', q.ended);
      ReleaseSound(w', b);
      QueueReplaced(w, Release(w', b), qi, q');
    } else {
      SameHoldings(w, qi, q');
      QueueReplaced(w, w', qi, q');
    }
  }

  lemma RadioDoneStep(w: World, qi: nat, result: TxResult, content: seq<Byte>)
    requires WorldInv(w) && Enabled(w, RadioDone(qi, result, content))
    ensures WorldInv(Apply(w, RadioDone(qi, result, content)))
  {
    hide QueuesInv, CallersBooked;
    var q := w.queues[qi];
    var b := q.runner.frame.buffer;
    InFlightIsHeld(w, qi);
    var memory := w.memory[b := content];
    assert memory.Keys == w.memory.Keys;
    FinishStep(w, qi, Some(result), memory);
  }

  lemma InFlightIsHeld(w: World, qi: nat)
    requires WorldInv(w) && qi < QUEUES && w.queues[qi].runner.Transmitting?
    ensures var b := w.queues[qi].runner.frame.buffer;
            b in w.ledger && w.ledger[b] == ByQueue(qi, w.queues[qi].ended)
  {
    var q := w.queues[qi];
    assert q.Holds(q.ended) && Booked(w.ledger, qi, q);
  }

  lemma PollCompletionStep(w: World, qi: nat, g: nat)
    requires WorldInv(w) && Enabled(w, PollCompletion(qi, g))
    ensures WorldInv(Apply(w, PollCompletion(qi, g)))
  {
    hide Inv, Books;
    var q := w.queues[qi];
    var q' := PollHandle(w.n, q, g);
    PollHandleInv(w.n, q, g);
    PollHolds(w.n, q, g);
    QueueReplaced(w, Apply(w, PollCompletion(qi, g)), qi, q');
    match PollAnswer(w.n, q, g)
    case Done(Some(c)) =>
      LetGo(w, qi, q', g);
      ToCallerSound(w.(queues := w.queues[qi := q']), c.buffer);
    case _ => SameHoldings(w, qi, q');
  }

  lemma DropPendingStep(w: World, qi: nat, g: nat)
    requires WorldInv(w) && Enabled(w, DropPending(qi, g))
    ensures WorldInv(Apply(w, DropPending(qi, g)))
  {
    hide Inv, Books;
    var q := w.queues[qi];
    var q' := DropHandle(w.n, q, g);
    DropHandleInv(w.n, q, g);
    DropHolds(w.n, q, g);
    QueueReplaced(w, Apply(w, DropPending(qi, g)), qi, q');
    if g in q.unclaimed {
      LetGo(w, qi, q', g);
      ReleaseSound(w.(queues := w.queues[qi := q']), q.unclaimed[g].buffer);
    } else {
      SameHoldings(w, qi, q');
    }
  }

  lemma RunnerStep(w: World, qi: nat, q': Fifo)
    requires WorldInv(w) && qi < QUEUES
    requires (w.queues[qi].runner.Scheduled? && q' == RunnerPoll(w.queues[qi]))
             || q' == w.queues[qi].(runner := Scheduled) || q' == w.queues[qi].(runner := Stopped)
    ensures WorldInv(w.(queues := w.queues[qi := q']))
  {
    hide Inv, Books;
    var q := w.queues[qi];
    RunnerPollInv(w.n, q);
    SetRunnerInv(w.n, q, Stopped);
    SetRunnerInv(w.n, q, Scheduled);
    QueueReplaced(w, w.(queues := w.queues[qi := q']), qi, q');
    SameHoldings(w, qi, q');
  }

  lemma WriteStep(w: World, b: nat, content: seq<Byte>)
    requires WorldInv(w) && Enabled(w, Write(b, content))
    ensures WorldInv(Apply(w, Write(b, content)))
  {
    hide Inv, Booked;
    assert b in w.ledger;
    assert w.memory[b := content].Keys == w.memory.Keys;
  }

  /** Every step of every component keeps the invariant. */
  lemma StepInv(w: World, e: Event)
    requires WorldInv(w) && Enabled(w, e)
    ensures WorldInv(Apply(w, e))
  {
    hide Inv, Books, MemoryInv;
    match e
    case Alloc => AllocStep(w);
    case Write(b, content) => WriteStep(w, b, content);
    case Discard(b) => DiscardStep(w, b);
    case Submit(qi, f) => SubmitStep(w, qi, f);
    case RadioDone(qi, result, content) => RadioDoneStep(w, qi, result, content);
    case AbortRunner(qi) =>
      if w.queues[qi].runner.Transmitting? {
        FinishStep(w, qi, None, w.memory);
      } else {
        RunnerStep(w, qi, w.queues[qi].(runner := Stopped));
      }
    case PollRunner(qi) => RunnerStep(w, qi, RunnerPoll(w.queues[qi]));
    case StartRunner(qi) => RunnerStep(w, qi, w.queues[qi].(runner := Scheduled));
    case PollCompletion(qi, g) => PollCompletionStep(w, qi, g);
    case DropPending(qi, g) => DropPendingStep(w, qi, g);
  }

  /** What an event does to queue `qi` alone. */
  function Local(n: nat, qi: nat, q: Fifo, e: Event): Fifo
    requires LocallyEnabled(qi, q, e)
  {
    match e
    case Submit(k, f) => if k == qi then Spec.Enqueue(n, q, f) else q
    case PollRunner(k) => if k == qi then RunnerPoll(q) else q
    case RadioDone(k, result, _) => if k == qi then Spec.Finish(q, Some(result)) else q
    case AbortRunner(k) =>
      if k != qi then q
      else if q.runner.Transmitting? then Spec.Finish(q, None) else q.(runner := Stopped)
    case StartRunner(k) => if k == qi then q.(runner := Scheduled) else q
    case PollCompletion(k, g) => if k == qi then PollHandle(n, q, g) else q
    case DropPending(k, g) => if k == qi then DropHandle(n, q, g) else q
    case _ => q
  }

  predicate LocallyEnabled(qi: nat, q: Fifo, e: Event) {
    match e
    case PollRunner(k) => k == qi ==> q.runner.Scheduled?
    case RadioDone(k, _, _) => k == qi ==> q.runner.Transmitting?
    case AbortRunner(k) => k == qi ==> !q.runner.Stopped?
    case StartRunner(k) => k == qi ==> q.runner.Stopped?
    case PollCompletion(k, g) => k == qi ==> g in q.live
    case DropPending(k, g) => k == qi ==> g in q.live
    case _ => true
  }

  lemma ApplyIsLocal(w: World, e: Event, qi: nat)
    requires Enabled(w, e) && qi < |w.queues|
    ensures |Apply(w, e).queues| == |w.queues| && LocallyEnabled(qi, w.queues[qi], e)
    ensures Apply(w, e).queues[qi] == Local(w.n, qi, w.queues[qi], e)
  {
    hide Spec.Enqueue, Spec.Finish, RunnerPoll, PollHandle, DropHandle;
  }

  /** The invariant holds in every state of every run. */
  lemma {:induction false} RunInv(n: nat, size: nat, ws: seq<World>, es: seq<Event>, i: nat)
    requires n >= 1 && IsRun(n, size, ws, es) && i < |ws|
    ensures WorldInv(ws[i]) && ws[i].n == n && ws[i].size == size
  {
    hide WorldInv;
    if i == 0 {
      InitInv(n, size);
    } else {
      RunInv(n, size, ws, es, i - 1);
      StepInv(ws[i - 1], es[i - 1]);
      assert ws[i] == Apply(ws[i - 1], es[i - 1]);
    }
  }
}
