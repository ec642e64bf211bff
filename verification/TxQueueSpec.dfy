/** What one EDCA transmit queue means, without its ring.

    A queue is the list of all frames ever given to it, indexed by generation,
    and a mark that says how many of them the runner has dealt with. Slots,
    residues and the capacity count appear only in the class `TxQueue`, which
    is proved to implement the operations defined here.
 */
module TxQueueSpec {
  import opened Basics

  datatype TxResult = Ok(retries: nat) | Err(code: nat)

  /** Identity given to a frame by the diagnostic recorder. */
  datatype Tag = Tag(ordinal: nat, slot: nat)

  /** The pairwise key (numbered by installation) and packet number under
      which a protected frame was built. */
  datatype Seal = Seal(key: nat, packetNumber: nat)

  datatype Frame = Frame(buffer: nat, length: nat, tag: Option<Tag>, seal: Option<Seal>)

  /** What the radio hands back: its result and the frame's own buffer. */
  datatype Completion = Completion(result: TxResult, buffer: nat, length: nat)

  /** The runner's future: absent, about to be polled, waiting for the first
      frame of an empty queue, or holding a frame and awaiting the radio. */
  datatype Runner = Stopped | Scheduled | Parked | Transmitting(frame: Frame)

  datatype Claim = Claim(generation: nat, completion: Completion)

  /** `ended` generations have left the queue; the rest of `frames` is in it.
      `unclaimed` are completions kept for their caller, `live` the handles
      not yet dropped, `waiting` those whose future is parked on a waker.
      `results` and `claims` only record what happened. */
  datatype Fifo = Fifo(
    frames: seq<Frame>,
    ended: nat,
    runner: Runner,
    runnerWaker: bool,
    unclaimed: map<nat, Completion>,
    live: set<nat>,
    waiting: set<nat>,
    results: map<nat, TxResult>,
    claims: seq<Claim>
  ) {
    function Len(): nat { if ended <= |frames| then |frames| - ended else 0 }

    /** Frame `g` is still owned by the queue, waiting or in flight. */
    predicate Queued(g: nat) { ended <= g < |frames| }

    /** The queue still owns the buffer of frame `g`. */
    predicate Holds(g: nat) { Queued(g) || g in unclaimed }

    predicate InFlight(g: nat) { runner.Transmitting? && g == ended }
  }

  function Fresh(): Fifo {
    Fifo([], 0, Stopped, false, map[], {}, {}, map[], [])
  }

  /** More than `n` frames have been queued from `g` on, so its slot is gone. */
  predicate Stale(n: nat, q: Fifo, g: nat) { |q.frames| > g + n }

  function Enqueue(n: nat, q: Fifo, frame: Frame): Fifo {
    var g := |q.frames|;
    var edge := q.Len() == 0;
    q.(frames := q.frames + [frame],
       unclaimed := if g >= n then q.unclaimed - {g - n} else q.unclaimed,
       live := q.live + {g},
       runner := if edge && q.runnerWaker && q.runner.Parked? then Scheduled else q.runner,
       runnerWaker := q.runnerWaker && !edge)
  }

  /** The buffer dropped because the new frame takes the place of a completion. */
  function Displaced(n: nat, q: Fifo): Option<nat> {
    var g := |q.frames|;
    if g >= n && g - n in q.unclaimed then Some(q.unclaimed[g - n].buffer) else None
  }

  /** The runner looks at the queue: it parks, or takes the oldest frame. */
  function RunnerPoll(q: Fifo): Fifo {
    if q.Len() == 0 then q.(runner := Parked, runnerWaker := true)
    else q.(runner := Transmitting(q.frames[q.ended]))
  }

  /** The frame in flight leaves the queue, with a result or, when the runner
      was aborted, without one. */
  function Finish(q: Fifo, outcome: Option<TxResult>): Fifo
    requires q.runner.Transmitting?
  {
    var g := q.ended;
    var f := q.runner.frame;
    q.(ended := g + 1,
       runner := if outcome.Some? then Scheduled else Stopped,
       waiting := q.waiting - {g},
       unclaimed := if outcome.Some? && g in q.live
                    then q.unclaimed[g := Completion(outcome.value, f.buffer, f.length)]
                    else q.unclaimed,
       results := if outcome.Some? then q.results[g := outcome.value] else q.results)
  }

  /** A finished frame whose completion nobody will claim gives up its buffer. */
  predicate FinishReleases(q: Fifo, outcome: Option<TxResult>) {
    outcome.None? || q.ended !in q.live
  }

  datatype Poll = NotYet | Done(answer: Option<Completion>)

  function PollAnswer(n: nat, q: Fifo, g: nat): Poll {
    if Stale(n, q, g) then Done(None)
    else if g in q.unclaimed then Done(Some(q.unclaimed[g]))
    else if g < q.ended then Done(None)
    else NotYet
  }

  function PollHandle(n: nat, q: Fifo, g: nat): Fifo {
    match PollAnswer(n, q, g)
    case NotYet => q.(waiting := q.waiting + {g})
    case Done(None) => q
    case Done(Some(c)) => q.(unclaimed := q.unclaimed - {g}, claims := q.claims + [Claim(g, c)])
  }

  function DropHandle(n: nat, q: Fifo, g: nat): Fifo {
    var q' := q.(live := q.live - {g}, waiting := q.waiting - {g});
    if Stale(n, q, g) then q' else q'.(unclaimed := q.unclaimed - {g})
  }

  /** Completion `c` is the one of frame `g`: its result, buffer and length. */
  predicate Faithful(q: Fifo, g: nat, c: Completion) {
    && g < |q.frames| && g < q.ended && g in q.results
    && c == Completion(q.results[g], q.frames[g].buffer, q.frames[g].length)
  }

  /** The invariant of one queue with `n` slots. */
  ghost predicate Inv(n: nat, q: Fifo) {
    && n >= 1
    && q.ended <= |q.frames| <= q.ended + n
    && (q.runner.Transmitting? ==> q.Queued(q.ended) && q.runner.frame == q.frames[q.ended])
    && (q.runner.Parked? ==> q.ended == |q.frames| && q.runnerWaker)
    && (forall g :: g in q.live ==> g < |q.frames|)
    && (forall g :: g in q.waiting ==> g in q.live && q.Queued(g))
    && (forall g :: g in q.results ==> g < q.ended)
    && (forall g :: g in q.unclaimed ==>
         g in q.live && !Stale(n, q, g) && Faithful(q, g, q.unclaimed[g]))
    && (forall i :: 0 <= i < |q.claims| ==>
         var c := q.claims[i];
         c.generation !in q.unclaimed && Faithful(q, c.generation, c.completion))
    && (forall i, j :: 0 <= i < j < |q.claims| ==>
         q.claims[i].generation != q.claims[j].generation)
  }

  lemma FreshInv(n: nat)
    requires n >= 1
    ensures Inv(n, Fresh())
  {
  }

  lemma EnqueueInv(n: nat, q: Fifo, frame: Frame)
    requires Inv(n, q) && q.Len() < n
    ensures Inv(n, Enqueue(n, q, frame))
  {
    var q' := Enqueue(n, q, frame);
    assert forall g :: 0 <= g < |q.frames| ==> q'.frames[g] == q.frames[g];
    forall g | g in q'.unclaimed
      ensures !Stale(n, q', g) && Faithful(q', g, q'.unclaimed[g])
    {
      assert Faithful(q, g, q.unclaimed[g]);
    }
  }

  lemma RunnerPollInv(n: nat, q: Fifo)
    requires Inv(n, q)
    ensures Inv(n, RunnerPoll(q))
  {
  }

  lemma FinishInv(n: nat, q: Fifo, outcome: Option<TxResult>)
    requires Inv(n, q) && q.runner.Transmitting?
    ensures Inv(n, Finish(q, outcome))
  {
  }

  lemma PollHandleInv(n: nat, q: Fifo, g: nat)
    requires Inv(n, q) && g in q.live
    ensures Inv(n, PollHandle(n, q, g))
  {
  }

  lemma DropHandleInv(n: nat, q: Fifo, g: nat)
    requires Inv(n, q) && g in q.live
    ensures Inv(n, DropHandle(n, q, g))
  {
  }

  /** A handle whose slot has been reused can do nothing to the queue but
      disappear from the list of live handles. */
  lemma StaleHandleIsInert(n: nat, q: Fifo, g: nat)
    requires Inv(n, q) && g in q.live && Stale(n, q, g)
    ensures PollAnswer(n, q, g) == Done(None)
    ensures PollHandle(n, q, g) == q
    ensures DropHandle(n, q, g) == q.(live := q.live - {g})
  {
    assert q.waiting - {g} == q.waiting by {
      assert g !in q.waiting;
    }
  }
}
