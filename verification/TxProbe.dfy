/** The bounded transmission recorder, and its agreement with the queues. */
module TxProbe {
  import opened Basics
  import opened TxQueueSpec
  import opened TxSystem

  const U32_MAX: nat := 0xFFFF_FFFF

  datatype Phase = Accepted | PhaseQueued | Picked | Finished

  datatype Entry = Entry(
    tag: Tag, cycle: nat, sequence: nat, phase: Phase, completion: Option<TxResult>,
    acceptedAt: nat, queuedAt: Option<nat>, pickedAt: Option<nat>, finishedAt: Option<nat>)

  /** The records in use, the last identity given out and the three counters. */
  datatype Log = Log(entries: seq<Entry>, lastTag: nat, full: nat, exhausted: nat, invalid: nat)

  function SaturatingInc(x: nat): nat { if x < U32_MAX then x + 1 else x }

  function NewEntry(tag: Tag, cycle: nat, sequence: nat, at: nat): Entry {
    Entry(tag, cycle, sequence, Accepted, None, at, None, None, None)
  }

  function AcceptTag(cap: nat, log: Log, cycle: nat, sequence: nat): Option<Tag> {
    if cycle == 0 || !(1 <= sequence <= 20) || |log.entries| >= cap || log.lastTag >= U32_MAX then None
    else Some(Tag(log.lastTag + 1, |log.entries|))
  }

  function AcceptLog(cap: nat, log: Log, cycle: nat, sequence: nat, at: nat): Log {
    if cycle == 0 || !(1 <= sequence <= 20) then log.(invalid := SaturatingInc(log.invalid))
    else if |log.entries| >= cap then log.(full := SaturatingInc(log.full))
    else if log.lastTag >= U32_MAX then log.(exhausted := SaturatingInc(log.exhausted))
    else
      var tag := Tag(log.lastTag + 1, |log.entries|);
      log.(entries := log.entries + [NewEntry(tag, cycle, sequence, at)], lastTag := tag.ordinal)
  }

  function LastSeen(e: Entry): nat {
    if e.pickedAt.Some? then e.pickedAt.value
    else if e.queuedAt.Some? then e.queuedAt.value
    else e.acceptedAt
  }

  /** An event counts only for the right identity, in order and in time. */
  predicate Fits(log: Log, tag: Tag, phase: Phase, at: nat) {
    && tag.slot < |log.entries|
    && log.entries[tag.slot].tag == tag && log.entries[tag.slot].phase == phase
    && at >= LastSeen(log.entries[tag.slot])
  }

  datatype Boundary = AtQueue | AtPickup | AtFinish(result: TxResult)

  function Expects(b: Boundary): Phase {
    match b case AtQueue => Accepted case AtPickup => PhaseQueued case AtFinish(_) => Picked
  }

  function Advance(e: Entry, b: Boundary, at: nat): Entry {
    match b
    case AtQueue => e.(queuedAt := Some(at), phase := PhaseQueued)
    case AtPickup => e.(pickedAt := Some(at), phase := Picked)
    case AtFinish(result) => e.(finishedAt := Some(at), completion := Some(result), phase := Finished)
  }

  function Observe(log: Log, tag: Tag, b: Boundary, at: nat): Log {
    if Fits(log, tag, Expects(b), at)
    then log.(entries := log.entries[tag.slot := Advance(log.entries[tag.slot], b, at)])
    else log.(invalid := SaturatingInc(log.invalid))
  }

  // ----------------------------------------------------------- the recorder

  class Recorder {
    const entries: array<Entry>
    var used: nat
    var lastTag: nat
    var full: nat
    var exhausted: nat
    var invalid: nat

    ghost predicate Valid()
      reads this
    {
      used <= entries.Length
    }

    ghost function View(): Log
      requires Valid()
      reads this, entries
    {
      Log(entries[..used], lastTag, full, exhausted, invalid)
    }

    constructor (cap: nat)
      ensures Valid() && fresh(entries) && entries.Length == cap
      ensures View() == Log([], 0, 0, 0, 0)
    {
      entries := new Entry[cap](_ => NewEntry(Tag(0, 0), 0, 0, 0));
      used, lastTag, full, exhausted, invalid := 0, 0, 0, 0, 0;
    }

    method Accept(cycle: nat, sequence: nat, at: nat) returns (tag: Option<Tag>)
      requires Valid()
      modifies this, entries
      ensures Valid()
      ensures tag == AcceptTag(entries.Length, old(View()), cycle, sequence)
      ensures View() == AcceptLog(entries.Length, old(View()), cycle, sequence, at)
    {
      if cycle == 0 || !(1 <= sequence <= 20) {
        invalid := SaturatingInc(invalid);
        return None;
      }
      if used == entries.Length {
        full := SaturatingInc(full);
        return None;
      }
      if lastTag >= U32_MAX {
        exhausted := SaturatingInc(exhausted);
        return None;
      }
      var t := Tag(lastTag + 1, used);
      entries[used] := NewEntry(t, cycle, sequence, at);
      used := used + 1;
      lastTag := t.ordinal;
      tag := Some(t);
    }

    method Index(tag: Tag, phase: Phase, at: nat) returns (index: Option<nat>)
      requires Valid()
      modifies this`invalid
      ensures Valid()
      ensures index == if Fits(old(View()), tag, phase, at) then Some(tag.slot) else None
      ensures invalid == if index.None? then SaturatingInc(old(invalid)) else old(invalid)
    {
      index := None;
      if tag.slot < used {
        var e := entries[tag.slot];
        if e.tag == tag && e.phase == phase && at >= LastSeen(e) {
          index := Some(tag.slot);
        }
      }
      if index.None? {
        invalid := SaturatingInc(invalid);
      }
    }

    /** `queued`, `picked` and `finished`. */
    method Record(tag: Tag, b: Boundary, at: nat)
      requires Valid()
      modifies this`invalid, entries
      ensures Valid()
      ensures View() == Observe(old(View()), tag, b, at)
    {
      var index := Index(tag, Expects(b), at);
      match index {
        case None =>
        case Some(i) => entries[i] := Advance(entries[i], b, at);
      }
    }
  }

  // ------------------------------------------- the recorder beside the queues

  /** A transmit side with its recorder and a clock. */
  datatype Probed = Probed(world: World, log: Log, now: nat)

  datatype ProbedEvent =
    | Tick(now: nat)
    | AcceptMsdu(cycle: nat, sequence: nat)
    | Tx(event: Event)

  /** What queue `qi` reports to the recorder. A dropped transmission reports nothing. */
  function Report(qi: nat, q: Fifo, e: Event): Option<(Tag, Boundary)>
    requires LocallyEnabled(qi, q, e)
  {
    match e
    case Submit(k, f) => if k == qi then Mark(f, AtQueue) else None
    case PollRunner(k) =>
      if k == qi && q.Len() > 0 then Mark(q.frames[q.ended], AtPickup) else None
    case RadioDone(k, result, _) => if k == qi then Mark(q.runner.frame, AtFinish(result)) else None
    case _ => None
  }

  function Mark(f: Frame, b: Boundary): Option<(Tag, Boundary)> {
    if f.tag.Some? then Some((f.tag.value, b)) else None
  }

  function Note(log: Log, report: Option<(Tag, Boundary)>, now: nat): Log {
    match report case None => log case Some((tag, b)) => Observe(log, tag, b, now)
  }

  function WorldReport(w: World, e: Event): Option<(Tag, Boundary)>
    requires Enabled(w, e)
  {
    match e
    case Submit(qi, _) => Report(qi, w.queues[qi], e)
    case PollRunner(qi) => Report(qi, w.queues[qi], e)
    case RadioDone(qi, _, _) => Report(qi, w.queues[qi], e)
    case _ => None
  }

  /** A caller tags a frame with an identity it was given and has not used. */
  predicate ProbedEnabled(p: Probed, e: ProbedEvent) {
    match e
    case Tick(now) => now >= p.now
    case AcceptMsdu(_, _) => true
    case Tx(ev) =>
      && Enabled(p.world, ev)
      && (ev.Submit? && ev.frame.tag.Some? ==> Fits(p.log, ev.frame.tag.value, Accepted, p.now))
  }

  function ProbedApply(cap: nat, p: Probed, e: ProbedEvent): Probed
    requires ProbedEnabled(p, e)
  {
    match e
    case Tick(now) => p.(now := now)
    case AcceptMsdu(cycle, sequence) => p.(log := AcceptLog(cap, p.log, cycle, sequence, p.now))
    case Tx(ev) =>
      Probed(Apply(p.world, ev), Note(p.log, WorldReport(p.world, ev), p.now), p.now)
  }

  predicate IsProbedRun(n: nat, size: nat, cap: nat, ps: seq<Probed>, es: seq<ProbedEvent>) {
    && |ps| == |es| + 1
    && ps[0] == Probed(Init(n, size), Log([], 0, 0, 0, 0), 0)
    && forall i :: 0 <= i < |es| ==> ProbedEnabled(ps[i], es[i]) && ps[i + 1] == ProbedApply(cap, ps[i], es[i])
  }

  /** What the record of frame `g` must say. */
  function PhaseOf(q: Fifo, g: nat): Phase {
    if g in q.results then Finished
    else if g < q.ended || q.InFlight(g) then Picked
    else PhaseQueued
  }

  function ResultOf(q: Fifo, g: nat): Option<TxResult> {
    if g in q.results then Some(q.results[g]) else None
  }

  ghost predicate Sane(log: Log, now: nat) {
    forall i :: 0 <= i < |log.entries| ==>
      && log.entries[i].tag.slot == i && log.entries[i].tag.ordinal <= log.lastTag
      && LastSeen(log.entries[i]) <= now
      && (log.entries[i].completion.Some? <==> log.entries[i].phase.Finished?)
  }

  ghost predicate Recorded(log: Log, q: Fifo, g: nat, tag: Tag) {
    && tag.slot < |log.entries| && log.entries[tag.slot].tag == tag
    && log.entries[tag.slot].phase == PhaseOf(q, g)
    && log.entries[tag.slot].completion == ResultOf(q, g)
  }

  ghost predicate Agrees(log: Log, q: Fifo) {
    forall g :: 0 <= g < |q.frames| && q.frames[g].tag.Some? ==> Recorded(log, q, g, q.frames[g].tag.value)
  }

  predicate TaggedAs(w: World, qi: nat, g: nat, tag: Tag) {
    qi < |w.queues| && g < |w.queues[qi].frames| && w.queues[qi].frames[g].tag == Some(tag)
  }

  ghost predicate OneFramePerTag(w: World) {
    forall qi: nat, qj: nat, g: nat, h: nat, tag: Tag ::
      TaggedAs(w, qi, g, tag) && TaggedAs(w, qj, h, tag) ==> qi == qj && g == h
  }

  ghost predicate ProbedInv(p: Probed) {
    && WorldInv(p.world) && Sane(p.log, p.now) && OneFramePerTag(p.world)
    && forall qi :: 0 <= qi < QUEUES ==> Agrees(p.log, p.world.queues[qi])
  }

  /** An observation of `tag` leaves the record of every other tag alone. */
  lemma ObserveElsewhere(log: Log, q: Fifo, tag: Tag, b: Boundary, at: nat)
    requires Agrees(log, q) && (forall g :: 0 <= g < |q.frames| ==> q.frames[g].tag != Some(tag))
    ensures Agrees(Observe(log, tag, b, at), q)
  {
  }

  lemma ObserveSane(log: Log, tag: Tag, b: Boundary, now: nat)
    requires Sane(log, now)
    ensures Sane(Observe(log, tag, b, now), now)
  {
  }

  ghost predicate OwnTags(q: Fifo) {
    forall g, h :: 0 <= g < h < |q.frames| && q.frames[g].tag.Some? ==> q.frames[g].tag != q.frames[h].tag
  }

  lemma SubmitAgrees(n: nat, q: Fifo, f: Frame, log: Log, now: nat)
    requires Inv(n, q) && Sane(log, now) && Agrees(log, q) && (f.tag.Some? ==> Fits(log, f.tag.value, Accepted, now))
    ensures Agrees(Note(log, Mark(f, AtQueue), now), Enqueue(n, q, f))
  {
    var q' := Enqueue(n, q, f);
    assert forall g :: 0 <= g < |q.frames| ==> q'.frames[g] == q.frames[g];
    assert forall g: nat :: g < |q.frames| ==> PhaseOf(q', g) == PhaseOf(q, g) && ResultOf(q', g) == ResultOf(q, g);
  }

  lemma PickAgrees(n: nat, q: Fifo, log: Log, now: nat)
    requires Inv(n, q) && Agrees(log, q) && Sane(log, now) && OwnTags(q) && q.Len() > 0 && !q.runner.Transmitting?
    ensures var f := q.frames[q.ended];
            && (f.tag.Some? ==> Fits(log, f.tag.value, PhaseQueued, now))
            && Agrees(Note(log, Mark(f, AtPickup), now), RunnerPoll(q))
  {
    var q' := RunnerPoll(q);
    assert forall g: nat :: g != q.ended ==> PhaseOf(q', g) == PhaseOf(q, g);
    var f := q.frames[q.ended];
    if f.tag.Some? {
      assert Recorded(log, q, q.ended, f.tag.value);
    }
  }

  lemma FinishAgrees(n: nat, q: Fifo, outcome: Option<TxResult>, log: Log, now: nat)
    requires Inv(n, q) && Agrees(log, q) && Sane(log, now) && OwnTags(q) && q.runner.Transmitting?
    ensures var f := q.runner.frame;
            if outcome.Some? then
              && (f.tag.Some? ==> Fits(log, f.tag.value, Picked, now))
              && Agrees(Note(log, Mark(f, AtFinish(outcome.value)), now), Finish(q, outcome))
            else Agrees(log, Finish(q, outcome))
  {
    var q' := Finish(q, outcome);
    assert forall g: nat :: g != q.ended ==> PhaseOf(q', g) == PhaseOf(q, g) && ResultOf(q', g) == ResultOf(q, g);
    var f := q.runner.frame;
    if f.tag.Some? {
      assert Recorded(log, q, q.ended, f.tag.value);
    }
  }

  /** One queue's own step and what it reports keep its records right, and the
      recorder accepts every report. */
  lemma LocalAgrees(n: nat, qi: nat, q: Fifo, e: Event, log: Log, now: nat)
    requires Inv(n, q) && Sane(log, now) && Agrees(log, q) && OwnTags(q) && LocallyEnabled(qi, q, e)
    requires e.Submit? && e.frame.tag.Some? ==> Fits(log, e.frame.tag.value, Accepted, now)
    ensures var report := Report(qi, q, e);
            && (report.Some? ==> Fits(log, report.value.0, Expects(report.value.1), now))
            && Agrees(Note(log, report, now), Local(n, qi, q, e))
  {
    if e.Submit? && e.queue == qi {
      SubmitAgrees(n, q, e.frame, log, now);
    } else if e.PollRunner? && e.queue == qi && q.Len() > 0 {
      PickAgrees(n, q, log, now);
    } else if e.RadioDone? && e.queue == qi {
      FinishAgrees(n, q, Some(e.result), log, now);
    } else if e.AbortRunner? && e.queue == qi && q.runner.Transmitting? {
      FinishAgrees(n, q, None, log, now);
    } else {
      SilentAgrees(q, Local(n, qi, q, e), log);
    }
  }

  lemma SilentAgrees(q: Fifo, q': Fifo, log: Log)
    requires Agrees(log, q) && q'.frames == q.frames && q'.results == q.results && q'.ended == q.ended
    requires q'.runner.Transmitting? == q.runner.Transmitting?
    ensures Agrees(log, q')
  {
    assert forall g: nat :: PhaseOf(q', g) == PhaseOf(q, g) && ResultOf(q', g) == ResultOf(q, g);
  }

  lemma TagsApart(w: World, qi: nat)
    requires OneFramePerTag(w) && qi < |w.queues|
    ensures OwnTags(w.queues[qi])
  {
    var q := w.queues[qi];
    forall g, h | 0 <= g < h < |q.frames| && q.frames[g].tag.Some? ensures q.frames[g].tag != q.frames[h].tag {
      if q.frames[g].tag == q.frames[h].tag {
        assert TaggedAs(w, qi, g, q.frames[g].tag.value) && TaggedAs(w, qi, h, q.frames[g].tag.value);
      }
    }
  }

  /** The tag an event reports is carried by no frame of another queue. */
  lemma ReportedElsewhere(p: Probed, e: Event, qi: nat, g: nat)
    requires ProbedInv(p) && ProbedEnabled(p, Tx(e)) && qi < QUEUES && g < |p.world.queues[qi].frames|
    requires WorldReport(p.world, e).Some? && e.queue != qi
    ensures p.world.queues[qi].frames[g].tag != Some(WorldReport(p.world, e).value.0)
  {
    var tag := WorldReport(p.world, e).value.0;
    var q := p.world.queues[qi];
    assert Agrees(p.log, q) && Inv(p.world.n, p.world.queues[e.queue]);
    if q.frames[g].tag == Some(tag) {
      assert Recorded(p.log, q, g, tag) && TaggedAs(p.world, qi, g, tag);
      if !e.Submit? {
        assert TaggedAs(p.world, e.queue, p.world.queues[e.queue].ended, tag);
      }
    }
  }

  lemma StepOneFramePerTag(p: Probed, e: Event)
    requires ProbedInv(p) && ProbedEnabled(p, Tx(e))
    ensures OneFramePerTag(Apply(p.world, e))
  {
    hide Inv, Books, MemoryInv;
    var w, w' := p.world, Apply(p.world, e);
    forall qi: nat | qi < QUEUES
      ensures |w'.queues| == QUEUES && FramesGrow(w.queues[qi], w'.queues[qi], e, qi)
    {
      ApplyIsLocal(w, e, qi);
      hide Apply;
    }
    hide Apply;
    forall qi: nat, qj: nat, g: nat, h: nat, tag: Tag | TaggedAs(w', qi, g, tag) && TaggedAs(w', qj, h, tag)
      ensures qi == qj && g == h
    {
      OldTag(p, w', e, qi, g, tag);
      OldTag(p, w', e, qj, h, tag);
    }
  }

  predicate FramesGrow(q: Fifo, q': Fifo, e: Event, qi: nat) {
    q'.frames == if e.Submit? && e.queue == qi then q.frames + [e.frame] else q.frames
  }

  /** A tagged frame is either old, with a record past acceptance, or the new one. */
  lemma OldTag(p: Probed, w': World, e: Event, qi: nat, g: nat, tag: Tag)
    requires ProbedInv(p) && ProbedEnabled(p, Tx(e)) && |w'.queues| == QUEUES && qi < QUEUES
    requires FramesGrow(p.world.queues[qi], w'.queues[qi], e, qi) && TaggedAs(w', qi, g, tag)
    ensures if TaggedAs(p.world, qi, g, tag)
            then tag.slot < |p.log.entries| && !p.log.entries[tag.slot].phase.Accepted?
            else e.Submit? && e.queue == qi && g == |p.world.queues[qi].frames| && e.frame.tag == Some(tag)
                 && tag.slot < |p.log.entries| && p.log.entries[tag.slot].phase.Accepted?
  {
    hide Inv, Books, MemoryInv;
    var q := p.world.queues[qi];
    assert Agrees(p.log, q);
    if TaggedAs(p.world, qi, g, tag) {
      assert Recorded(p.log, q, g, tag);
    }
  }

  lemma TxStep(cap: nat, p: Probed, e: Event)
    requires ProbedInv(p) && ProbedEnabled(p, Tx(e))
    ensures ProbedInv(ProbedApply(cap, p, Tx(e)))
    ensures ProbedApply(cap, p, Tx(e)).log.invalid == p.log.invalid
  {
    var p' := ProbedApply(cap, p, Tx(e));
    var report := WorldReport(p.world, e);
    StepInv(p.world, e);
    StepOneFramePerTag(p, e);
    if report.Some? {
      ObserveSane(p.log, report.value.0, report.value.1, p.now);
    }
    ReportFits(p, e);
    forall qi: nat | qi < QUEUES ensures Agrees(p'.log, p'.world.queues[qi]) {
      TxAgrees(p, e, qi);
    }
  }

  lemma ReportFits(p: Probed, e: Event)
    requires ProbedInv(p) && ProbedEnabled(p, Tx(e))
    ensures var report := WorldReport(p.world, e);
            report.Some? ==> Fits(p.log, report.value.0, Expects(report.value.1), p.now)
  {
    if e.Submit? || e.PollRunner? || e.RadioDone? {
      TagsApart(p.world, e.queue);
      ApplyIsLocal(p.world, e, e.queue);
      hide Apply;
      LocalAgrees(p.world.n, e.queue, p.world.queues[e.queue], e, p.log, p.now);
    }
  }

  lemma TxAgrees(p: Probed, e: Event, qi: nat)
    requires ProbedInv(p) && ProbedEnabled(p, Tx(e)) && qi < QUEUES
    ensures |Apply(p.world, e).queues| == QUEUES
    ensures Agrees(Note(p.log, WorldReport(p.world, e), p.now), Apply(p.world, e).queues[qi])
  {
    var q := p.world.queues[qi];
    var report := WorldReport(p.world, e);
    ApplyIsLocal(p.world, e, qi);
    hide Apply;
    TagsApart(p.world, qi);
    LocalAgrees(p.world.n, qi, q, e, p.log, p.now);
    if report.Some? && e.queue != qi {
      forall g | 0 <= g < |q.frames| ensures q.frames[g].tag != Some(report.value.0) {
        ReportedElsewhere(p, e, qi, g);
      }
      ObserveElsewhere(p.log, q, report.value.0, report.value.1, p.now);
    }
  }

  lemma ProbedStep(cap: nat, p: Probed, e: ProbedEvent)
    requires ProbedInv(p) && ProbedEnabled(p, e)
    ensures ProbedInv(ProbedApply(cap, p, e))
    ensures e.Tx? ==> ProbedApply(cap, p, e).log.invalid == p.log.invalid
  {
    if e.Tx? {
      hide ProbedInv;
      TxStep(cap, p, e.event);
    } else {
      hide WorldInv;
    }
  }

  lemma InitProbed(n: nat, size: nat)
    requires n >= 1
    ensures ProbedInv(Probed(Init(n, size), Log([], 0, 0, 0, 0), 0))
  {
    InitInv(n, size);
    hide WorldInv;
  }

  /** In every run the recorder agrees with the queues: a waiting frame is
      Queued, a frame in flight is Picked, a finished one carries the radio's
      result, an aborted one stays Picked without a result; and the queues never
      make it count an invalid event. */
  lemma {:induction false} RecorderAgrees(n: nat, size: nat, cap: nat, ps: seq<Probed>, es: seq<ProbedEvent>, i: nat)
    requires n >= 1 && IsProbedRun(n, size, cap, ps, es) && i < |ps|
    ensures ProbedInv(ps[i])
    ensures i > 0 && es[i - 1].Tx? ==> ps[i].log.invalid == ps[i - 1].log.invalid
  {
    hide ProbedInv;
    if i == 0 {
      InitProbed(n, size);
    } else {
      RecorderAgrees(n, size, cap, ps, es, i - 1);
      ProbedStep(cap, ps[i - 1], es[i - 1]);
    }
  }

  // ---------------------------------------------------------- what is recorded

  /** An echo of a valid cycle and sequence gets the next identity and a record of
      its own while there is room; otherwise no record changes and exactly the
      counter that names the reason rises. */
  lemma AcceptRecords(cap: nat, log: Log, cycle: nat, sequence: nat, at: nat)
    requires |log.entries| <= cap
    ensures var tag, log' := AcceptTag(cap, log, cycle, sequence), AcceptLog(cap, log, cycle, sequence, at);
            var valid := cycle != 0 && 1 <= sequence <= 20;
            && (tag.Some? <==> valid && |log.entries| < cap && log.lastTag < U32_MAX)
            && (tag.Some? ==>
                  && tag.value.ordinal == log.lastTag + 1 == log'.lastTag && tag.value.slot == |log.entries|
                  && log'.entries[..|log.entries|] == log.entries && |log'.entries| == |log.entries| + 1
                  && (var e := log'.entries[|log.entries|];
                      && e.tag == tag.value && e.cycle == cycle && e.sequence == sequence && e.acceptedAt == at
                      && e.phase.Accepted? && e.completion.None?)
                  && log'.full == log.full && log'.exhausted == log.exhausted && log'.invalid == log.invalid)
            && (tag.None? ==>
                  && log'.entries == log.entries && log'.lastTag == log.lastTag
                  && log'.invalid == (if valid then log.invalid else SaturatingInc(log.invalid))
                  && log'.full == (if valid && |log.entries| == cap then SaturatingInc(log.full) else log.full)
                  && log'.exhausted
                     == (if valid && |log.entries| < cap then SaturatingInc(log.exhausted) else log.exhausted))
  {
  }

  /** A report for the right record, in order and in time, stamps its boundary with
      the time given and keeps every other stamp and every other record. */
  lemma ReportStamps(log: Log, tag: Tag, b: Boundary, at: nat)
    requires Fits(log, tag, Expects(b), at)
    ensures var log' := Observe(log, tag, b, at);
            && |log'.entries| == |log.entries| && log'.invalid == log.invalid
            && (forall i :: 0 <= i < |log.entries| && i != tag.slot ==> log'.entries[i] == log.entries[i])
            && var e, e' := log.entries[tag.slot], log'.entries[tag.slot];
               && e'.tag == tag && e'.cycle == e.cycle && e'.sequence == e.sequence && e'.acceptedAt == e.acceptedAt
               && e'.queuedAt == (if b.AtQueue? then Some(at) else e.queuedAt)
               && e'.pickedAt == (if b.AtPickup? then Some(at) else e.pickedAt)
               && e'.finishedAt == (if b.AtFinish? then Some(at) else e.finishedAt)
               && e'.completion == (match b case AtFinish(result) => Some(result) case _ => e.completion)
  {
  }

  /** A report for a record that is not there, of another identity, in another phase
      or with a time before the record's last stamp counts as invalid and changes
      nothing else; any other is taken. */
  lemma ReportRefused(log: Log, tag: Tag, b: Boundary, at: nat)
    ensures var known := tag.slot < |log.entries| && log.entries[tag.slot].tag == tag;
            var inOrder := known && match b
              case AtQueue => log.entries[tag.slot].phase.Accepted?
              case AtPickup => log.entries[tag.slot].phase.PhaseQueued?
              case AtFinish(_) => log.entries[tag.slot].phase.Picked?;
            var inTime := known && at >= match (log.entries[tag.slot].pickedAt, log.entries[tag.slot].queuedAt)
              case (Some(picked), _) => picked
              case (None, Some(queued)) => queued
              case (None, None) => log.entries[tag.slot].acceptedAt;
            if inOrder && inTime then Fits(log, tag, Expects(b), at)
            else Observe(log, tag, b, at) == log.(invalid := SaturatingInc(log.invalid))
  {
  }

  /** The stamps a phase has, in order, none after `now`. */
  predicate Stamped(e: Entry, now: nat) {
    match e.phase
    case Accepted => e.acceptedAt <= now && e.queuedAt.None? && e.pickedAt.None? && e.finishedAt.None?
    case PhaseQueued =>
      e.queuedAt.Some? && e.acceptedAt <= e.queuedAt.value <= now && e.pickedAt.None? && e.finishedAt.None?
    case Picked =>
      && e.queuedAt.Some? && e.pickedAt.Some? && e.finishedAt.None?
      && e.acceptedAt <= e.queuedAt.value <= e.pickedAt.value <= now
    case Finished =>
      && e.queuedAt.Some? && e.pickedAt.Some? && e.finishedAt.Some?
      && e.acceptedAt <= e.queuedAt.value <= e.pickedAt.value <= e.finishedAt.value <= now
  }

  ghost predicate AllStamped(log: Log, now: nat) {
    forall i :: 0 <= i < |log.entries| ==> Stamped(log.entries[i], now)
  }

  lemma StampedStep(cap: nat, p: Probed, e: ProbedEvent)
    requires ProbedEnabled(p, e) && AllStamped(p.log, p.now)
    ensures var p' := ProbedApply(cap, p, e); AllStamped(p'.log, p'.now)
  {
    if e.Tx? {
      hide Apply, Enabled, LocallyEnabled, WorldReport;
      NoteStamped(p.log, WorldReport(p.world, e.event), p.now);
    }
  }

  lemma NoteStamped(log: Log, report: Option<(Tag, Boundary)>, now: nat)
    requires AllStamped(log, now)
    ensures AllStamped(Note(log, report, now), now)
  {
  }

  /** In every run the stamps of a record are those of its phase, in order. */
  lemma {:induction false} StampsInOrder(n: nat, size: nat, cap: nat, ps: seq<Probed>, es: seq<ProbedEvent>, i: nat)
    requires IsProbedRun(n, size, cap, ps, es) && i < |ps|
    ensures AllStamped(ps[i].log, ps[i].now)
  {
    if i != 0 {
      hide ProbedApply, ProbedEnabled, AllStamped;
      StampsInOrder(n, size, cap, ps, es, i - 1);
      StampedStep(cap, ps[i - 1], es[i - 1]);
    }
  }
}
