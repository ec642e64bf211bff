/** Packet numbers from their draw to the air. Data frames and group-key replies
    draw the next number of the pairwise key and are queued in the same step;
    every other frame of the station carries none. */
module PacketOrder {
  import opened Basics
  import opened TxQueueSpec
  import opened TxSystem
  import opened TxTheorems
  import Rsn
  import Handshake

  /** `link` is the key state of the connection, if there is one, and `key`
      numbers the connections made so far. */
  datatype Station = Station(world: World, key: nat, link: Option<Rsn.Crypto>)

  /** The number the next protected frame gets. */
  function NextPn(s: Station): nat { if s.link.Some? then s.link.value.ptk.nextPn else 1 }

  /** `fits` says whether the frame and what protection adds fit the buffer. */
  datatype Action =
    | SendData(frame: Frame, fits: bool)                         // run_msdu_tx
    | SendReply(said: Handshake.Said, frame: Frame, fits: bool)  // send_eapol_key_frame
    | Process(event: Rsn.Event)                                  // a received frame
    | Connect(anonce: Rsn.Nonce, snonce: Rsn.Nonce, ptk: Rsn.Key, m3: Rsn.Message3)
    | Other(txEvent: Event)                                      // anything else on the transmit side

  /** The station's own frames use one queue. */
  const QUEUE: nat := 0

  /** `protect = !is_pairwise`: messages 2 and 4 stay clear. */
  predicate Protects(said: Handshake.Said) { said.SaidGroup2? }

  /** The action draws a packet number. */
  predicate Draws(s: Station, a: Action) {
    s.link.Some? && (a.SendData? || (a.SendReply? && Protects(a.said)))
  }

  /** The frame as it is queued. */
  function Sealed(s: Station, a: Action, f: Frame): Frame {
    f.(seal := if Draws(s, a) then Some(Seal(s.key, NextPn(s))) else None)
  }

  /** The event an action puts on the transmit side, if any. For a frame that
      does not fit, or a number beyond the CCMP range, the number is drawn and
      nothing is queued; a group reply without a connection is not built. */
  function EventOf(s: Station, a: Action): Option<Event> {
    match a
    case SendData(f, fits) =>
      if !fits || (Draws(s, a) && NextPn(s) > MAX_PN) then None else Some(Submit(QUEUE, Sealed(s, a, f)))
    case SendReply(said, f, fits) =>
      if Protects(said) && (!fits || s.link.None? || NextPn(s) > MAX_PN) then None
      else Some(Submit(QUEUE, Sealed(s, a, f)))
    case Other(e) => Some(e)
    case _ => None
  }

  predicate Allowed(s: Station, a: Action) {
    && (a.Other? ==> !(a.txEvent.Submit? && a.txEvent.frame.seal.Some?))
    && (a.Process? ==> s.link.Some? && Rsn.ShapeOk(s.link.value) && !a.event.Send?)
    && (a.Connect? ==> a.m3.gtkId < Rsn.GROUP_KEYS)
    && (EventOf(s, a).Some? ==> Enabled(s.world, EventOf(s, a).value))
  }

  /** The connection and its number after an action. */
  function LinkAfter(s: Station, a: Action): (nat, Option<Rsn.Crypto>)
    requires Allowed(s, a)
  {
    match a
    case Process(e) => (s.key, Some(Rsn.Step(s.link.value, e)))
    case Connect(anonce, snonce, ptk, m3) => (s.key + 1, Some(Rsn.NewCrypto(anonce, snonce, ptk, m3)))
    case _ => (s.key, if Draws(s, a) then Some(Rsn.DrawPn(s.link.value)) else s.link)
  }

  function Act(s: Station, a: Action): Station
    requires Allowed(s, a)
  {
    var world := match EventOf(s, a) case Some(e) => Apply(s.world, e) case None => s.world;
    Station(world, LinkAfter(s, a).0, LinkAfter(s, a).1)
  }

  predicate IsStationRun(n: nat, size: nat, ss: seq<Station>, acts: seq<Action>) {
    && |ss| == |acts| + 1
    && ss[0] == Station(Init(n, size), 0, None)
    && forall i :: 0 <= i < |acts| ==> Allowed(ss[i], acts[i]) && ss[i + 1] == Act(ss[i], acts[i])
  }

  /** Received frames do not move the transmit counter. */
  lemma ProcessKeepsPn(s: Rsn.Crypto, e: Rsn.Event)
    requires Rsn.ShapeOk(s) && !e.Send?
    ensures Rsn.Step(s, e).ptk.nextPn == s.ptk.nextPn
  {
  }

  /** A protected frame takes one number and carries it; a clear one, message 2
      or 4 among them, takes none and carries none. */
  lemma DrawIsCarried(s: Station, a: Action)
    requires Allowed(s, a) && !a.Connect?
    ensures Act(s, a).key == s.key
    ensures NextPn(Act(s, a)) == NextPn(s) + if Draws(s, a) then 1 else 0
    ensures EventOf(s, a).Some? && EventOf(s, a).value.Submit? ==>
              EventOf(s, a).value.frame.seal == if Draws(s, a) then Some(Seal(s.key, NextPn(s))) else None
    ensures a.SendReply? && !a.said.SaidGroup2? ==> Act(s, a).link == s.link
  {
    hide Apply, Enabled;
    if a.Process? {
      ProcessKeepsPn(s.link.value, a.event);
    }
  }

  /** Connected, every data frame and every group reply takes the next number. If
      it fits and the number is in range, that very frame is queued under it; if
      not, nothing is. */
  lemma ProtectedSend(s: Station, a: Action)
    requires Allowed(s, a) && s.link.Some? && (a.SendData? || (a.SendReply? && a.said.SaidGroup2?))
    ensures NextPn(Act(s, a)) == NextPn(s) + 1 && Act(s, a).key == s.key
    ensures EventOf(s, a)
            == if a.fits && NextPn(s) <= MAX_PN
               then Some(Submit(QUEUE, a.frame.(seal := Some(Seal(s.key, NextPn(s)))))) else None
  {
    hide Apply, Enabled;
  }

  /** Messages 2 and 4 are queued clear and leave the connection as it is, and so
      is data without a connection; a group reply without one is not sent. */
  lemma ClearSend(s: Station, a: Action)
    requires Allowed(s, a) && (a.SendReply? || (a.SendData? && a.fits))
    ensures (a.SendReply? && !a.said.SaidGroup2?) || (a.SendData? && s.link.None?) ==>
              && EventOf(s, a) == Some(Submit(QUEUE, a.frame.(seal := None)))
              && Act(s, a).link == s.link
    ensures a.SendReply? && a.said.SaidGroup2? && s.link.None? ==> Act(s, a) == s
  {
    hide Apply, Enabled;
  }

  /** Between connections the key state moves by the steps of `Rsn` only: one for
      each received frame, and a draw for each protected one sent. */
  lemma LinkFollowsRsn(s: Station, a: Action)
    requires Allowed(s, a) && s.link.Some? && Rsn.ShapeOk(s.link.value)
    ensures Act(s, a).link
            == match a
               case Process(e) => Some(Rsn.Step(s.link.value, e))
               case Connect(anonce, snonce, ptk, m3) => Some(Rsn.NewCrypto(anonce, snonce, ptk, m3))
               case SendData(_, _) => Some(Rsn.Step(s.link.value, Rsn.Send))
               case SendReply(SaidGroup2(_), _, _) => Some(Rsn.Step(s.link.value, Rsn.Send))
               case _ => s.link
  {
    hide Apply, Enabled;
  }

  /** A station with a buffer in hand may always send. */
  lemma SendAllowed(s: Station, f: Frame, fits: bool, said: Handshake.Said)
    requires QUEUE < |s.world.queues| && |s.world.queues[QUEUE].frames| < U64_MAX && f.buffer in s.world.callers
    ensures Allowed(s, SendData(f, fits)) && Allowed(s, SendReply(said, f, fits))
  {
  }

  /** How many protected frames were built since the last connection. */
  function DrawnSince(ss: seq<Station>, acts: seq<Action>, i: nat): nat
    requires i <= |acts| < |ss|
  {
    if i == 0 || acts[i - 1].Connect? then 0
    else DrawnSince(ss, acts, i - 1) + if Draws(ss[i - 1], acts[i - 1]) then 1 else 0
  }

  /** The transmit counter counts exactly them. */
  lemma {:induction false} CounterCountsDraws(n: nat, size: nat, ss: seq<Station>, acts: seq<Action>, i: nat)
    requires IsStationRun(n, size, ss, acts) && i < |ss|
    ensures NextPn(ss[i]) == 1 + DrawnSince(ss, acts, i)
  {
    if i != 0 {
      CounterCountsDraws(n, size, ss, acts, i - 1);
      if !acts[i - 1].Connect? {
        hide Allowed, Act, Draws;
        DrawIsCarried(ss[i - 1], acts[i - 1]);
      } else {
        hide Apply, Enabled;
      }
    }
  }

  predicate SameKey(f: Frame, h: Frame) {
    f.seal.Some? && h.seal.Some? && f.seal.value.key == h.seal.value.key
  }

  /** Numbers under one key strictly increase along the list. */
  ghost predicate Ordered(frames: seq<Frame>) {
    forall i, j :: 0 <= i < j < |frames| && SameKey(frames[i], frames[j]) ==>
      frames[i].seal.value.packetNumber < frames[j].seal.value.packetNumber
  }

  /** All numbers used so far are ones this station has drawn. */
  ghost predicate Drawn(frames: seq<Frame>, key: nat, nextPn: nat) {
    forall i :: 0 <= i < |frames| && frames[i].seal.Some? ==>
      var s := frames[i].seal.value;
      1 <= s.packetNumber <= MAX_PN && (s.key < key || (s.key == key && s.packetNumber < nextPn))
  }

  /** What a step appends to the station's queue. */
  lemma FramesAfter(s: Station, a: Action)
    requires Allowed(s, a) && QUEUE < |s.world.queues|
    ensures var e := EventOf(s, a);
            var before, after := s.world.queues[QUEUE].frames, Act(s, a).world.queues;
            && |after| == |s.world.queues|
            && after[QUEUE].frames
               == if e.Some? && e.value.Submit? && e.value.queue == QUEUE then before + [e.value.frame] else before
  {
    if EventOf(s, a).Some? {
      ApplyIsLocal(s.world, EventOf(s, a).value, QUEUE);
    }
  }

  ghost predicate InOrder(s: Station) {
    && |s.world.queues| == QUEUES && NextPn(s) >= 1
    && (s.link.Some? ==> Rsn.Inv(s.link.value))
    && Ordered(s.world.queues[QUEUE].frames)
    && Drawn(s.world.queues[QUEUE].frames, s.key, NextPn(s))
  }

  lemma LinkStaysSound(s: Station, a: Action)
    requires Allowed(s, a) && (s.link.Some? ==> Rsn.Inv(s.link.value))
    ensures Act(s, a).link.Some? ==> Rsn.Inv(Act(s, a).link.value)
  {
    hide Apply, Enabled, Rsn.Inv;
    match a
    case Process(e) => Rsn.StepInv(s.link.value, e);
    case Connect(anonce, snonce, ptk, m3) => Rsn.NewInv(anonce, snonce, ptk, m3);
    case _ =>
      if s.link.Some? {
        Rsn.StepInv(s.link.value, Rsn.Send);
      }
  }

  /** Later counters bound earlier numbers too. */
  lemma StillDrawn(frames: seq<Frame>, key: nat, nextPn: nat, key': nat, nextPn': nat)
    requires Drawn(frames, key, nextPn) && (key < key' || (key == key' && nextPn <= nextPn'))
    ensures Drawn(frames, key', nextPn')
  {
  }

  /** A frame with the number just drawn, or with none, keeps the order. */
  lemma AppendInOrder(frames: seq<Frame>, key: nat, nextPn: nat, f: Frame)
    requires Ordered(frames) && Drawn(frames, key, nextPn)
    requires f.seal.Some? ==> f.seal.value == Seal(key, nextPn) && 1 <= nextPn <= MAX_PN
    ensures Ordered(frames + [f]) && Drawn(frames + [f], key, if f.seal.Some? then nextPn + 1 else nextPn)
  {
  }

  lemma StepInOrder(s: Station, a: Action)
    requires InOrder(s) && Allowed(s, a)
    ensures InOrder(Act(s, a))
  {
    hide Ordered, Drawn, Rsn.Inv, Apply, Enabled;
    LinkStaysSound(s, a);
    FramesAfter(s, a);
    var frames := s.world.queues[QUEUE].frames;
    if !a.Connect? {
      DrawIsCarried(s, a);
      StillDrawn(frames, s.key, NextPn(s), s.key, NextPn(Act(s, a)));
    } else {
      StillDrawn(frames, s.key, NextPn(s), s.key + 1, 1);
    }
    var e := EventOf(s, a);
    if e.Some? && e.value.Submit? && e.value.queue == QUEUE {
      AppendInOrder(frames, s.key, NextPn(s), e.value.frame);
    }
    hide Rsn.Step;
  }

  lemma {:induction false} OrderedRun(n: nat, size: nat, ss: seq<Station>, acts: seq<Action>, i: nat)
    requires IsStationRun(n, size, ss, acts) && i < |ss|
    ensures InOrder(ss[i])
  {
    if i != 0 {
      hide InOrder, Act, Allowed;
      OrderedRun(n, size, ss, acts, i - 1);
      StepInOrder(ss[i - 1], acts[i - 1]);
    }
  }

  /** A station run seen from the transmit side is a run of it. */
  lemma {:induction false} Erase(n: nat, size: nat, ss: seq<Station>, acts: seq<Action>, i: nat)
    returns (ws: seq<World>, es: seq<Event>)
    requires IsStationRun(n, size, ss, acts) && i < |ss|
    ensures IsRun(n, size, ws, es) && ws[|es|] == ss[i].world
  {
    hide Apply, Enabled;
    if i == 0 {
      ws, es := [Init(n, size)], [];
    } else {
      ws, es := Erase(n, size, ss, acts, i - 1);
      var e := EventOf(ss[i - 1], acts[i - 1]);
      if e.Some? {
        ws, es := ws + [Apply(ws[|es|], e.value)], es + [e.value];
      }
    }
  }

  lemma PrefixOrdered(frames: seq<Frame>, p: seq<Frame>, key: nat, nextPn: nat)
    requires Ordered(frames) && Drawn(frames, key, nextPn) && p <= frames
    ensures Ordered(p) && Drawn(p, key, nextPn)
  {
    assert forall i :: 0 <= i < |p| ==> p[i] == frames[i];
  }

  /** The frames of the station's queue taken to the radio in the first `i` steps. */
  function Air(ss: seq<Station>, acts: seq<Action>, i: nat): seq<Frame>
    requires i <= |acts| < |ss|
  {
    if i == 0 then [] else
      Air(ss, acts, i - 1)
      + if acts[i - 1] == Other(PollRunner(QUEUE)) && QUEUE < |ss[i].world.queues|
           && ss[i].world.queues[QUEUE].runner.Transmitting?
        then [ss[i].world.queues[QUEUE].runner.frame] else []
  }

  lemma QueueOk(n: nat, size: nat, ss: seq<Station>, acts: seq<Action>, i: nat)
    requires n >= 1 && IsStationRun(n, size, ss, acts) && i < |ss|
    ensures |ss[i].world.queues| == QUEUES && ss[i].world.n == n && Inv(n, ss[i].world.queues[QUEUE])
  {
    var ws, es := Erase(n, size, ss, acts, i);
    RunInv(n, size, ws, es, |es|);
    hide Inv, IsRun, IsStationRun;
  }

  lemma AirStep(n: nat, s: Station, a: Action)
    requires Allowed(s, a) && |s.world.queues| == QUEUES && s.world.n == n && Inv(n, s.world.queues[QUEUE])
    ensures |Act(s, a).world.queues| == QUEUES
    ensures var q, q' := s.world.queues[QUEUE], Act(s, a).world.queues[QUEUE];
            && TakenCount(q) <= |q.frames| && TakenCount(q') <= |q'.frames|
            && q'.frames[..TakenCount(q')]
               == q.frames[..TakenCount(q)]
                  + if a == Other(PollRunner(QUEUE)) && q'.runner.Transmitting? then [q'.runner.frame] else []
  {
    var q := s.world.queues[QUEUE];
    assert TakenCount(q) <= |q.frames|;
    hide Inv, Apply, Enabled;
    if EventOf(s, a).Some? {
      ApplyIsLocal(s.world, EventOf(s, a).value, QUEUE);
      LocalTaken(n, QUEUE, q, EventOf(s, a).value);
    }
    hide Local;
  }

  /** What is on the air is the leading part of what was queued. */
  lemma {:induction false} AirIsPrefix(n: nat, size: nat, ss: seq<Station>, acts: seq<Action>, i: nat)
    requires n >= 1 && IsStationRun(n, size, ss, acts) && i < |ss|
    ensures |ss[i].world.queues| == QUEUES
    ensures var q := ss[i].world.queues[QUEUE];
            TakenCount(q) <= |q.frames| && Air(ss, acts, i) == q.frames[..TakenCount(q)]
  {
    if i != 0 {
      AirIsPrefix(n, size, ss, acts, i - 1);
      QueueOk(n, size, ss, acts, i - 1);
      AirStep(n, ss[i - 1], acts[i - 1]);
      hide Act, Allowed, Inv;
    }
  }

  /** Frames reach the radio in strictly increasing packet number order, for
      each pairwise key, in every run. */
  lemma AirOrder(n: nat, size: nat, ss: seq<Station>, acts: seq<Action>, i: nat)
    requires n >= 1 && IsStationRun(n, size, ss, acts) && i < |ss|
    ensures Ordered(Air(ss, acts, i)) && Drawn(Air(ss, acts, i), ss[i].key, NextPn(ss[i]))
  {
    AirIsPrefix(n, size, ss, acts, i);
    OrderedRun(n, size, ss, acts, i);
    hide IsStationRun, Air;
    PrefixOrdered(ss[i].world.queues[QUEUE].frames, Air(ss, acts, i), ss[i].key, NextPn(ss[i]));
  }

  /** A received frame that carries this number under the pairwise key, as data
      or around a key frame of any content. */
  predicate Carries(e: Rsn.Event, pn: nat) {
    e == Rsn.Data(false, 0, pn) || (e.Eapol? && e.frame.pn == Some(pn))
  }

  /** The receiver's replay check lets every one of these frames through. */
  predicate AcceptsAll(r: Rsn.Crypto, es: seq<Rsn.Event>)
    decreases |es|
  {
    es == [] || (Rsn.ShapeOk(r) && Rsn.Accepts(r, es[0]).Some? && AcceptsAll(Rsn.Step(r, es[0]), es[1..]))
  }

  lemma AcceptedAbove(r: Rsn.Crypto, e: Rsn.Event, pn: nat)
    requires Rsn.ShapeOk(r) && Carries(e, pn) && r.ptk.floor < pn
    ensures Rsn.Accepts(r, e) == Some(Rsn.Acceptance(r.ptk.instance, pn))
    ensures Rsn.ShapeOk(Rsn.Step(r, e)) && Rsn.Step(r, e).ptk.floor == pn
  {
  }

  /** The packet numbers of key `key` among the frames with these indices. */
  function Heard(frames: seq<Frame>, key: nat, indices: seq<nat>): seq<nat>
    requires forall i :: 0 <= i < |indices| ==> indices[i] < |frames|
  {
    if indices == [] then [] else
      var f := frames[indices[0]];
      (if f.seal.Some? && f.seal.value.key == key then [f.seal.value.packetNumber] else [])
      + Heard(frames, key, indices[1..])
  }

  ghost predicate Increasing(s: seq<nat>) {
    forall i, j :: 0 <= i < j < |s| ==> s[i] < s[j]
  }

  ghost predicate CarriesAll(es: seq<Rsn.Event>, pns: seq<nat>) {
    |es| == |pns| && forall i :: 0 <= i < |es| ==> Carries(es[i], pns[i])
  }

  predicate Before(frames: seq<Frame>, key: nat, pn: nat, k: nat) {
    k < |frames| && frames[k].seal == Some(Seal(key, pn))
  }

  /** Nothing heard under the key so far, or a frame before all of these last. */
  ghost predicate Reached(frames: seq<Frame>, key: nat, floor: nat, indices: seq<nat>) {
    floor == 0 || exists k: nat :: Before(frames, key, floor, k) && forall i :: 0 <= i < |indices| ==> k < indices[i]
  }

  lemma ReachedRest(frames: seq<Frame>, key: nat, floor: nat, indices: seq<nat>)
    requires Reached(frames, key, floor, indices) && indices != []
    ensures Reached(frames, key, floor, indices[1..])
  {
    if floor != 0 {
      var k: nat :| Before(frames, key, floor, k) && forall i :: 0 <= i < |indices| ==> k < indices[i];
      assert forall i :: 0 <= i < |indices[1..]| ==> k < indices[1..][i];
    }
  }

  /** Whatever subset of the frames on air a receiver hears, its replay check
      accepts every one of them. */
  lemma {:induction false} ReceiverAcceptsAll(frames: seq<Frame>, key: nat, indices: seq<nat>,
                                              r: Rsn.Crypto, es: seq<Rsn.Event>, top: nat, pn: nat)
    requires Ordered(frames) && Drawn(frames, top, pn) && Rsn.ShapeOk(r)
    requires Increasing(indices) && forall i :: 0 <= i < |indices| ==> indices[i] < |frames|
    requires Reached(frames, key, r.ptk.floor, indices)
    requires CarriesAll(es, Heard(frames, key, indices))
    ensures AcceptsAll(r, es)
    decreases |indices|
  {
    hide Rsn.Step, Rsn.Accepts, Rsn.ShapeOk, Carries;
    if indices != [] {
      var j, rest := indices[0], indices[1..];
      var f := frames[j];
      ReachedRest(frames, key, r.ptk.floor, indices);
      if f.seal.Some? && f.seal.value.key == key {
        var p := f.seal.value.packetNumber;
        var heard := Heard(frames, key, indices);
        assert heard[0] == p && heard[1..] == Heard(frames, key, rest);
        assert r.ptk.floor < p;
        AcceptedAbove(r, es[0], p);
        assert Before(frames, key, p, j);
        ReceiverAcceptsAll(frames, key, rest, Rsn.Step(r, es[0]), es[1..], top, pn);
      } else {
        assert Heard(frames, key, indices) == Heard(frames, key, rest);
        ReceiverAcceptsAll(frames, key, rest, r, es, top, pn);
      }
    }
  }

  /** End to end: any run, any frames the receiver happens to hear, as data or as
      key frames, from a new pairwise key on. */
  lemma NoFrameLooksReplayed(n: nat, size: nat, ss: seq<Station>, acts: seq<Action>, i: nat,
                             key: nat, indices: seq<nat>, r: Rsn.Crypto, es: seq<Rsn.Event>)
    requires n >= 1 && IsStationRun(n, size, ss, acts) && i < |ss| && Increasing(indices)
    requires forall k :: 0 <= k < |indices| ==> indices[k] < |Air(ss, acts, i)|
    requires Rsn.ShapeOk(r) && r.ptk.floor == 0 && CarriesAll(es, Heard(Air(ss, acts, i), key, indices))
    ensures AcceptsAll(r, es)
  {
    AirOrder(n, size, ss, acts, i);
    hide IsStationRun, Air, AcceptsAll, CarriesAll;
    ReceiverAcceptsAll(Air(ss, acts, i), key, indices, r, es, ss[i].key, NextPn(ss[i]));
  }
}
