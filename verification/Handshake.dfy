/** A whole WPA2-PSK connection as the supplicant lives it: the four-way
    handshake with its retries, then key frames for as long as the link is up. */
module Handshake {
  import opened Basics
  import opened Rsn

  /** A frame by what it decodes to: a key frame, or protected data. Frames of
      the initial exchange count only when they came unprotected. */
  datatype Received =
    | RxMessage1(nonce: Nonce, counter: nat)
    | RxMessage3(pn: Option<nat>, m3: Message3)
    | RxGroup1(pn: Option<nat>, g1: Option<GroupMessage1>)
    | RxOther(pn: Option<nat>)
    | RxData(isGroup: bool, keyId: nat, dataPn: nat)

  /** A received frame and whether the reply to it, if any, could be sent. */
  datatype Input = Input(frame: Received, sent: bool)

  /** GTK key IDs have two bits. */
  predicate WellFormed(i: Input) {
    i.frame.RxMessage3? ==> i.frame.m3.gtkId < GROUP_KEYS
  }

  /** Everything the supplicant says. M2 is authenticated by the pairwise key. */
  datatype Said =
    | Message2(snonce: Nonce, ptk: Key, counter: nat)
    | SaidMessage4(snonce: Nonce, counter: nat)
    | SaidGroup2(message: GroupMessage1)

  datatype Phase =
    | AwaitMessage1
    | AwaitMessage3(anonce: Nonce, counter: nat, ptk: Key)
    | Up(crypto: Crypto)
    | Failed

  datatype Session = Session(snonce: Nonce, phase: Phase, said: seq<Said>)

  /** Derivation of the pairwise key from both nonces. */
  type Derive = (Nonce, Nonce) -> Key

  function AsKeyFrame(r: Received): KeyFrame {
    match r
    case RxMessage1(_, _) => KeyFrame(None, Pairwise(None))
    case RxMessage3(pn, m3) => KeyFrame(pn, Pairwise(Some(m3)))
    case RxGroup1(pn, g1) => KeyFrame(pn, Group(g1))
    case RxOther(pn) => KeyFrame(pn, Pairwise(None))
    case RxData(_, _, _) => KeyFrame(None, Pairwise(None))
  }

  function SaidFor(c: Crypto, r: Received): seq<Said>
    requires ShapeOk(c)
  {
    match ReplyTo(c, AsKeyFrame(r))
    case None => []
    case Some(Message4(nonce, counter)) => [SaidMessage4(nonce, counter)]
    case Some(GroupMessage2(_)) => if r.RxGroup1? && r.g1.Some? then [SaidGroup2(r.g1.value)] else []
  }

  function Advance(derive: Derive, s: Session, i: Input): Session
    requires WellFormed(i) && (s.phase.Up? ==> ShapeOk(s.phase.crypto))
  {
    match s.phase
    case AwaitMessage1 =>
      if i.frame.RxMessage1? then
        var ptk := derive(i.frame.nonce, s.snonce);
        Session(s.snonce,
                if i.sent then AwaitMessage3(i.frame.nonce, i.frame.counter, ptk) else Failed,
                s.said + [Message2(s.snonce, ptk, i.frame.counter)])
      else s
    case AwaitMessage3(anonce, counter, ptk) =>
      if i.frame.RxMessage1? && i.frame.nonce == anonce && i.frame.counter >= counter then
        Session(s.snonce,
                if i.sent then AwaitMessage3(anonce, i.frame.counter, ptk) else Failed,
                s.said + [Message2(s.snonce, ptk, i.frame.counter)])
      else if i.frame.RxMessage3? && i.frame.pn.None?
              && i.frame.m3.nonce == anonce && i.frame.m3.counter > counter then
        Session(s.snonce,
                if i.sent then Up(NewCrypto(anonce, s.snonce, ptk, i.frame.m3)) else Failed,
                s.said + [SaidMessage4(s.snonce, i.frame.m3.counter)])
      else s
    case Up(c) =>
      if i.frame.RxData?
      then s.(phase := Up(HandleData(c, i.frame.isGroup, i.frame.keyId, i.frame.dataPn)))
      else Session(s.snonce, Up(HandleEapol(c, AsKeyFrame(i.frame))), s.said + SaidFor(c, i.frame))
    case Failed => s
  }

  // --------------------------------------------------- the order of all replies

  function CounterOf(x: Said): nat {
    match x case Message2(_, _, c) => c case SaidMessage4(_, c) => c case SaidGroup2(m) => m.counter
  }

  /** `y` may be said after `x`: M2s reuse one nonce and one key with counters
      that do not go down; everything later has a larger counter, except that the
      very same group message may be answered again. */
  predicate MayFollow(x: Said, y: Said) {
    if x.Message2? && y.Message2? then x.snonce == y.snonce && x.ptk == y.ptk && x.counter <= y.counter
    else !y.Message2? && (CounterOf(x) < CounterOf(y) || (x == y && x.SaidGroup2?))
  }

  ghost predicate Chain(said: seq<Said>) {
    forall i, j :: 0 <= i < j < |said| ==> MayFollow(said[i], said[j])
  }

  /** How what was said compares with the state of the connection. */
  predicate Behind(c: Crypto, x: Said) {
    match x
    case Message2(_, _, counter) => counter < c.counter
    case SaidMessage4(snonce, counter) =>
      snonce == c.snonce
      && (counter < c.counter
          || (counter == c.counter && (c.lastGroup.Some? ==> c.lastGroup.value.counter < c.counter)))
    case SaidGroup2(m) => m.counter < c.counter || (m.counter == c.counter && c.lastGroup == Some(m))
  }

  ghost predicate SessionInv(s: Session) {
    && Chain(s.said)
    && match s.phase
       case AwaitMessage1 => s.said == []
       case AwaitMessage3(_, counter, ptk) =>
         forall i :: 0 <= i < |s.said| ==>
           s.said[i].Message2? && s.said[i].snonce == s.snonce && s.said[i].ptk == ptk && s.said[i].counter <= counter
       case Up(c) => Rsn.Inv(c) && c.snonce == s.snonce && forall i :: 0 <= i < |s.said| ==> Behind(c, s.said[i])
       case Failed => true
  }

  /** What was said stays behind the state, and the next reply may follow it. */
  lemma StaysBehind(c: Crypto, r: Received, x: Said)
    requires GroupInv(c) && Behind(c, x)
    ensures Behind(HandleEapol(c, AsKeyFrame(r)), x)
    ensures |SaidFor(c, r)| == 1 ==> MayFollow(x, SaidFor(c, r)[0])
  {
  }

  /** A key frame gets at most one reply, with the counter the state then has. */
  lemma NewSaid(c: Crypto, r: Received)
    requires GroupInv(c)
    ensures var d := HandleEapol(c, AsKeyFrame(r));
            && d.snonce == c.snonce && d.counter >= c.counter && |SaidFor(c, r)| <= 1
            && (|SaidFor(c, r)| == 1 ==> Behind(d, SaidFor(c, r)[0]) && CounterOf(SaidFor(c, r)[0]) == d.counter)
  {
  }

  lemma AppendChain(said: seq<Said>, more: seq<Said>)
    requires Chain(said) && |more| <= 1
    requires forall i :: 0 <= i < |said| && |more| == 1 ==> MayFollow(said[i], more[0])
    ensures Chain(said + more)
  {
  }

  lemma AdvanceInv(derive: Derive, s: Session, i: Input)
    requires SessionInv(s) && WellFormed(i)
    ensures SessionInv(Advance(derive, s, i))
  {
    match s.phase
    case Up(c) => UpInv(derive, s, i, c);
    case AwaitMessage3(anonce, counter, ptk) =>
      if i.frame.RxMessage3? {
        NewInv(anonce, s.snonce, ptk, i.frame.m3);
        hide Rsn.Inv;
      }
    case _ =>
  }

  lemma UpInv(derive: Derive, s: Session, i: Input, c: Crypto)
    requires SessionInv(s) && WellFormed(i) && s.phase == Up(c)
    ensures SessionInv(Advance(derive, s, i))
  {
    assert ShapeOk(c);
    hide Rsn.Inv, HandleEapol, HandleData, SaidFor, Behind, MayFollow;
    if i.frame.RxData? {
      StepInv(c, Data(i.frame.isGroup, i.frame.keyId, i.frame.dataPn));
      DataStaysBehind(c, i.frame.isGroup, i.frame.keyId, i.frame.dataPn, s.said);
    } else {
      StepInv(c, Eapol(AsKeyFrame(i.frame)));
      KeyFrameStaysBehind(c, i.frame, s.said);
      AppendChain(s.said, SaidFor(c, i.frame));
    }
  }

  lemma DataStaysBehind(c: Crypto, isGroup: bool, keyId: nat, pn: nat, said: seq<Said>)
    requires Rsn.Inv(c) && forall k :: 0 <= k < |said| ==> Behind(c, said[k])
    ensures HandleData(c, isGroup, keyId, pn).snonce == c.snonce
    ensures forall k :: 0 <= k < |said| ==> Behind(HandleData(c, isGroup, keyId, pn), said[k])
  {
    hide Rsn.FloorInv;
  }

  lemma KeyFrameStaysBehind(c: Crypto, r: Received, said: seq<Said>)
    requires Rsn.Inv(c) && forall k :: 0 <= k < |said| ==> Behind(c, said[k])
    ensures var d, more := HandleEapol(c, AsKeyFrame(r)), SaidFor(c, r);
            && d.snonce == c.snonce && |more| <= 1
            && (forall k :: 0 <= k < |said + more| ==> Behind(d, (said + more)[k]))
            && (forall k :: 0 <= k < |said| && |more| == 1 ==> MayFollow(said[k], more[0]))
  {
    assert GroupInv(c);
    hide Rsn.Inv, HandleEapol, SaidFor, Behind, MayFollow;
    NewSaid(c, r);
    forall k | 0 <= k < |said|
      ensures Behind(HandleEapol(c, AsKeyFrame(r)), said[k])
      ensures |SaidFor(c, r)| == 1 ==> MayFollow(said[k], SaidFor(c, r)[0])
    {
      StaysBehind(c, r, said[k]);
    }
  }

  /** The states of one connection, from the first frame on. */
  ghost predicate IsSession(derive: Derive, snonce: Nonce, ss: seq<Session>, inputs: seq<Input>) {
    && |ss| == |inputs| + 1
    && ss[0] == Session(snonce, AwaitMessage1, [])
    && forall i :: 0 <= i < |inputs| ==>
         && WellFormed(inputs[i]) && (ss[i].phase.Up? ==> ShapeOk(ss[i].phase.crypto))
         && ss[i + 1] == Advance(derive, ss[i], inputs[i])
  }

  /** Over every sequence of frames the supplicant's replies are in order. */
  lemma {:induction false} ConversationOrder(derive: Derive, snonce: Nonce,
                                             ss: seq<Session>, inputs: seq<Input>, i: nat)
    requires IsSession(derive, snonce, ss, inputs) && i < |ss|
    ensures SessionInv(ss[i]) && Chain(ss[i].said)
  {
    if i != 0 {
      hide Advance, SessionInv;
      ConversationOrder(derive, snonce, ss, inputs, i - 1);
      AdvanceInv(derive, ss[i - 1], inputs[i - 1]);
      SessionChain(ss[i]);
    }
  }

  lemma SessionChain(s: Session)
    requires SessionInv(s)
    ensures Chain(s.said)
  {
  }

  /** Once up, the connection's counter exceeds every M2, and each key frame is
      answered with the counter it leaves behind. */
  lemma UpIsAhead(derive: Derive, snonce: Nonce, ss: seq<Session>, inputs: seq<Input>, i: nat)
    requires IsSession(derive, snonce, ss, inputs) && i < |inputs| && ss[i].phase.Up?
    ensures var s, t := ss[i], ss[i + 1];
            && t.phase.Up? && s.phase.crypto.counter <= t.phase.crypto.counter
            && (forall k :: 0 <= k < |s.said| ==>
                 CounterOf(s.said[k]) <= s.phase.crypto.counter
                 && (s.said[k].Message2? ==> CounterOf(s.said[k]) < s.phase.crypto.counter))
            && (forall k :: |s.said| <= k < |t.said| ==> CounterOf(t.said[k]) == t.phase.crypto.counter)
  {
    ConversationOrder(derive, snonce, ss, inputs, i);
    var c := ss[i].phase.crypto;
    NewSaid(c, inputs[i].frame);
    hide Rsn.Inv, HandleEapol, SaidFor;
  }

  // ----------------------------------------------------------- what is answered

  /** The counter a received frame asks to be answered with. */
  function CounterIn(r: Received): Option<nat> {
    match r
    case RxMessage1(_, counter) => Some(counter)
    case RxMessage3(_, m3) => Some(m3.counter)
    case RxGroup1(_, Some(g1)) => Some(g1.counter)
    case _ => None
  }

  /** Reply `x` is of the kind that answers this frame: M2 for M1, M4 for M3, and
      the group reply for just this group message. */
  predicate AnswerKind(r: Received, x: Said) {
    match x
    case Message2(_, _, _) => r.RxMessage1?
    case SaidMessage4(_, _) => r.RxMessage3?
    case SaidGroup2(m) => r.RxGroup1? && r.g1 == Some(m)
  }

  /** Each frame gets at most one reply, of its kind and with its counter, sent
      with the station's own nonce. */
  lemma RepliesEcho(derive: Derive, s: Session, i: Input)
    requires SessionInv(s) && WellFormed(i)
    ensures var t := Advance(derive, s, i);
            && t.snonce == s.snonce && |s.said| <= |t.said| <= |s.said| + 1 && t.said[..|s.said|] == s.said
            && (|t.said| > |s.said| ==>
                  var x := t.said[|s.said|];
                  && AnswerKind(i.frame, x) && Some(CounterOf(x)) == CounterIn(i.frame)
                  && (x.Message2? ==> x.snonce == s.snonce) && (x.SaidMessage4? ==> x.snonce == s.snonce))
  {
    if s.phase.Up? && !i.frame.RxData? {
      SaidEchoes(s.phase.crypto, i.frame);
      hide HandleEapol, SaidFor, Rsn.Inv;
    }
  }

  lemma SaidEchoes(c: Crypto, r: Received)
    requires Rsn.Inv(c)
    ensures |SaidFor(c, r)| <= 1
    ensures |SaidFor(c, r)| == 1 ==>
              var x := SaidFor(c, r)[0];
              && AnswerKind(r, x) && Some(CounterOf(x)) == CounterIn(r) && !x.Message2?
              && (x.SaidMessage4? ==> x.snonce == c.snonce)
  {
    hide FloorInv;
  }

  /** The same along every session. */
  lemma EveryReplyEchoes(derive: Derive, snonce: Nonce, ss: seq<Session>, inputs: seq<Input>, i: nat)
    requires IsSession(derive, snonce, ss, inputs) && i < |inputs|
    ensures var s, t := ss[i], ss[i + 1];
            && |s.said| <= |t.said| <= |s.said| + 1 && t.said[..|s.said|] == s.said
            && (|t.said| > |s.said| ==>
                  AnswerKind(inputs[i].frame, t.said[|s.said|])
                  && Some(CounterOf(t.said[|s.said|])) == CounterIn(inputs[i].frame))
  {
    ConversationOrder(derive, snonce, ss, inputs, i);
    hide SessionInv, Advance;
    RepliesEcho(derive, ss[i], inputs[i]);
  }

  /** The first M1 is answered with the key of both nonces, and its exchange is
      the one pending; nothing else moves a session that waits for M1. */
  lemma FirstMessage1(derive: Derive, s: Session, i: Input)
    requires WellFormed(i) && s.phase.AwaitMessage1?
    ensures var t := Advance(derive, s, i);
            match i.frame
            case RxMessage1(nonce, counter) =>
              && t.said == s.said + [Message2(s.snonce, derive(nonce, s.snonce), counter)]
              && t.phase == (if i.sent then AwaitMessage3(nonce, counter, derive(nonce, s.snonce)) else Failed)
            case _ => t == s
  {
  }

  /** A pending exchange answers an M1 of its nonce whose counter did not fall, and
      an unprotected M3 of its nonce with a larger one, which completes it; nothing
      else moves it. */
  lemma PendingExchange(derive: Derive, s: Session, i: Input)
    requires WellFormed(i) && s.phase.AwaitMessage3?
    ensures var t, p := Advance(derive, s, i), s.phase;
            match i.frame
            case RxMessage1(nonce, counter) =>
              if nonce == p.anonce && counter >= p.counter then
                && t.said == s.said + [Message2(s.snonce, p.ptk, counter)]
                && t.phase == (if i.sent then AwaitMessage3(p.anonce, counter, p.ptk) else Failed)
              else t == s
            case RxMessage3(None, m3) =>
              if m3.nonce == p.anonce && m3.counter > p.counter then
                && t.said == s.said + [SaidMessage4(s.snonce, m3.counter)]
                && (if i.sent then t.phase.Up? && Connected(t.phase.crypto, p.anonce, s.snonce, p.ptk, m3)
                    else t.phase.Failed?)
              else t == s
            case _ => t == s
  {
    if i.frame.RxMessage3? {
      NewConnection(s.phase.anonce, s.snonce, s.phase.ptk, i.frame.m3, Pairwise(None));
    }
  }

  /** Connected: a data frame and a key frame do to the keys what `Rsn` says, a key
      frame is answered exactly when `Rsn` answers it, and a new group message, or an
      M3 for the keys in use, past its packet number is. */
  lemma ConnectedExchange(derive: Derive, s: Session, i: Input)
    requires SessionInv(s) && WellFormed(i) && s.phase.Up?
    ensures var t, c := Advance(derive, s, i), s.phase.crypto;
            && t.phase.Up? && ShapeOk(c)
            && match i.frame
               case RxData(isGroup, keyId, pn) =>
                 t.said == s.said && t.phase.crypto == Rsn.Step(c, Data(isGroup, keyId, pn))
               case RxGroup1(pn, Some(m)) =>
                 && t.phase.crypto == Rsn.Step(c, Eapol(KeyFrame(pn, Group(Some(m)))))
                 && t.said == s.said + (if ReplyTo(c, KeyFrame(pn, Group(Some(m)))).Some? then [SaidGroup2(m)] else [])
                 && (NewGroup(c, m) && (pn.None? || pn.value > c.ptk.floor) ==> t.said == s.said + [SaidGroup2(m)])
               case RxMessage3(pn, m3) =>
                 && t.phase.crypto == Rsn.Step(c, Eapol(KeyFrame(pn, Pairwise(Some(m3)))))
                 && t.said == s.said + if ReplyTo(c, KeyFrame(pn, Pairwise(Some(m3)))).Some?
                                       then [SaidMessage4(s.snonce, m3.counter)] else []
               case RxOther(pn) =>
                 t.said == s.said && t.phase.crypto == Rsn.Step(c, Eapol(KeyFrame(pn, Pairwise(None))))
               case RxGroup1(pn, None) =>
                 t.said == s.said && t.phase.crypto == Rsn.Step(c, Eapol(KeyFrame(pn, Group(None))))
               case RxMessage1(_, _) => t == s
  {
    var c, f := s.phase.crypto, AsKeyFrame(i.frame);
    assert ShapeOk(c) && c.snonce == s.snonce;
    hide SessionInv;
    if PnOk(c, f) {
      assert Rsn.Inv(c) by { UpIsSound(s); }
      AnsweredExactly(c, f);
    }
    hide AfterContent, ContentReply, Rsn.Inv, NewGroup;
  }

  lemma UpIsSound(s: Session)
    requires SessionInv(s) && s.phase.Up?
    ensures Rsn.Inv(s.phase.crypto)
  {
  }

  /** A connection just made from this M3. */
  ghost predicate Connected(c: Crypto, anonce: Nonce, snonce: Nonce, ptk: Key, m3: Message3) {
    && ShapeOk(c) && c.anonce == anonce && c.snonce == snonce && c.ptk.key == ptk
    && c.counter == m3.counter && c.activeId == m3.gtkId && KeyAt(c, m3.gtkId) == Some(m3.gtk)
    && Accepts(c, Data(true, m3.gtkId, 1)).Some? && Accepts(c, Data(false, 0, 1)).Some?
  }

  /** Pairwise key, nonces and every M2 belong together. */
  ghost predicate Agreed(derive: Derive, s: Session) {
    match s.phase
    case AwaitMessage1 => s.said == []
    case AwaitMessage3(anonce, _, ptk) =>
      ptk == derive(anonce, s.snonce)
      && forall k :: 0 <= k < |s.said| && s.said[k].Message2? ==> s.said[k].ptk == ptk
    case Up(c) =>
      && ShapeOk(c) && c.ptk.key == derive(c.anonce, s.snonce)
      && forall k :: 0 <= k < |s.said| && s.said[k].Message2? ==> s.said[k].ptk == c.ptk.key
    case Failed => true
  }

  lemma UpKeepsKeys(c: Crypto, r: Received, isGroup: bool, keyId: nat, pn: nat)
    requires ShapeOk(c)
    ensures var d := HandleEapol(c, AsKeyFrame(r));
            ShapeOk(d) && d.ptk.key == c.ptk.key && d.anonce == c.anonce
    ensures var d := HandleData(c, isGroup, keyId, pn);
            ShapeOk(d) && d.ptk.key == c.ptk.key && d.anonce == c.anonce
  {
  }

  lemma AdvanceAgreed(derive: Derive, s: Session, i: Input)
    requires Agreed(derive, s) && SessionInv(s) && WellFormed(i)
    ensures Agreed(derive, Advance(derive, s, i))
  {
    if s.phase.Up? {
      hide HandleEapol, HandleData, SaidFor;
      var f := i.frame;
      if f.RxData? {
        UpKeepsKeys(s.phase.crypto, f, f.isGroup, f.keyId, f.dataPn);
      } else {
        SaidEchoes(s.phase.crypto, f);
        UpKeepsKeys(s.phase.crypto, f, false, 0, 0);
      }
      hide Rsn.Inv;
    }
  }

  /** In every session the pairwise key in use, by every M2 and by the connection,
      is the one derived from the access point's nonce and the own. */
  lemma {:induction false} KeysAgreed(derive: Derive, snonce: Nonce, ss: seq<Session>, inputs: seq<Input>, i: nat)
    requires IsSession(derive, snonce, ss, inputs) && i < |ss|
    ensures Agreed(derive, ss[i]) && ss[i].snonce == snonce
  {
    if i != 0 {
      hide Advance, SessionInv, Agreed;
      KeysAgreed(derive, snonce, ss, inputs, i - 1);
      ConversationOrder(derive, snonce, ss, inputs, i - 1);
      AdvanceAgreed(derive, ss[i - 1], inputs[i - 1]);
      RepliesEcho(derive, ss[i - 1], inputs[i - 1]);
    }
  }

  // ------------------------------------------------------- the handshake loops

  /** The pending exchange between M1 and M3. */
  class InitialHandshake {
    const anonce: Nonce
    var counter: nat

    constructor (anonce: Nonce, counter: nat)
      ensures this.anonce == anonce && this.counter == counter
    {
      this.anonce, this.counter := anonce, counter;
    }

    method Message1Retry(r: Received) returns (answer: Option<nat>)
      modifies this`counter
      ensures answer == if r.RxMessage1? && r.nonce == anonce && r.counter >= old(counter)
                        then Some(r.counter) else None
      ensures counter == if answer.Some? then answer.value else old(counter)
    {
      if !r.RxMessage1? || r.nonce != anonce || r.counter < counter {
        return None;
      }
      counter := r.counter;
      answer := Some(counter);
    }

    method AcceptMessage3(r: Received) returns (m: Option<Message3>)
      modifies this`counter
      ensures m == if r.RxMessage3? && r.pn.None? && r.m3.nonce == anonce && r.m3.counter > old(counter)
                   then Some(r.m3) else None
      ensures counter == if m.Some? then m.value.counter else old(counter)
    {
      if !r.RxMessage3? || r.pn.Some? || r.m3.nonce != anonce || r.m3.counter <= counter {
        return None;
      }
      counter := r.m3.counter;
      m := Some(r.m3);
    }
  }

  /** The handshake is over, one way or the other. */
  predicate Settled(s: Session) { s.phase.Up? || s.phase.Failed? }

  /** The state after the first `k` frames; what follows the end is not read. */
  function After(derive: Derive, snonce: Nonce, inputs: seq<Input>, k: nat): Session
    requires k <= |inputs| && forall i :: 0 <= i < |inputs| ==> WellFormed(inputs[i])
  {
    if k == 0 then Session(snonce, AwaitMessage1, []) else
      var s := After(derive, snonce, inputs, k - 1);
      if Settled(s) then s else Advance(derive, s, inputs[k - 1])
  }

  lemma AfterOneMore(derive: Derive, snonce: Nonce, inputs: seq<Input>, k: nat)
    requires k < |inputs| && forall i :: 0 <= i < |inputs| ==> WellFormed(inputs[i])
    requires !Settled(After(derive, snonce, inputs, k))
    ensures After(derive, snonce, inputs, k + 1) == Advance(derive, After(derive, snonce, inputs, k), inputs[k])
  {
  }

  /** `process_message_1`: skip frames until an M1 arrives. */
  method ProcessMessage1(derive: Derive, snonce: Nonce, inputs: seq<Input>)
    returns (pending: Option<InitialHandshake>, k: nat)
    requires forall i :: 0 <= i < |inputs| ==> WellFormed(inputs[i])
    ensures k <= |inputs| && (pending.Some? ==> fresh(pending.value))
    ensures After(derive, snonce, inputs, k) == Session(snonce, AwaitMessage1, [])
    ensures pending.None? ==> k == |inputs|
    ensures pending.Some? ==> k < |inputs| && inputs[k].frame == RxMessage1(pending.value.anonce, pending.value.counter)
  {
    k := 0;
    while k < |inputs|
      invariant k <= |inputs| && After(derive, snonce, inputs, k) == Session(snonce, AwaitMessage1, [])
    {
      if inputs[k].frame.RxMessage1? {
        var p := new InitialHandshake(inputs[k].frame.nonce, inputs[k].frame.counter);
        return Some(p), k;
      }
      k := k + 1;
    }
    pending := None;
  }

  /** `do_4whs`: both receive loops, the replies sent, and the keys at the end. */
  method FourWayHandshake(derive: Derive, snonce: Nonce, inputs: seq<Input>) returns (session: Session, k: nat)
    requires forall i :: 0 <= i < |inputs| ==> WellFormed(inputs[i])
    ensures k <= |inputs| && session == After(derive, snonce, inputs, k)
    ensures Settled(session) || k == |inputs|
    ensures Settled(session) ==> k > 0 && !Settled(After(derive, snonce, inputs, k - 1))
  {
    hide After, NewCrypto;
    var first;
    first, k := ProcessMessage1(derive, snonce, inputs);
    if first.None? {
      return Session(snonce, AwaitMessage1, []), k;
    }
    var pending := first.value;
    var ptk := derive(pending.anonce, snonce);
    var said := [Message2(snonce, ptk, pending.counter)];
    var ok := inputs[k].sent;
    AfterOneMore(derive, snonce, inputs, k);
    k := k + 1;
    if !ok {
      return Session(snonce, Failed, said), k;
    }
    while k < |inputs|
      invariant k <= |inputs|
      invariant After(derive, snonce, inputs, k)
                == Session(snonce, AwaitMessage3(pending.anonce, pending.counter, ptk), said)
    {
      var i := inputs[k];
      AfterOneMore(derive, snonce, inputs, k);
      k := k + 1;
      var retry := pending.Message1Retry(i.frame);
      if retry.Some? {
        said := said + [Message2(snonce, ptk, retry.value)];
        if !i.sent {
          return Session(snonce, Failed, said), k;
        }
      } else {
        var m3 := pending.AcceptMessage3(i.frame);
        if m3.Some? {
          said := said + [SaidMessage4(snonce, pending.counter)];
          var phase := if i.sent then Up(NewCrypto(pending.anonce, snonce, ptk, m3.value)) else Failed;
          return Session(snonce, phase, said), k;
        }
      }
    }
    session := Session(snonce, AwaitMessage3(pending.anonce, pending.counter, ptk), said);
  }
}
