/** Keys of an established WPA2-PSK/CCMP connection: the EAPOL replay counter,
    the pairwise and group keys with their packet counters, and the hardware
    slots. Frames arrive already decoded; how the decoder checks the MIC and
    unwraps keys is left to it. */
module Rsn {
  import opened Basics

  type Key = seq<Byte>
  type Nonce = seq<Byte>

  const GROUP_KEYS: nat := 4

  /** One installed key. `floor` is the last packet number accepted under it,
      `nextPn` the next one to send, `instance` numbers its installation. */
  datatype Tksa = Tksa(key: Key, keyId: nat, floor: nat, nextPn: nat, instance: nat)

  datatype Message3 = Message3(nonce: Nonce, counter: nat, gtk: Key, gtkId: nat)
  datatype GroupMessage1 = GroupMessage1(counter: nat, nonce: Nonce, key: Key, keyId: nat, rsc: nat)

  /** Content of a hardware key slot. */
  datatype HwKey = HwKey(keyId: nat, key: Key, group: bool)

  datatype Acceptance = Acceptance(instance: nat, pn: nat)

  /** `installs` counts keys programmed so far and `accepted` lists the packet
      numbers let through; both only record. */
  datatype Crypto = Crypto(
    anonce: Nonce,
    snonce: Nonce,
    counter: nat,
    ptk: Tksa,
    groupKeys: seq<Option<Tksa>>,
    activeId: nat,
    lastGroup: Option<GroupMessage1>,
    gtkSlots: seq<Option<HwKey>>,
    ptkSlot: Option<HwKey>,
    installs: nat,
    accepted: seq<Acceptance>
  )

  /** What a decoded EAPOL-Key frame asks for. A frame with the group flags that
      does not decode is `Group(None)`; anything else that is not a valid M3 is
      `Pairwise(None)`. */
  datatype Content = Group(g1: Option<GroupMessage1>) | Pairwise(m3: Option<Message3>)

  /** `pn` is present when the frame came protected. */
  datatype KeyFrame = KeyFrame(pn: Option<nat>, content: Content)

  datatype Reply = Message4(nonce: Nonce, counter: nat) | GroupMessage2(counter: nat)

  /** The outcome of `CryptoState::new` with slots that hold no key. */
  function NewCrypto(anonce: Nonce, snonce: Nonce, ptk: Key, m3: Message3): Crypto
    requires m3.gtkId < GROUP_KEYS
  {
    var none: seq<Option<Tksa>> := [None, None, None, None];
    var empty: seq<Option<HwKey>> := [None, None, None, None];
    Crypto(anonce, snonce, m3.counter,
           Tksa(ptk, 0, 0, 1, 0),
           none[m3.gtkId := Some(Tksa(m3.gtk, m3.gtkId, 0, 1, 1))],
           m3.gtkId, None,
           empty[m3.gtkId := Some(HwKey(m3.gtkId, m3.gtk, true))],
           Some(HwKey(0, ptk, false)), 2, [])
  }

  predicate ShapeOk(s: Crypto) {
    |s.groupKeys| == |s.gtkSlots| == GROUP_KEYS && s.activeId < GROUP_KEYS
  }

  /** The key is installed under some other ID. */
  predicate Elsewhere(keys: seq<Option<Tksa>>, id: nat, key: Key) {
    exists i :: 0 <= i < |keys| && i != id && keys[i].Some? && keys[i].value.key == key
  }

  predicate InstalledAt(s: Crypto, id: nat, key: Key)
    requires ShapeOk(s)
  {
    id < GROUP_KEYS && s.groupKeys[id].Some? && s.groupKeys[id].value.key == key
  }

  datatype Verdict = Ignore | Repeat | Refuse | Fresh(install: bool)

  /** What a group message is to this connection. */
  function Judge(s: Crypto, m: GroupMessage1): Verdict
    requires ShapeOk(s)
  {
    if m.counter < s.counter then Ignore
    else if m.counter == s.counter then if s.lastGroup == Some(m) then Repeat else Ignore
    else if m.keyId >= GROUP_KEYS || Elsewhere(s.groupKeys, m.keyId, m.key) then Refuse
    else Fresh(!InstalledAt(s, m.keyId, m.key))
  }

  function AcceptGroup(s: Crypto, m: GroupMessage1): Crypto
    requires ShapeOk(s)
  {
    match Judge(s, m)
    case Fresh(install) =>
      var s' := if !install then s else
        s.(groupKeys := s.groupKeys[m.keyId := Some(Tksa(m.key, m.keyId, m.rsc, 1, s.installs))],
           gtkSlots := s.gtkSlots[m.keyId := Some(HwKey(m.keyId, m.key, true))],
           installs := s.installs + 1);
      s'.(activeId := m.keyId, counter := m.counter, lastGroup := Some(m))
    case _ => s
  }

  /** An M3 retry for the keys already installed. */
  predicate RetryOk(s: Crypto, m: Message3)
    requires ShapeOk(s)
  {
    && m.nonce == s.anonce && m.counter > s.counter
    && s.groupKeys[s.activeId].Some?
    && m.gtk == s.groupKeys[s.activeId].value.key && m.gtkId == s.groupKeys[s.activeId].value.keyId
  }

  function AcceptPtk(s: Crypto, pn: nat): Crypto {
    s.(ptk := s.ptk.(floor := pn), accepted := s.accepted + [Acceptance(s.ptk.instance, pn)])
  }

  predicate PnOk(s: Crypto, f: KeyFrame) { f.pn.Some? ==> s.ptk.floor < f.pn.value }

  /** The frame after its outer packet number has been checked. */
  function AfterPn(s: Crypto, f: KeyFrame): Crypto {
    if f.pn.Some? then AcceptPtk(s, f.pn.value) else s
  }

  /** The reply a decoded content deserves, and the state after it. */
  function ContentReply(s: Crypto, c: Content): Option<Reply>
    requires ShapeOk(s)
  {
    match c
    case Group(Some(m)) =>
      (match Judge(s, m)
       case Fresh(_) => Some(GroupMessage2(m.counter))
       case Repeat => Some(GroupMessage2(m.counter))
       case _ => None)
    case Pairwise(Some(m)) => if RetryOk(s, m) then Some(Message4(s.snonce, m.counter)) else None
    case _ => None
  }

  function AfterContent(s: Crypto, c: Content): Crypto
    requires ShapeOk(s)
  {
    match c
    case Group(Some(m)) => AcceptGroup(s, m)
    case Pairwise(Some(m)) => if RetryOk(s, m) then s.(counter := m.counter) else s
    case _ => s
  }

  function ReplyTo(s: Crypto, f: KeyFrame): Option<Reply>
    requires ShapeOk(s)
  {
    if PnOk(s, f) then ContentReply(AfterPn(s, f), f.content) else None
  }

  function HandleEapol(s: Crypto, f: KeyFrame): Crypto
    requires ShapeOk(s)
  {
    if PnOk(s, f) then AfterContent(AfterPn(s, f), f.content) else s
  }

  /** Does the replay check let a protected data frame through? */
  predicate Delivers(s: Crypto, isGroup: bool, keyId: nat, pn: nat)
    requires ShapeOk(s)
  {
    if isGroup then keyId < GROUP_KEYS && s.groupKeys[keyId].Some? && s.groupKeys[keyId].value.floor < pn
    else keyId == 0 && s.ptk.floor < pn
  }

  function HandleData(s: Crypto, isGroup: bool, keyId: nat, pn: nat): Crypto
    requires ShapeOk(s)
  {
    if !Delivers(s, isGroup, keyId, pn) then s
    else if isGroup then
      var k := s.groupKeys[keyId].value;
      s.(groupKeys := s.groupKeys[keyId := Some(k.(floor := pn))],
         accepted := s.accepted + [Acceptance(k.instance, pn)])
    else AcceptPtk(s, pn)
  }

  function DrawPn(s: Crypto): Crypto { s.(ptk := s.ptk.(nextPn := s.ptk.nextPn + 1)) }

  datatype Event = Eapol(frame: KeyFrame) | Data(isGroup: bool, keyId: nat, pn: nat) | Send

  function Step(s: Crypto, e: Event): Crypto
    requires ShapeOk(s)
  {
    match e
    case Eapol(f) => HandleEapol(s, f)
    case Data(isGroup, keyId, pn) => HandleData(s, isGroup, keyId, pn)
    case Send => DrawPn(s)
  }

  // ---------------------------------------------------------------- invariant

  /** Group keys sit at their own IDs, differ from each other, are what the
      hardware holds, and the active one is installed. */
  ghost predicate GroupInv(s: Crypto) {
    && ShapeOk(s) && s.groupKeys[s.activeId].Some?
    && (forall i :: 0 <= i < GROUP_KEYS ==>
         s.gtkSlots[i] == match s.groupKeys[i] case None => None case Some(k) => Some(HwKey(i, k.key, true)))
    && (forall i :: 0 <= i < GROUP_KEYS && s.groupKeys[i].Some? ==> s.groupKeys[i].value.keyId == i)
    && (forall i, j :: 0 <= i < j < GROUP_KEYS && s.groupKeys[i].Some? && s.groupKeys[j].Some? ==>
         s.groupKeys[i].value.key != s.groupKeys[j].value.key)
    && s.ptkSlot == Some(HwKey(0, s.ptk.key, false))
    && (s.lastGroup.Some? ==> s.lastGroup.value.counter <= s.counter)
  }

  /** Every installed key is its own instance, and its floor bounds all packet
      numbers accepted under it. */
  ghost predicate FloorInv(s: Crypto) {
    && ShapeOk(s)
    && s.ptk.instance < s.installs
    && (forall i :: 0 <= i < GROUP_KEYS && s.groupKeys[i].Some? ==>
         s.groupKeys[i].value.instance < s.installs && s.groupKeys[i].value.instance != s.ptk.instance)
    && (forall i, j :: 0 <= i < j < GROUP_KEYS && s.groupKeys[i].Some? && s.groupKeys[j].Some? ==>
         s.groupKeys[i].value.instance != s.groupKeys[j].value.instance)
    && (forall a :: 0 <= a < |s.accepted| ==> s.accepted[a].instance < s.installs)
    && (forall a :: 0 <= a < |s.accepted| && s.accepted[a].instance == s.ptk.instance ==>
         s.accepted[a].pn <= s.ptk.floor)
    && (forall i, a :: 0 <= i < GROUP_KEYS && s.groupKeys[i].Some? && 0 <= a < |s.accepted| ==>
         s.accepted[a].instance == s.groupKeys[i].value.instance ==> s.accepted[a].pn <= s.groupKeys[i].value.floor)
    && StrictPerInstance(s.accepted)
  }

  ghost predicate StrictPerInstance(log: seq<Acceptance>) {
    forall a, b :: 0 <= a < b < |log| && log[a].instance == log[b].instance ==> log[a].pn < log[b].pn
  }

  ghost predicate Inv(s: Crypto) { GroupInv(s) && FloorInv(s) }

  lemma NewInv(anonce: Nonce, snonce: Nonce, ptk: Key, m3: Message3)
    requires m3.gtkId < GROUP_KEYS
    ensures Inv(NewCrypto(anonce, snonce, ptk, m3))
  {
  }

  lemma AcceptGroupGroupInv(s: Crypto, m: GroupMessage1)
    requires GroupInv(s)
    ensures GroupInv(AcceptGroup(s, m))
  {
  }

  lemma StepGroupInv(s: Crypto, e: Event)
    requires GroupInv(s)
    ensures GroupInv(Step(s, e))
  {
    if e.Eapol? && e.frame.content.Group? && e.frame.content.g1.Some? && PnOk(s, e.frame) {
      AcceptGroupGroupInv(AfterPn(s, e.frame), e.frame.content.g1.value);
    } else if e.Data? {
      DataGroupInv(s, e.isGroup, e.keyId, e.pn);
    }
  }

  lemma DataGroupInv(s: Crypto, isGroup: bool, keyId: nat, pn: nat)
    requires GroupInv(s)
    ensures GroupInv(HandleData(s, isGroup, keyId, pn))
  {
  }

  lemma AcceptPtkFloorInv(s: Crypto, pn: nat)
    requires FloorInv(s) && s.ptk.floor < pn
    ensures FloorInv(AcceptPtk(s, pn))
  {
  }

  lemma AcceptGroupFloorInv(s: Crypto, m: GroupMessage1)
    requires FloorInv(s)
    ensures FloorInv(AcceptGroup(s, m))
  {
  }

  lemma DataFloorInv(s: Crypto, isGroup: bool, keyId: nat, pn: nat)
    requires FloorInv(s)
    ensures FloorInv(HandleData(s, isGroup, keyId, pn))
  {
    if Delivers(s, isGroup, keyId, pn) && !isGroup {
      AcceptPtkFloorInv(s, pn);
    }
  }

  lemma EapolFloorInv(s: Crypto, f: KeyFrame)
    requires FloorInv(s)
    ensures FloorInv(HandleEapol(s, f))
  {
    if PnOk(s, f) {
      if f.pn.Some? {
        AcceptPtkFloorInv(s, f.pn.value);
      }
      if f.content.Group? && f.content.g1.Some? {
        AcceptGroupFloorInv(AfterPn(s, f), f.content.g1.value);
      }
    }
  }

  lemma StepInv(s: Crypto, e: Event)
    requires Inv(s)
    ensures Inv(Step(s, e))
  {
    StepGroupInv(s, e);
    hide GroupInv;
    match e
    case Eapol(f) => EapolFloorInv(s, f);
    case Data(isGroup, keyId, pn) => DataFloorInv(s, isGroup, keyId, pn);
    case Send =>
  }

  // ------------------------------------------------------------------- runs

  /** The life of one connection's keys. */
  ghost predicate IsRun(ss: seq<Crypto>, es: seq<Event>) {
    && |ss| == |es| + 1 && Inv(ss[0])
    && forall i :: 0 <= i < |es| ==> ShapeOk(ss[i]) && ss[i + 1] == Step(ss[i], es[i])
  }

  lemma {:induction false} RunInv(ss: seq<Crypto>, es: seq<Event>, i: nat)
    requires IsRun(ss, es) && i < |ss|
    ensures Inv(ss[i])
  {
    hide Inv, Step;
    if i != 0 {
      RunInv(ss, es, i - 1);
      StepInv(ss[i - 1], es[i - 1]);
    }
  }

  /** The key instance and number a step lets through, if it does. */
  function Accepts(s: Crypto, e: Event): Option<Acceptance>
    requires ShapeOk(s)
  {
    match e
    case Eapol(f) => if f.pn.Some? && PnOk(s, f) then Some(Acceptance(s.ptk.instance, f.pn.value)) else None
    case Data(isGroup, keyId, pn) =>
      if !Delivers(s, isGroup, keyId, pn) then None
      else Some(Acceptance(if isGroup then s.groupKeys[keyId].value.instance else s.ptk.instance, pn))
    case Send => None
  }

  lemma StepLog(s: Crypto, e: Event)
    requires ShapeOk(s)
    ensures Step(s, e).accepted == s.accepted + match Accepts(s, e) case None => [] case Some(a) => [a]
  {
  }

  lemma {:induction false} LogGrows(ss: seq<Crypto>, es: seq<Event>, i: nat, j: nat)
    requires IsRun(ss, es) && i <= j < |ss|
    ensures ss[i].accepted <= ss[j].accepted
    decreases j
  {
    if i < j {
      LogGrows(ss, es, i, j - 1);
      StepLog(ss[j - 1], es[j - 1]);
    }
  }

  /** Under one key instance, data and protected EAPOL frames together are let
      through with strictly increasing packet numbers only, in every run. */
  lemma ReplaySafety(ss: seq<Crypto>, es: seq<Event>, a: nat, b: nat, x: Acceptance, y: Acceptance)
    requires IsRun(ss, es) && a < b < |es|
    requires Accepts(ss[a], es[a]) == Some(x) && Accepts(ss[b], es[b]) == Some(y)
    requires x.instance == y.instance
    ensures x.pn < y.pn
  {
    RunInv(ss, es, b + 1);
    StepLog(ss[a], es[a]);
    StepLog(ss[b], es[b]);
    LogGrows(ss, es, a + 1, b);
    hide Step, Accepts, GroupInv;
    var log := ss[b + 1].accepted;
    var k := |ss[a].accepted|;
    assert log[k] == x && log[|log| - 1] == y && k < |log| - 1;
  }

  /** The floor of the key at `id`, if the same installation is still there. */
  predicate SameInstance(s: Crypto, t: Crypto, id: nat) {
    && id < |s.groupKeys| && id < |t.groupKeys| && s.groupKeys[id].Some? && t.groupKeys[id].Some?
    && s.groupKeys[id].value.instance == t.groupKeys[id].value.instance
  }

  /** From `s` to `t` nothing that protects against replay was weakened: a key
      still installed at `id` has not lowered its floor, and any other key there
      is a later installation. */
  ghost predicate Evolves(s: Crypto, t: Crypto, id: nat) {
    && ShapeOk(s) && ShapeOk(t) && id < GROUP_KEYS && t.installs >= s.installs
    && t.ptk.key == s.ptk.key && t.ptk.instance == s.ptk.instance
    && t.ptk.floor >= s.ptk.floor && t.ptk.nextPn >= s.ptk.nextPn
    && t.counter >= s.counter
    && (SameInstance(s, t, id) ==>
          && t.groupKeys[id].value.key == s.groupKeys[id].value.key
          && t.groupKeys[id].value.floor >= s.groupKeys[id].value.floor)
    && (t.groupKeys[id].Some? ==> SameInstance(s, t, id) || t.groupKeys[id].value.instance >= s.installs)
    && (t.groupKeys[id].None? ==> s.groupKeys[id].None?)
  }

  lemma StepEvolves(s: Crypto, e: Event, id: nat)
    requires FloorInv(s) && id < GROUP_KEYS
    ensures Evolves(s, Step(s, e), id)
  {
    if e.Eapol? {
      var f := e.frame;
      if PnOk(s, f) {
        EvolvesSelf(s, id);
        if f.pn.Some? {
          AcceptPtkFloorInv(s, f.pn.value);
        }
        ContentEvolves(AfterPn(s, f), f.content, id);
        hide AfterContent;
      }
    }
  }

  lemma ContentEvolves(s: Crypto, c: Content, id: nat)
    requires FloorInv(s) && id < GROUP_KEYS
    ensures Evolves(s, AfterContent(s, c), id)
  {
    hide Elsewhere;
  }

  lemma EvolvesOn(s: Crypto, t: Crypto, u: Crypto, id: nat)
    requires FloorInv(s) && Evolves(s, t, id) && Evolves(t, u, id)
    ensures Evolves(s, u, id)
  {
  }

  /** While a key stays installed its receive floor never goes down. */
  lemma {:induction false} FloorsNeverFall(ss: seq<Crypto>, es: seq<Event>, i: nat, j: nat, id: nat)
    requires IsRun(ss, es) && i <= j < |ss| && id < GROUP_KEYS
    ensures Evolves(ss[i], ss[j], id)
    decreases j
  {
    hide Inv, FloorInv, Step, Evolves;
    RunFloor(ss, es, i);
    if i == j {
      EvolvesSelf(ss[i], id);
    } else {
      RunFloor(ss, es, j - 1);
      FloorsNeverFall(ss, es, i, j - 1, id);
      StepEvolves(ss[j - 1], es[j - 1], id);
      EvolvesOn(ss[i], ss[j - 1], ss[j], id);
    }
  }

  lemma RunFloor(ss: seq<Crypto>, es: seq<Event>, i: nat)
    requires IsRun(ss, es) && i < |ss|
    ensures FloorInv(ss[i])
  {
    RunInv(ss, es, i);
    hide FloorInv, IsRun;
  }

  lemma EvolvesSelf(s: Crypto, id: nat)
    requires FloorInv(s) && id < GROUP_KEYS
    ensures Evolves(s, s, id)
  {
  }

  /** The hardware is programmed exactly for a new key: the step installs at the
      message's ID a key that was not there, with the message's RSC as floor, and
      leaves every other ID alone. */
  lemma ProgramsOnlyNewKeys(s: Crypto, e: Event)
    requires Inv(s)
    ensures var t := Step(s, e);
            if t.installs == s.installs then t.gtkSlots == s.gtkSlots && t.ptkSlot == s.ptkSlot
            else
              && e.Eapol? && e.frame.content.Group? && e.frame.content.g1.Some?
              && var m := e.frame.content.g1.value;
                 && m.keyId < GROUP_KEYS && m.counter > s.counter
                 && s.gtkSlots[m.keyId] != Some(HwKey(m.keyId, m.key, true))
                 && t.gtkSlots == s.gtkSlots[m.keyId := Some(HwKey(m.keyId, m.key, true))]
                 && t.groupKeys[m.keyId] == Some(Tksa(m.key, m.keyId, m.rsc, 1, s.installs))
                 && t.installs == s.installs + 1
                 && forall i :: 0 <= i < GROUP_KEYS && i != m.keyId ==> t.groupKeys[i] == s.groupKeys[i]
  {
    hide FloorInv;
  }

  /** A data frame moves at most the floor of the key its wire ID names. */
  lemma DataMovesOneFloor(s: Crypto, isGroup: bool, keyId: nat, pn: nat)
    requires Inv(s)
    ensures var t := Step(s, Data(isGroup, keyId, pn));
            && (isGroup ==> t.ptk == s.ptk)
            && (!isGroup ==> t.groupKeys == s.groupKeys)
            && (!isGroup && keyId != 0 ==> t == s)
            && (forall i :: 0 <= i < GROUP_KEYS && i != keyId ==> t.groupKeys[i] == s.groupKeys[i])
            && t.counter == s.counter && t.activeId == s.activeId && t.gtkSlots == s.gtkSlots
  {
  }

  /** A key frame that gets no reply changes nothing but the pairwise floor. */
  lemma UnansweredIsInert(s: Crypto, f: KeyFrame)
    requires Inv(s) && ReplyTo(s, f).None?
    ensures var t := HandleEapol(s, f);
            t == s.(ptk := s.ptk.(floor := t.ptk.floor), accepted := t.accepted)
            && t.ptk.floor >= s.ptk.floor
  {
    hide FloorInv;
  }

  /** Every reply carries the counter after its step, which never goes down, and
      goes up unless the frame repeats the last group message exactly; such a
      repeat is always answered and changes nothing but the pairwise floor. */
  lemma AnsweredFrame(s: Crypto, f: KeyFrame)
    requires Inv(s)
    ensures var t := HandleEapol(s, f);
            var repeat := f.content.Group? && f.content.g1.Some?
                          && s.lastGroup == f.content.g1 && f.content.g1.value.counter == s.counter;
            && t.counter >= s.counter
            && (ReplyTo(s, f).Some? ==> ReplyTo(s, f).value.counter == t.counter)
            && (ReplyTo(s, f).Some? && !repeat ==> t.counter > s.counter)
            && (repeat && PnOk(s, f) ==>
                  && ReplyTo(s, f) == Some(GroupMessage2(s.counter))
                  && t == s.(ptk := s.ptk.(floor := t.ptk.floor), accepted := t.accepted))
  {
    hide FloorInv;
  }

  // ---------------------------------------------------------- what gets through

  /** The key installed at an ID. */
  function KeyAt(s: Crypto, id: nat): Option<Key>
    requires ShapeOk(s)
  {
    if id < GROUP_KEYS && s.groupKeys[id].Some? then Some(s.groupKeys[id].value.key) else None
  }

  /** A new group message: a larger counter and a key no other ID has. */
  ghost predicate NewGroup(s: Crypto, m: GroupMessage1)
    requires ShapeOk(s)
  {
    && m.counter > s.counter && m.keyId < GROUP_KEYS
    && forall id :: 0 <= id < GROUP_KEYS && id != m.keyId ==> KeyAt(s, id) != Some(m.key)
  }

  lemma ElsewhereMeans(s: Crypto, id: nat, key: Key)
    requires ShapeOk(s)
    ensures Elsewhere(s.groupKeys, id, key)
            <==> exists k :: 0 <= k < GROUP_KEYS && k != id && KeyAt(s, k) == Some(key)
  {
    if Elsewhere(s.groupKeys, id, key) {
      var i :| 0 <= i < GROUP_KEYS && i != id && s.groupKeys[i].Some? && s.groupKeys[i].value.key == key;
      assert KeyAt(s, i) == Some(key);
    }
  }

  /** A key frame that gets past the packet number check is answered exactly when
      it is a new group message, the last one once more, or an M3 of this session's
      nonce for the active key and ID with a larger counter. */
  lemma AnsweredExactly(s: Crypto, f: KeyFrame)
    requires Inv(s) && PnOk(s, f)
    ensures ReplyTo(s, f)
            == match f.content
               case Group(Some(m)) =>
                 if NewGroup(s, m) || (s.lastGroup == Some(m) && m.counter == s.counter)
                 then Some(GroupMessage2(m.counter)) else None
               case Pairwise(Some(m)) =>
                 if && m.nonce == s.anonce && m.counter > s.counter
                    && m.gtkId == s.activeId && Some(m.gtk) == KeyAt(s, s.activeId)
                 then Some(Message4(s.snonce, m.counter)) else None
               case _ => None
  {
    hide FloorInv;
    if f.content.Group? && f.content.g1.Some? {
      ElsewhereMeans(s, f.content.g1.value.keyId, f.content.g1.value.key);
      hide Elsewhere;
    }
  }

  /** A protected key frame whose number is not above the pairwise floor is neither
      answered nor looked at. A clear one, or one with a larger number, is. */
  lemma StaleFrameIsInert(s: Crypto, f: KeyFrame)
    requires Inv(s)
    ensures PnOk(s, f) <==> (f.pn.None? || f.pn.value > s.ptk.floor)
    ensures f.pn.Some? && f.pn.value <= s.ptk.floor ==> ReplyTo(s, f).None? && HandleEapol(s, f) == s
  {
    hide GroupInv, FloorInv;
  }

  /** The whole effect of a new group message: its key is installed at its ID and
      active, the counter is its own, and it is the one to be answered again. A key
      that was there keeps its floor and instance; one that was not starts at the
      message's RSC. Nothing else changes but the pairwise floor. */
  lemma NewGroupTakesEffect(s: Crypto, f: KeyFrame, m: GroupMessage1)
    requires Inv(s) && PnOk(s, f) && f.content == Group(Some(m)) && NewGroup(s, m)
    ensures var t := HandleEapol(s, f);
            && ShapeOk(t) && t.activeId == m.keyId && KeyAt(t, m.keyId) == Some(m.key)
            && t.counter == m.counter && t.lastGroup == Some(m)
            && t.gtkSlots[m.keyId] == Some(HwKey(m.keyId, m.key, true))
            && (KeyAt(s, m.keyId) == Some(m.key) ==> t.groupKeys == s.groupKeys && t.gtkSlots == s.gtkSlots)
            && (KeyAt(s, m.keyId) != Some(m.key) ==> t.groupKeys[m.keyId].value.floor == m.rsc)
            && (forall i :: 0 <= i < GROUP_KEYS && i != m.keyId ==>
                  t.groupKeys[i] == s.groupKeys[i] && t.gtkSlots[i] == s.gtkSlots[i])
            && t.anonce == s.anonce && t.snonce == s.snonce && t.ptkSlot == s.ptkSlot
            && t.ptk == s.ptk.(floor := if f.pn.Some? then f.pn.value else s.ptk.floor)
  {
    hide FloorInv;
    ElsewhereMeans(s, m.keyId, m.key);
    hide Elsewhere;
  }

  /** An M3 retry that is answered moves the counter to its own, and nothing else
      but the pairwise floor. */
  lemma RetryTakesEffect(s: Crypto, f: KeyFrame, m: Message3)
    requires Inv(s) && f.content == Pairwise(Some(m)) && ReplyTo(s, f).Some?
    ensures var t := HandleEapol(s, f);
            t == s.(counter := m.counter, ptk := t.ptk, accepted := t.accepted)
            && t.ptk == s.ptk.(floor := if f.pn.Some? then f.pn.value else s.ptk.floor)
  {
    hide FloorInv;
  }

  /** What a protected frame needs to get through, and the floor it leaves: group
      data under any installed ID, active or not, pairwise data under ID 0, and key
      frames, each exactly above the floor of its key. */
  lemma DeliveredExactly(s: Crypto, id: nat, pn: nat)
    requires Inv(s)
    ensures Accepts(s, Data(true, id, pn)).Some?
            <==> id < GROUP_KEYS && s.groupKeys[id].Some? && s.groupKeys[id].value.floor < pn
    ensures Accepts(s, Data(true, id, pn)).Some? ==>
              Step(s, Data(true, id, pn)).groupKeys[id] == Some(s.groupKeys[id].value.(floor := pn))
    ensures Accepts(s, Data(false, id, pn)).Some? <==> id == 0 && s.ptk.floor < pn
    ensures Accepts(s, Data(false, id, pn)).Some? ==> Step(s, Data(false, id, pn)).ptk.floor == pn
    ensures forall c: Content ::
              && (Accepts(s, Eapol(KeyFrame(Some(pn), c))).Some? <==> s.ptk.floor < pn)
              && (s.ptk.floor < pn ==> Step(s, Eapol(KeyFrame(Some(pn), c))).ptk.floor == pn)
  {
    assert ShapeOk(s);
    hide GroupInv, FloorInv;
    forall c: Content
      ensures Accepts(s, Eapol(KeyFrame(Some(pn), c))).Some? <==> s.ptk.floor < pn
      ensures s.ptk.floor < pn ==> Step(s, Eapol(KeyFrame(Some(pn), c))).ptk.floor == pn
    {
      KeyFramePn(s, pn, c);
    }
  }

  lemma KeyFramePn(s: Crypto, pn: nat, c: Content)
    requires ShapeOk(s)
    ensures Accepts(s, Eapol(KeyFrame(Some(pn), c))).Some? <==> s.ptk.floor < pn
    ensures s.ptk.floor < pn ==> Step(s, Eapol(KeyFrame(Some(pn), c))).ptk.floor == pn
  {
  }

  /** A new connection: the session's nonces and M3's counter, its key alone and
      active, both receive floors at 0, so that number 1 is accepted, and 1 the
      next number to send. */
  lemma NewConnection(anonce: Nonce, snonce: Nonce, ptk: Key, m3: Message3, c: Content)
    requires m3.gtkId < GROUP_KEYS
    ensures var s := NewCrypto(anonce, snonce, ptk, m3);
            && s.anonce == anonce && s.snonce == snonce && s.counter == m3.counter && s.lastGroup.None?
            && s.activeId == m3.gtkId && s.ptk.key == ptk && s.ptk.nextPn == 1
            && (forall id :: 0 <= id < GROUP_KEYS ==> KeyAt(s, id) == if id == m3.gtkId then Some(m3.gtk) else None)
            && Accepts(s, Data(true, m3.gtkId, 1)).Some? && Accepts(s, Data(false, 0, 1)).Some?
            && Accepts(s, Eapol(KeyFrame(Some(1), c))).Some?
            && s.accepted == []
  {
  }

  // ------------------------------------------- nothing new is taken for a replay

  /** A step moves the floor of an installed key only to a number it lets through. */
  lemma FloorByOneStep(s: Crypto, e: Event, id: nat)
    requires FloorInv(s) && id < GROUP_KEYS
    ensures var t := Step(s, e);
            && (SameInstance(s, t, id) && t.groupKeys[id].value.floor != s.groupKeys[id].value.floor ==>
                  Accepts(s, e) == Some(Acceptance(s.groupKeys[id].value.instance, t.groupKeys[id].value.floor)))
            && t.ptk.instance == s.ptk.instance
            && (t.ptk.floor != s.ptk.floor ==> Accepts(s, e) == Some(Acceptance(s.ptk.instance, t.ptk.floor)))
  {
  }

  lemma StepOfRun(ss: seq<Crypto>, es: seq<Event>, i: nat)
    requires IsRun(ss, es) && i + 1 < |ss|
    ensures |ss| == |es| + 1 && FloorInv(ss[i]) && ShapeOk(ss[i]) && ss[i + 1] == Step(ss[i], es[i])
  {
    hide Inv, FloorInv, Step;
    RunFloor(ss, es, i);
  }

  /** Every number accepted under this instance from step `i` to `j` is below `pn`. */
  ghost predicate AllBelow(ss: seq<Crypto>, es: seq<Event>, i: nat, j: nat, instance: nat, pn: nat)
    requires j <= |es| <= |ss|
  {
    forall k :: i <= k < j && ShapeOk(ss[k]) ==>
      match Accepts(ss[k], es[k]) case None => true case Some(a) => a.instance == instance ==> a.pn < pn
  }

  /** Still the same installation later means it was so in between. */
  lemma SameAllAlong(s: Crypto, t: Crypto, u: Crypto, id: nat)
    requires FloorInv(s) && FloorInv(t) && Evolves(s, t, id) && Evolves(t, u, id) && SameInstance(s, u, id)
    ensures SameInstance(s, t, id) && SameInstance(t, u, id)
  {
  }

  /** In every run, while a group key stays installed, a number above its floor at
      some time and above all numbers accepted under it since is accepted. From the
      installation on, that floor is the message's RSC. */
  lemma {:induction false} FloorStaysBelow(ss: seq<Crypto>, es: seq<Event>, i: nat, j: nat, id: nat, pn: nat)
    requires IsRun(ss, es) && i <= j < |ss| == |es| + 1 && id < GROUP_KEYS && SameInstance(ss[i], ss[j], id)
    requires ss[i].groupKeys[id].value.floor < pn
    requires AllBelow(ss, es, i, j, ss[i].groupKeys[id].value.instance, pn)
    ensures ss[j].groupKeys[id].value.floor < pn
    decreases j
  {
    hide IsRun, Inv, FloorInv, Step, Evolves, Accepts;
    if i < j {
      StepOfRun(ss, es, j - 1);
      RunFloor(ss, es, i);
      FloorsNeverFall(ss, es, i, j - 1, id);
      StepEvolves(ss[j - 1], es[j - 1], id);
      SameAllAlong(ss[i], ss[j - 1], ss[j], id);
      FloorStaysBelow(ss, es, i, j - 1, id, pn);
      FloorByOneStep(ss[j - 1], es[j - 1], id);
    }
  }

  lemma {:induction false} PairwiseFloorStaysBelow(ss: seq<Crypto>, es: seq<Event>, i: nat, j: nat, pn: nat)
    requires IsRun(ss, es) && i <= j < |ss| == |es| + 1 && ss[i].ptk.floor < pn
    requires AllBelow(ss, es, i, j, ss[i].ptk.instance, pn)
    ensures ss[j].ptk.floor < pn && ss[j].ptk.instance == ss[i].ptk.instance
    decreases j
  {
    hide IsRun, Inv, FloorInv, Step, Accepts;
    if i < j {
      StepOfRun(ss, es, j - 1);
      PairwiseFloorStaysBelow(ss, es, i, j - 1, pn);
      FloorByOneStep(ss[j - 1], es[j - 1], 0);
    }
  }

  lemma NothingNewIsDropped(ss: seq<Crypto>, es: seq<Event>, i: nat, j: nat, id: nat, pn: nat)
    requires IsRun(ss, es) && i <= j < |ss| == |es| + 1 && id < GROUP_KEYS && SameInstance(ss[i], ss[j], id)
    requires ss[i].groupKeys[id].value.floor < pn
    requires AllBelow(ss, es, i, j, ss[i].groupKeys[id].value.instance, pn)
    ensures ShapeOk(ss[j])
    ensures Accepts(ss[j], Data(true, id, pn)) == Some(Acceptance(ss[i].groupKeys[id].value.instance, pn))
  {
    FloorStaysBelow(ss, es, i, j, id, pn);
    RunFloor(ss, es, j);
    hide IsRun, AllBelow;
  }

  /** The same for data and key frames under the pairwise key. */
  lemma NothingNewIsDroppedPairwise(ss: seq<Crypto>, es: seq<Event>, i: nat, j: nat, pn: nat, c: Content)
    requires IsRun(ss, es) && i <= j < |ss| == |es| + 1 && ss[i].ptk.floor < pn
    requires AllBelow(ss, es, i, j, ss[i].ptk.instance, pn)
    ensures ShapeOk(ss[j])
    ensures Accepts(ss[j], Data(false, 0, pn)) == Some(Acceptance(ss[i].ptk.instance, pn))
    ensures Accepts(ss[j], Eapol(KeyFrame(Some(pn), c))) == Some(Acceptance(ss[i].ptk.instance, pn))
  {
    PairwiseFloorStaysBelow(ss, es, i, j, pn);
    RunFloor(ss, es, j);
    hide IsRun, AllBelow;
  }
}
