/** The key state as the station updates it in place. Each operation is proved
    to take the abstract state where `Rsn` says. */
module CryptoStates {
  import opened Basics
  import opened Rsn

  class CryptoState {
    const anonce: Nonce
    const snonce: Nonce
    var counter: nat
    var ptk: Tksa
    var groupKeys: seq<Option<Tksa>>
    var activeId: nat
    var lastGroup: Option<GroupMessage1>
    var gtkSlots: seq<Option<HwKey>>
    var ptkSlot: Option<HwKey>
    var installs: nat
    ghost var accepted: seq<Acceptance>

    ghost function View(): Crypto
      reads this
    {
      Crypto(anonce, snonce, counter, ptk, groupKeys, activeId, lastGroup, gtkSlots, ptkSlot, installs, accepted)
    }

    ghost predicate Valid()
      reads this
    {
      Inv(View())
    }

    /** The keys agreed in the handshake, programmed into slots that hold none. */
    constructor (anonce: Nonce, snonce: Nonce, ptkKey: Key, m3: Message3)
      requires m3.gtkId < GROUP_KEYS
      ensures Valid() && View() == NewCrypto(anonce, snonce, ptkKey, m3)
    {
      this.anonce, this.snonce, this.counter := anonce, snonce, m3.counter;
      ptk := Tksa(ptkKey, 0, 0, 1, 0);
      var keys: seq<Option<Tksa>> := [None, None, None, None];
      groupKeys := keys[m3.gtkId := Some(Tksa(m3.gtk, m3.gtkId, 0, 1, 1))];
      activeId := m3.gtkId;
      lastGroup := None;
      gtkSlots := [None, None, None, None];
      ptkSlot := None;
      installs := 1;
      accepted := [];
      new;
      ptkSlot := Some(HwKey(0, ptk.key, false));
      ProgramGroupKey(activeId);
      NewInv(anonce, snonce, ptkKey, m3);
    }

    method ProgramGroupKey(id: nat)
      requires id < |groupKeys| == |gtkSlots| && groupKeys[id].Some?
      modifies this`gtkSlots, this`installs
      ensures gtkSlots == old(gtkSlots)[id := Some(HwKey(id, groupKeys[id].value.key, true))]
      ensures installs == old(installs) + 1
    {
      gtkSlots := gtkSlots[id := Some(HwKey(id, groupKeys[id].value.key, true))];
      installs := installs + 1;
    }

    /** `iter().any(...)` over the four key IDs. */
    method KeyElsewhere(id: nat, key: Key) returns (found: bool)
      ensures found == Elsewhere(groupKeys, id, key)
    {
      for i := 0 to |groupKeys|
        invariant forall k :: 0 <= k < i ==> k == id || groupKeys[k].None? || groupKeys[k].value.key != key
      {
        if i != id && groupKeys[i].Some? && groupKeys[i].value.key == key {
          return true;
        }
      }
      found := false;
    }

    /** `None`: not for us; otherwise whether a key was installed. */
    method AcceptGroupMessage(m: GroupMessage1) returns (installed: Option<bool>)
      requires Valid()
      modifies this
      ensures Valid() && View() == AcceptGroup(old(View()), m)
      ensures installed == Verdict(Judge(old(View()), m))
    {
      AcceptGroupGroupInv(View(), m);
      AcceptGroupFloorInv(View(), m);
      assert ShapeOk(View());
      hide GroupInv, FloorInv, AcceptGroup, Judge;
      installed := CommitGroup(m);
    }

    static function Verdict(v: Rsn.Verdict): Option<bool> {
      match v
      case Fresh(install) => Some(install)
      case Repeat => Some(false)
      case _ => None
    }

    method CommitGroup(m: GroupMessage1) returns (installed: Option<bool>)
      requires ShapeOk(View())
      modifies this
      ensures View() == AcceptGroup(old(View()), m)
      ensures installed == Verdict(Judge(old(View()), m))
    {
      hide Elsewhere;
      if m.counter < counter {
        return None;
      }
      if m.counter == counter {
        return if lastGroup == Some(m) then Some(false) else None;
      }
      if m.keyId >= |groupKeys| {
        return None;
      }
      var elsewhere := KeyElsewhere(m.keyId, m.key);
      if elsewhere {
        return None;
      }
      var already := groupKeys[m.keyId].Some? && groupKeys[m.keyId].value.key == m.key;
      if !already {
        groupKeys := groupKeys[m.keyId := Some(Tksa(m.key, m.keyId, m.rsc, 1, installs))];
        ProgramGroupKey(m.keyId);
      }
      activeId := m.keyId;
      counter := m.counter;
      lastGroup := Some(m);
      installed := Some(!already);
    }

    /** The M3 retry path: it can move nothing but the EAPOL counter. */
    method AcceptMessage3(m: Message3) returns (answer: Option<nat>)
      requires Valid()
      modifies this`counter
      ensures Valid()
      ensures answer == if RetryOk(old(View()), m) then Some(m.counter) else None
      ensures View() == if RetryOk(old(View()), m) then old(View()).(counter := m.counter) else old(View())
    {
      var gtk := groupKeys[activeId].value;
      if m.nonce != anonce || m.counter <= counter {
        return None;
      }
      if m.gtk != gtk.key || m.gtkId != gtk.keyId {
        return None;
      }
      counter := m.counter;
      answer := Some(counter);
    }

    method ValidatePairwise(pn: nat) returns (valid: bool)
      requires Valid()
      modifies this`ptk, this`accepted
      ensures Valid() && valid == (old(ptk.floor) < pn)
      ensures View() == if valid then AcceptPtk(old(View()), pn) else old(View())
    {
      valid := ptk.floor < pn;
      if valid {
        AcceptPtkFloorInv(View(), pn);
        ptk := ptk.(floor := pn);
        accepted := accepted + [Acceptance(ptk.instance, pn)];
      }
    }

    method Answer(c: Content) returns (reply: Option<Reply>)
      requires Valid()
      modifies this
      ensures Valid() && View() == AfterContent(old(View()), c) && reply == ContentReply(old(View()), c)
    {
      hide GroupInv, FloorInv;
      match c {
        case Group(None) => reply := None;
        case Pairwise(None) => reply := None;
        case Group(Some(m)) =>
          var installed := AcceptGroupMessage(m);
          reply := if installed.Some? then Some(GroupMessage2(m.counter)) else None;
        case Pairwise(Some(m)) =>
          var answer := AcceptMessage3(m);
          reply := if answer.Some? then Some(Message4(snonce, answer.value)) else None;
      }
    }

    /** A key frame of the connected station, from packet number to reply. */
    method HandleEapolRetry(f: KeyFrame) returns (reply: Option<Reply>)
      requires Valid()
      modifies this
      ensures Valid() && View() == HandleEapol(old(View()), f) && reply == ReplyTo(old(View()), f)
    {
      hide GroupInv, FloorInv, AfterContent, ContentReply;
      if f.pn.Some? {
        var valid := ValidatePairwise(f.pn.value);
        if !valid {
          return None;
        }
      }
      assert View() == AfterPn(old(View()), f);
      reply := Answer(f.content);
    }

    /** The replay gate of a protected data frame. */
    method ProcessWrappedPayload(isGroup: bool, keyId: nat, pn: nat) returns (delivered: bool)
      requires Valid()
      modifies this`ptk, this`groupKeys, this`accepted
      ensures Valid()
      ensures delivered == Delivers(old(View()), isGroup, keyId, pn)
      ensures View() == HandleData(old(View()), isGroup, keyId, pn)
    {
      assert ShapeOk(View());
      hide GroupInv, FloorInv;
      DataFloorInv(View(), isGroup, keyId, pn);
      DataGroupInv(View(), isGroup, keyId, pn);
      if isGroup {
        if keyId >= |groupKeys| || groupKeys[keyId].None? {
          return false;
        }
        var key := groupKeys[keyId].value;
        delivered := key.floor < pn;
        if delivered {
          groupKeys := groupKeys[keyId := Some(key.(floor := pn))];
          accepted := accepted + [Acceptance(key.instance, pn)];
        }
      } else if keyId == 0 {
        delivered := ValidatePairwise(pn);
      } else {
        delivered := false;
      }
    }

    method NextPacketNumber() returns (pn: nat)
      requires Valid()
      modifies this`ptk
      ensures Valid() && View() == DrawPn(old(View())) && pn == old(ptk.nextPn)
    {
      hide GroupInv, FloorInv;
      StepInv(View(), Send);
      pn := ptk.nextPn;
      ptk := ptk.(nextPn := pn + 1);
    }
  }
}
