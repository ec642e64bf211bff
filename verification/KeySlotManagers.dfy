/** The key slot manager as it works in place: a 32-bit mask of free slots and the
    hardware key table, proved to follow `KeySlots`. */
module KeySlotManagers {
  import opened Basics
  import opened SlotMask
  import opened KeySlots
  import Rsn

  function FreeSlots(mask: bv32, count: nat): set<nat>
    requires count <= 32
  {
    set k: nat | k < count && BitSet(mask, k)
  }

  /** On masks, clearing and setting a bit is removing and adding a slot. */
  lemma MaskIsSet(mask: bv32, count: nat, k: nat)
    requires k < count <= 32
    ensures FreeSlots(Clear(mask, Bit(k)), count) == FreeSlots(mask, count) - {k}
    ensures FreeSlots(Raise(mask, Bit(k)), count) == FreeSlots(mask, count) + {k}
  {
    forall j: nat | j < count
      ensures BitSet(Clear(mask, Bit(k)), j) <==> j != k && BitSet(mask, j)
      ensures BitSet(Raise(mask, Bit(k)), j) <==> j == k || BitSet(mask, j)
    {
      OneBit(mask, k, j);
    }
    hide BitSet, Clear, Raise, Bit;
  }

  lemma AllFree(count: nat)
    requires count <= 32
    ensures FreeSlots(0xFFFF_FFFF, count) == Buffers(count)
  {
    forall j: nat | j < count
      ensures BitSet(0xFFFF_FFFF, j)
    {
      AllSet(j);
    }
    hide BitSet;
  }

  class KeySlotManager {
    const count: nat
    var keySlotState: bv32
    var keys: seq<Option<Entry>>

    ghost predicate Valid()
      reads this
    {
      count <= 32 && |keys| == count
    }

    ghost function View(): Table
      requires Valid()
      reads this
    {
      Table(FreeSlots(keySlotState, count), keys)
    }

    constructor (count: nat)
      requires count <= 32
      ensures Valid() && this.count == count
      ensures View() == Fresh(count, 0).table
    {
      this.count := count;
      keySlotState := 0xFFFF_FFFF;
      keys := seq(count, _ => None);
      AllFree(count);
    }

    method AcquireKeySlot() returns (slot: Option<nat>)
      requires Valid()
      modifies this`keySlotState
      ensures Valid() && slot == FirstFree(old(View()), 0)
      ensures View() == match slot case None => old(View()) case Some(k) => Claim(old(View()), k)
    {
      hide BitSet, Clear, Bit;
      for i := 0 to count
        invariant keySlotState == old(keySlotState)
        invariant FirstFree(View(), 0) == FirstFree(View(), i)
      {
        if BitSet(keySlotState, i) {
          MaskIsSet(keySlotState, count, i);
          keySlotState := Clear(keySlotState, Bit(i));
          return Some(i);
        }
      }
      return None;
    }

    method DeleteKey(k: nat)
      requires Valid() && k < count
      modifies this`keys
      ensures keys == old(keys)[k := None]
    {
      keys := keys[k := None];
    }

    method ReleaseKeySlot(k: nat)
      requires Valid() && k < count
      modifies this
      ensures Valid() && View() == Release(old(View()), k)
    {
      hide BitSet, Raise, Bit;
      MaskIsSet(keySlotState, count, k);
      keySlotState := Raise(keySlotState, Bit(k));
      DeleteKey(k);
    }

    /** `KeySlot::drop`. */
    method DropKeySlot(k: nat)
      requires Valid() && k < count
      modifies this
      ensures Valid() && View() == Release(old(View()), k)
    {
      DeleteKey(k);
      ReleaseKeySlot(k);
    }

    method DropKeySlots(slots: seq<nat>)
      requires Valid() && InTable(View(), slots)
      modifies this
      ensures Valid() && View() == ReleaseAll(old(View()), slots)
    {
      hide FreeSlots;
      var i := 0;
      while i < |slots|
        invariant i <= |slots| && Valid()
        invariant ReleaseAll(View(), slots[i..]) == ReleaseAll(old(View()), slots)
      {
        assert slots[i..][0] == slots[i] && slots[i..][1..] == slots[i + 1..];
        DropKeySlot(slots[i]);
        i := i + 1;
      }
      assert slots[i..] == [];
    }

    method SetKey(k: nat, e: Entry)
      requires Valid() && k < count
      modifies this`keys
      ensures Valid() && View() == Program(old(View()), k, e)
    {
      keys := keys[k := Some(e)];
    }

    /** Ask for five slots, one after the other, keeping what comes. */
    method AcquireForConnection() returns (slots: seq<nat>)
      requires Valid()
      modifies this`keySlotState
      ensures Valid() && Take(old(View()), PER_CONNECTION) == (slots, View())
    {
      hide FreeSlots;
      slots := [];
      for i := 0 to PER_CONNECTION
        invariant Valid()
        invariant Take(old(View()), PER_CONNECTION).1 == Take(View(), PER_CONNECTION - i).1
        invariant Take(old(View()), PER_CONNECTION).0 == slots + Take(View(), PER_CONNECTION - i).0
      {
        ghost var before := View();
        var slot := AcquireKeySlot();
        if slot.Some? {
          assert Take(before, PER_CONNECTION - i).0 == [slot.value] + Take(View(), PER_CONNECTION - i - 1).0;
          slots := slots + [slot.value];
        }
      }
      assert Take(View(), 0).0 == [] && slots + [] == slots;
    }

    /** The slot part of starting to connect: all five, or none is kept. */
    method BeginAttempt(i: nat, st: Station, pskOk: bool) returns (attempt: seq<nat>)
      requires Valid() && TableOk(View()) && Sane(View(), st) && st.attempt == []
      modifies this
      ensures Valid() && StepOf(old(View()), i, st, Begin(i, pskOk)) == (View(), st.(attempt := attempt))
    {
      TakeIsLowest(View(), PER_CONNECTION);
      attempt := AcquireForConnection();
      hide FreeSlots, Take;
      if !pskOk || |attempt| < PER_CONNECTION {
        ElemsAt(attempt);
        DropKeySlots(attempt);
        attempt := [];
      }
    }

    /** The end of a successful attempt: program, install, drop the old state. */
    method CompleteAttempt(i: nat, st: Station, a: Agreed) returns (st': Station)
      requires Valid() && Sane(View(), st) && EnabledFor(st, Complete(i, a))
      modifies this
      ensures Valid() && StepOf(old(View()), i, st, Complete(i, a)) == (View(), st')
    {
      hide FreeSlots, ReleaseAll;
      SetKey(st.attempt[PTK], Entry(i, Rsn.HwKey(0, a.ptk, false)));
      SetKey(st.attempt[a.m3.gtkId], GroupEntry(i, a.m3.gtkId, a.m3.gtk));
      st' := Station([], Some(Link(st.attempt, Rsn.NewCrypto(a.anonce, a.snonce, a.ptk, a.m3))));
      DropKeySlots(LinkSlots(st));
    }
  }
}
