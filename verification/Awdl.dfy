/** AWDL slot arithmetic on microsecond clocks. Instants are unsigned 64-bit,
    epochs signed; a clock sample is passed in. */
module Awdl {
  import opened Basics

  const TU: nat := 1024
  const AW: nat := 16384
  const SLOT: nat := 65536
  const SEQUENCE: nat := 1048576
  const SLOTS: nat := 16
  const U64: nat := 0x1_0000_0000_0000_0000
  const AW_WRAP: nat := 0x4000_0000  // 2^16 availability windows

  /** `(now as i64 - epoch) as u64`. */
  function Elapsed(now: nat, epoch: int): nat { (now - epoch) % U64 }

  /** Sequence number of the availability window, truncated to 16 bits. */
  function AwSeqNumber(e: nat): nat { (e / AW) % 0x1_0000 }

  function RemainingAwLength(e: nat): nat { (e % AW) / TU }

  function CurrentSlotIndex(e: nat): nat { (AwSeqNumber(e) / 4) % SLOTS }

  function NextSlotIndex(e: nat): nat { (AwSeqNumber(e) / 4 + 1) % SLOTS }

  /** The slot a peer with this epoch is in at instant `t`, on exact integers. */
  function SlotAt(epoch: int, t: int): nat { ((t - epoch) / SLOT) % SLOTS }

  /** Quotient and remainder of a decomposed number. */
  lemma Divide(x: int, m: nat, q: int, r: nat)
    requires m >= 1 && r < m && x == m * q + r
    ensures x / m == q && x % m == r
  {
    var d := q - x / m;
    assert m * d == x % m - r;
    MultipleIsFar(m, d);
  }

  /** The elapsed time agrees with the true difference modulo a channel sequence
      and modulo the wrap of the window number, even for an epoch after now. */
  lemma ElapsedPhase(now: nat, epoch: int)
    ensures Elapsed(now, epoch) % SEQUENCE == (now - epoch) % SEQUENCE
    ensures Elapsed(now, epoch) % AW_WRAP == (now - epoch) % AW_WRAP
  {
    var d := now - epoch;
    var e := Elapsed(now, epoch);
    var w := d / U64;
    assert d == e + U64 * w;
    var q, r := e / SEQUENCE, e % SEQUENCE;
    assert d == SEQUENCE * (q + 0x1000_0000_0000 * w) + r;
    Divide(d, SEQUENCE, q + 0x1000_0000_0000 * w, r);
    var q', r' := e / AW_WRAP, e % AW_WRAP;
    assert d == AW_WRAP * (q' + 0x4_0000_0000 * w) + r';
    Divide(d, AW_WRAP, q' + 0x4_0000_0000 * w, r');
  }

  /** The slot number of `x` is fixed by its phase within a channel sequence. */
  lemma SlotOfPhase(x: int)
    ensures (x / SLOT) % SLOTS == (x % SEQUENCE) / SLOT
  {
    var p := x % SEQUENCE;
    var n := x / SEQUENCE;
    assert x == SEQUENCE * n + p;
    var s, r := p / SLOT, p % SLOT;
    assert x == SLOT * (16 * n + s) + r;
    Divide(x, SLOT, 16 * n + s, r);
    Divide(16 * n + s, SLOTS, n, s);
  }

  /** Truncating the window number to 16 bits does not disturb slot indices. */
  lemma SlotIndexExact(e: nat)
    ensures CurrentSlotIndex(e) == (e / SLOT) % SLOTS
    ensures NextSlotIndex(e) == (e / SLOT + 1) % SLOTS
  {
    var a, r := e / AW, e % AW;
    var w, t := a / 0x1_0000, a % 0x1_0000;
    var s, v := t / 4, t % 4;
    var slots := 0x4000 * w + s;
    assert e == SLOT * slots + (AW * v + r);
    Divide(e, SLOT, slots, AW * v + r);
    var k, i := s / SLOTS, s % SLOTS;
    Divide(slots, SLOTS, 0x400 * w + k, i);
    var k', i' := (s + 1) / SLOTS, (s + 1) % SLOTS;
    Divide(slots + 1, SLOTS, 0x400 * w + k', i');
  }

  /** The index computed from the clock is the slot the peer is really in. */
  lemma CurrentSlotIsReal(now: nat, epoch: int)
    ensures CurrentSlotIndex(Elapsed(now, epoch)) == SlotAt(epoch, now)
  {
    var e := Elapsed(now, epoch);
    SlotIndexExact(e);
    SlotOfPhase(e);
    SlotOfPhase(now - epoch);
    ElapsedPhase(now, epoch);
  }

  // --------------------------------------------------------------- slot starts

  function Phase(now: nat, epoch: int): nat { Elapsed(now, epoch) % SEQUENCE }

  /** `slot_start_timestamp`; the saturating subtraction yields `now` when the
      sequence started before time zero. */
  function SlotStart(epoch: int, now: nat, slot: nat, offset: nat): nat {
    var elapsed := Phase(now, epoch);
    var start := if elapsed <= now then now - elapsed else now;
    var target := SLOT * slot + offset;
    start + if elapsed > target then target + SEQUENCE else target
  }

  /** `t` is an instant at which the slot (plus offset) starts. */
  predicate Starts(epoch: int, target: nat, t: int) { (t - epoch - target) % SEQUENCE == 0 }

  ghost predicate IsNextStart(epoch: int, now: nat, target: nat, t: nat) {
    && t >= now && Starts(epoch, target, t)
    && forall x: nat :: x >= now && Starts(epoch, target, x) ==> t <= x
  }

  /** When the sequence start can be represented, the result is the least
      instant from now on at which the slot starts. */
  lemma NextStartFound(epoch: int, now: nat, slot: nat, offset: nat)
    requires SLOT * slot + offset < SEQUENCE && Phase(now, epoch) <= now
    ensures IsNextStart(epoch, now, SLOT * slot + offset, SlotStart(epoch, now, slot, offset))
  {
    var target := SLOT * slot + offset;
    var p := Phase(now, epoch);
    var t := SlotStart(epoch, now, slot, offset);
    var n := (now - epoch) / SEQUENCE;
    ElapsedPhase(now, epoch);
    assert now - epoch == SEQUENCE * n + p;
    var k := if p > target then n + 1 else n;
    assert t - epoch - target == SEQUENCE * k;
    Divide(t - epoch - target, SEQUENCE, k, 0);
    forall x: nat | x >= now && Starts(epoch, target, x) ensures t <= x {
      var j := (x - epoch - target) / SEQUENCE;
      assert x - epoch - target == SEQUENCE * j;
      assert SEQUENCE * (j - n) >= p - target;
      MultipleIsFar(SEQUENCE, j - k);
    }
  }

  /** When it cannot, the result is no start of the slot at all. */
  lemma NoStartBeforeBoot(epoch: int, now: nat, slot: nat, offset: nat)
    requires SLOT * slot + offset < SEQUENCE && Phase(now, epoch) > now
    ensures !Starts(epoch, SLOT * slot + offset, SlotStart(epoch, now, slot, offset))
  {
    var target := SLOT * slot + offset;
    var p := Phase(now, epoch);
    var t := SlotStart(epoch, now, slot, offset);
    var n := (now - epoch) / SEQUENCE;
    ElapsedPhase(now, epoch);
    assert now - epoch == SEQUENCE * n + p;
    var k := if p > target then n + 1 else n;
    assert t - epoch - target == SEQUENCE * k + p;
    Divide(t - epoch - target, SEQUENCE, k, p);
  }

  /** So `slot_start_timestamp` is right exactly when the current sequence did
      not start before the clock did. */
  lemma SlotStartExact(epoch: int, now: nat, slot: nat, offset: nat)
    requires SLOT * slot + offset < SEQUENCE
    ensures IsNextStart(epoch, now, SLOT * slot + offset, SlotStart(epoch, now, slot, offset))
            <==> Phase(now, epoch) <= now
  {
    if Phase(now, epoch) <= now {
      NextStartFound(epoch, now, slot, offset);
    } else {
      NoStartBeforeBoot(epoch, now, slot, offset);
    }
  }

  /** A tenth of a second after boot, for a peer whose epoch lies before it: the
      slot starts at 186432, and the result is 700 milliseconds late. */
  lemma SlotStartWrongAfterBoot()
    ensures Phase(100000, -600000) > 100000
    ensures SlotStart(-600000, 100000, 12, 0) == 886432
    ensures IsNextStart(-600000, 100000, SLOT * 12, 186432)
  {
    assert Elapsed(100000, -600000) == 700000;
    Divide(186432 + 600000 - SLOT * 12, SEQUENCE, 0, 0);
    forall x: nat | x >= 100000 && Starts(-600000, SLOT * 12, x) ensures 186432 <= x {
      var j := (x + 600000 - SLOT * 12) / SEQUENCE;
      assert x + 600000 - SLOT * 12 == SEQUENCE * j;
    }
  }

  // ------------------------------------------------------------------- overlap

  datatype Overlap = NoOverlappingSlots | CurrentlyOverlapping | OverlappingAt(t: nat)

  /** Both peers are on the same channel at `t`. */
  predicate Together(a: seq<Byte>, b: seq<Byte>, epoch: int, t: int)
    requires |a| == |b| == SLOTS
  {
    a[SlotAt(epoch, t)] == b[SlotAt(epoch, t)]
  }

  /** What the answer should mean: now, never, or the first instant at which the
      two are together. */
  ghost predicate IsNearest(a: seq<Byte>, b: seq<Byte>, epoch: int, now: nat, r: Overlap)
    requires |a| == |b| == SLOTS
  {
    match r
    case CurrentlyOverlapping => Together(a, b, epoch, now)
    case NoOverlappingSlots => forall t: int :: !Together(a, b, epoch, t)
    case OverlappingAt(t) =>
      t > now && Together(a, b, epoch, t) && forall x :: now <= x < t ==> !Together(a, b, epoch, x)
  }

  /** The search of `next_overlap_timestamp`, over the slots from the current one
      to the last and then from the first, with one clock sample. For peers with
      one epoch its answer is right exactly when it is not a time, or the current
      channel sequence did not start before the clock did. For peers whose epochs
      are `lag` apart, up to wraps, the time is right exactly when `WellTimed`. */
  method NextOverlap(a: seq<Byte>, epochA: int, b: seq<Byte>, epochB: int, now: nat, ghost lag: int, ghost k: int)
    returns (r: Overlap)
    requires |a| == |b| == SLOTS
    ensures r.CurrentlyOverlapping? <==> a[SlotAt(epochA, now)] == b[SlotAt(epochB, now)]
    ensures !r.CurrentlyOverlapping? ==> (r.NoOverlappingSlots? <==> forall s :: 0 <= s < SLOTS ==> a[s] != b[s])
    ensures epochA == epochB ==>
              (IsNearest(a, b, epochA, now, r) <==> (r.OverlappingAt? ==> Phase(now, epochA) <= now))
    ensures Close(lag) && epochB == epochA + lag + AW_WRAP * k && r.OverlappingAt? ==>
              (IsNearestSlot(a, epochA, b, epochB, lag, now, r.t) <==> WellTimed(a, epochA, b, lag, now))
  {
    var current := CurrentSlotIndex(Elapsed(now, epochA));
    var other := CurrentSlotIndex(Elapsed(now, epochB));
    CurrentSlotIsReal(now, epochA);
    CurrentSlotIsReal(now, epochB);
    if a[current] == b[other] {
      return CurrentlyOverlapping;
    }
    var d := 0;
    while d < SLOTS
      invariant d <= SLOTS
      invariant forall j: nat :: j < d ==> !AgreeAt(a, b, current, j)
    {
      var slot := (current + d) % SLOTS;
      if a[slot] == b[slot] {
        if epochA == epochB {
          OverlapExact(a, b, epochA, now, d);
        }
        if Close(lag) && epochB == epochA + lag + AW_WRAP * k {
          NearestSlotExact(a, epochA, b, lag, k, now, d);
        }
        return OverlappingAt(SlotStart(epochA, now, slot, 0));
      }
      d := d + 1;
    }
    forall s | 0 <= s < SLOTS ensures a[s] != b[s] {
      var j: nat := if s >= current then s - current else s + 16 - current;
      assert !AgreeAt(a, b, current, j);
      assert (current + j) % SLOTS == s;
    }
    NeverTogether(a, b, epochA);
    r := NoOverlappingSlots;
  }

  predicate AgreeAt(a: seq<Byte>, b: seq<Byte>, current: nat, d: nat)
    requires |a| == |b| == SLOTS
  {
    a[(current + d) % SLOTS] == b[(current + d) % SLOTS]
  }

  /** `d` slots after the current one is the first slot that agrees. */
  ghost predicate FirstAgreement(a: seq<Byte>, b: seq<Byte>, current: nat, d: nat)
    requires |a| == |b| == SLOTS
  {
    AgreeAt(a, b, current, d) && forall j: nat :: j < d ==> !AgreeAt(a, b, current, j)
  }

  /** The instant at which the slot `d` ahead of the current one begins. */
  function SlotAhead(epoch: int, now: nat, d: nat): int {
    now - (now - epoch) % SLOT + SLOT * d
  }

  /** The timestamp computed for that slot is right, or, when the current
      sequence started before the clock did, late by all that has passed of it. */
  lemma StartOfSlotAhead(epoch: int, now: nat, d: nat)
    requires 1 <= d <= SLOTS && (d == SLOTS ==> (now - epoch) % SLOT != 0)
    ensures var p := Phase(now, epoch);
            SlotStart(epoch, now, (SlotAt(epoch, now) + d) % SLOTS, 0)
            == SlotAhead(epoch, now, d) + if p <= now then 0 else p
  {
    var p := Phase(now, epoch);
    var c := SlotAt(epoch, now);
    ElapsedPhase(now, epoch);
    SlotOfPhase(now - epoch);
    var into := p % SLOT;
    assert p == SLOT * c + into;
    var n := (now - epoch) / SEQUENCE;
    assert now - epoch == SLOT * (16 * n + c) + into;
    Divide(now - epoch, SLOT, 16 * n + c, into);
    var s := (c + d) % SLOTS;
    if c + d < 16 {
      assert s == c + d && SLOT * s == SLOT * c + SLOT * d > p;
    } else {
      assert s == c + d - 16 && SLOT * s == SLOT * c + SLOT * d - SEQUENCE;
      assert if d == 16 then SLOT * s < p else s < c && SLOT * s + SLOT <= SLOT * c;
    }
  }

  /** The slot `j` full slots after the current one, at any instant inside it. */
  lemma SlotLater(epoch: int, now: nat, x: int, j: nat)
    requires var into := (now - epoch) % SLOT;
             now - into + SLOT * j <= x < now - into + SLOT * (j + 1)
    ensures SlotAt(epoch, x) == (SlotAt(epoch, now) + j) % SLOTS
  {
    var q, into := (now - epoch) / SLOT, (now - epoch) % SLOT;
    var r := x - (now - into + SLOT * j);
    assert x - epoch == SLOT * (q + j) + r;
    Divide(x - epoch, SLOT, q + j, r);
    var m, c := q / SLOTS, q % SLOTS;
    var m', c' := (c + j) / SLOTS, (c + j) % SLOTS;
    Divide(q + j, SLOTS, m + m', c');
  }

  /** The start of the first agreeing slot is the nearest overlap. */
  lemma NearestOverlap(a: seq<Byte>, b: seq<Byte>, epoch: int, now: nat, d: nat)
    requires |a| == |b| == SLOTS && d < SLOTS
    requires FirstAgreement(a, b, SlotAt(epoch, now), d) && !Together(a, b, epoch, now)
    ensures d >= 1 && SlotAhead(epoch, now, d) > now
    ensures IsNearest(a, b, epoch, now, OverlappingAt(SlotAhead(epoch, now, d)))
  {
    var c := SlotAt(epoch, now);
    assert d != 0;
    var into := (now - epoch) % SLOT;
    var t := SlotAhead(epoch, now, d);
    SlotLater(epoch, now, t, d);
    forall x | now <= x < t ensures !Together(a, b, epoch, x) {
      var j := (x - (now - into)) / SLOT;
      assert 0 <= j < d;
      SlotLater(epoch, now, x, j);
      assert !AgreeAt(a, b, c, j);
    }
  }

  /** With one epoch, the timestamp reported for the first agreeing slot is the
      nearest overlap exactly when the sequence start is representable. */
  lemma OverlapExact(a: seq<Byte>, b: seq<Byte>, epoch: int, now: nat, d: nat)
    requires |a| == |b| == SLOTS && d < SLOTS
    requires FirstAgreement(a, b, SlotAt(epoch, now), d) && !Together(a, b, epoch, now)
    ensures IsNearest(a, b, epoch, now, OverlappingAt(SlotStart(epoch, now, (SlotAt(epoch, now) + d) % SLOTS, 0)))
            <==> Phase(now, epoch) <= now
  {
    NearestOverlap(a, b, epoch, now, d);
    assert 1 <= d < SLOTS;
    StartOfSlotAhead(epoch, now, d);
    var t := SlotStart(epoch, now, (SlotAt(epoch, now) + d) % SLOTS, 0);
    var u := SlotAhead(epoch, now, d);
    if IsNearest(a, b, epoch, now, OverlappingAt(t)) {
      assert !(t < u) && !(u < t);
    }
  }

  /** And when no slot agrees the two are never together. */
  lemma NeverTogether(a: seq<Byte>, b: seq<Byte>, epoch: int)
    requires |a| == |b| == SLOTS
    ensures (forall s :: 0 <= s < SLOTS ==> a[s] != b[s]) <==> (forall t: int :: !Together(a, b, epoch, t))
  {
    if forall t: int :: !Together(a, b, epoch, t) {
      forall s | 0 <= s < SLOTS ensures a[s] != b[s] {
        var t := epoch + SLOT * s;
        Divide(t - epoch, SLOT, s, 0);
        assert !Together(a, b, epoch, t);
      }
    }
  }

  // --------------------------------------------------------------- clock recovery

  /** `recover_tsf_epoch` for a peer whose window has `period` time units. */
  function RecoverEpoch(period: nat, remaining: nat, seqNumber: nat, txDelta: nat, rx: nat): int {
    rx - (TU * (period * seqNumber + remaining) - txDelta)
  }

  /** Receiving the timing fields generated at `now` gives back the sender's
      epoch, late by less than a time unit and by the delays, up to whole wraps of
      the 16-bit window number. */
  lemma ClockRoundTrip(now: nat, epoch: int, txDelta: nat, rx: nat) returns (k: int)
    ensures var e := Elapsed(now, epoch);
            var error := e % TU;
            && 0 <= error < TU
            && RecoverEpoch(16, RemainingAwLength(e), AwSeqNumber(e), txDelta, rx)
               == epoch + error + AW_WRAP * k + (rx - now) + txDelta
  {
    var e := Elapsed(now, epoch);
    ElapsedPhase(now, epoch);
    var phase := e % AW_WRAP;
    k := (now - epoch) / AW_WRAP;
    assert now - epoch == AW_WRAP * k + phase;
    var a, r := e / AW, e % AW;
    var w, n := a / 0x1_0000, a % 0x1_0000;
    assert e == AW_WRAP * w + (AW * n + r);
    Divide(e, AW_WRAP, w, AW * n + r);
    var u, error := r / TU, r % TU;
    assert e == TU * (16 * a + u) + error;
    Divide(e, TU, 16 * a + u, error);
  }

  /** So a peer whose own epoch is `epoch`, and who recovers the epoch of another
      on the same clock, finds the two apart by less than a time unit and the
      delays, up to whole wraps. */
  lemma RecoveredLag(sent: nat, epoch: int, txDelta: nat, rx: nat) returns (lag: int, k: int)
    ensures var e := Elapsed(sent, epoch);
            epoch == RecoverEpoch(16, RemainingAwLength(e), AwSeqNumber(e), txDelta, rx) + lag + AW_WRAP * k
    ensures 0 <= 0 - lag - (rx - sent) - txDelta < TU
    ensures rx >= sent && (rx - sent) + txDelta <= SLOT - TU ==> Close(lag)
  {
    var wraps := ClockRoundTrip(sent, epoch, txDelta, rx);
    k := 0 - wraps;
    lag := 0 - (Elapsed(sent, epoch) % TU + (rx - sent) + txDelta);
    assert AW_WRAP * k + AW_WRAP * wraps == 0;
  }

  /** Less than a slot apart. */
  predicate Close(lag: int) { 0 - SLOT < lag < SLOT }

  /** A peer whose epoch lags by less than a slot is in the same slot, except
      that it is still in the previous one, or already in the next one, for as
      many microseconds at the beginning or the end of each slot. */
  lemma RecoveredSlot(epoch: int, lag: int, k: int, t: int)
    requires Close(lag)
    ensures var mine, into := SlotAt(epoch, t), (t - epoch) % SLOT;
            SlotAt(epoch + lag + AW_WRAP * k, t)
            == if into < lag then (mine + 15) % SLOTS
               else if into >= SLOT + lag then (mine + 1) % SLOTS
               else mine
  {
    var q, into := (t - epoch) / SLOT, (t - epoch) % SLOT;
    var step := if into < lag then -1 else if into >= SLOT + lag then 1 else 0;
    var x := t - (epoch + lag + AW_WRAP * k);
    var r := into - lag - SLOT * step;
    assert x == SLOT * (q + step - 16384 * k) + r;
    Divide(x, SLOT, q + step - 16384 * k, r);
    var m, c := q / SLOTS, q % SLOTS;
    var c' := (c + step) % SLOTS;
    var m' := if c + step < 0 then m - 1 else if c + step >= SLOTS then m + 1 else m;
    assert q + step == SLOTS * m' + c';
    Divide(q + step - 16384 * k, SLOTS, m' - 1024 * k, c');
  }

  // -------------------------------------------------- overlap of recovered epochs

  /** Peers that far apart, this far into a slot of the first, number it alike. */
  predicate Aligned(lag: int, into: int) { lag <= into < SLOT + lag }

  /** Both are on the same channel at `t`, each by its own epoch. */
  predicate Meet(a: seq<Byte>, epochA: int, b: seq<Byte>, epochB: int, t: int)
    requires |a| == |b| == SLOTS
  {
    a[SlotAt(epochA, t)] == b[SlotAt(epochB, t)]
  }

  /** `t` starts the first slot from now on in which the two meet while they
      number it alike; they meet for all of that time. */
  ghost predicate IsNearestSlot(a: seq<Byte>, epochA: int, b: seq<Byte>, epochB: int, lag: int, now: nat, t: int)
    requires |a| == |b| == SLOTS
  {
    && t >= now && (t - epochA) % SLOT == 0
    && (forall x :: t <= x < t + SLOT && Aligned(lag, x - t) ==> Meet(a, epochA, b, epochB, x))
    && (forall x :: now <= x < t && Aligned(lag, (x - epochA) % SLOT) ==> !Meet(a, epochA, b, epochB, x))
  }

  lemma MeetAligned(a: seq<Byte>, epochA: int, b: seq<Byte>, lag: int, k: int, t: int)
    requires |a| == |b| == SLOTS && Close(lag) && Aligned(lag, (t - epochA) % SLOT)
    ensures Meet(a, epochA, b, epochA + lag + AW_WRAP * k, t) <==> a[SlotAt(epochA, t)] == b[SlotAt(epochA, t)]
  {
    RecoveredSlot(epochA, lag, k, t);
  }

  /** Offsets into the slots that start at `t`. */
  lemma IntoSlot(epoch: int, t: int, x: int)
    requires (t - epoch) % SLOT == 0 && t <= x < t + SLOT
    ensures (x - epoch) % SLOT == x - t
  {
    var q := (t - epoch) / SLOT;
    Divide(x - epoch, SLOT, q, x - t);
  }

  lemma SlotAheadStarts(epoch: int, now: nat, d: nat)
    ensures (SlotAhead(epoch, now, d) - epoch) % SLOT == 0
  {
    var q, into := (now - epoch) / SLOT, (now - epoch) % SLOT;
    Divide(SlotAhead(epoch, now, d) - epoch, SLOT, q + d, 0);
  }

  /** There is at most one nearest slot. */
  lemma NearestSlotUnique(a: seq<Byte>, epochA: int, b: seq<Byte>, epochB: int, lag: int, now: nat, t: int, u: int)
    requires |a| == |b| == SLOTS && Close(lag) && t < u
    requires IsNearestSlot(a, epochA, b, epochB, lag, now, t)
    ensures !IsNearestSlot(a, epochA, b, epochB, lag, now, u)
  {
    if (u - epochA) % SLOT == 0 {
      var m, n := (t - epochA) / SLOT, (u - epochA) / SLOT;
      assert u - t == SLOT * (n - m);
      var x := if lag > 0 then t + lag else t;
      IntoSlot(epochA, t, x);
      assert Meet(a, epochA, b, epochB, x);
    }
  }

  /** The slot `d` ahead is the nearest when it is the first to agree after the
      current one, and the current one does not agree or is no longer shared. */
  lemma NearestSlotAhead(a: seq<Byte>, epochA: int, b: seq<Byte>, lag: int, k: int, now: nat, d: nat)
    requires |a| == |b| == SLOTS && Close(lag) && 1 <= d <= SLOTS
    requires var c := SlotAt(epochA, now);
             && AgreeAt(a, b, c, d) && (forall j: nat :: 1 <= j < d ==> !AgreeAt(a, b, c, j))
             && (AgreeAt(a, b, c, 0) ==> (now - epochA) % SLOT >= SLOT + lag)
    ensures IsNearestSlot(a, epochA, b, epochA + lag + AW_WRAP * k, lag, now, SlotAhead(epochA, now, d))
  {
    var c := SlotAt(epochA, now);
    var into := (now - epochA) % SLOT;
    var t := SlotAhead(epochA, now, d);
    var epochB := epochA + lag + AW_WRAP * k;
    SlotAheadStarts(epochA, now, d);
    forall x | t <= x < t + SLOT && Aligned(lag, x - t)
      ensures Meet(a, epochA, b, epochB, x)
    {
      IntoSlot(epochA, t, x);
      SlotLater(epochA, now, x, d);
      MeetAligned(a, epochA, b, lag, k, x);
    }
    forall x | now <= x < t && Aligned(lag, (x - epochA) % SLOT)
      ensures !Meet(a, epochA, b, epochB, x)
    {
      NotBefore(a, epochA, b, lag, now, d, x);
      MeetAligned(a, epochA, b, lag, k, x);
    }
  }

  lemma NotBefore(a: seq<Byte>, epochA: int, b: seq<Byte>, lag: int, now: nat, d: nat, x: int)
    requires |a| == |b| == SLOTS && now <= x < SlotAhead(epochA, now, d) && Aligned(lag, (x - epochA) % SLOT)
    requires var c := SlotAt(epochA, now);
             && (forall j: nat :: 1 <= j < d ==> !AgreeAt(a, b, c, j))
             && (AgreeAt(a, b, c, 0) ==> (now - epochA) % SLOT >= SLOT + lag)
    ensures a[SlotAt(epochA, x)] != b[SlotAt(epochA, x)]
  {
    var c := SlotAt(epochA, now);
    var into := (now - epochA) % SLOT;
    var j := (x - (now - into)) / SLOT;
    assert 0 <= j < d;
    SlotLater(epochA, now, x, j);
    if j == 0 {
      SlotAheadStarts(epochA, now, 0);
      IntoSlot(epochA, SlotAhead(epochA, now, 0), x);
    }
    assert !AgreeAt(a, b, c, j);
  }

  /** What a caller can check: the sequence did not start before the clock did,
      and if the current slot agrees then either it starts just now, or the
      other peer has left it already and no other slot agrees. */
  ghost predicate WellTimed(a: seq<Byte>, epochA: int, b: seq<Byte>, lag: int, now: nat)
    requires |a| == |b| == SLOTS
  {
    var c := SlotAt(epochA, now);
    && Phase(now, epochA) <= now
    && (a[c] == b[c] ==>
          || (now - epochA) % SLOT == 0
          || (lag < 0 && forall s :: 0 <= s < SLOTS && s != c ==> a[s] != b[s]))
  }

  /** For peers less than a slot apart, the time reported for the first agreeing
      slot starts the nearest slot they share exactly when it is well timed. */
  lemma NearestSlotExact(a: seq<Byte>, epochA: int, b: seq<Byte>, lag: int, k: int, now: nat, d: nat)
    requires |a| == |b| == SLOTS && Close(lag) && d < SLOTS
    requires FirstAgreement(a, b, SlotAt(epochA, now), d)
    requires !Meet(a, epochA, b, epochA + lag + AW_WRAP * k, now)
    ensures IsNearestSlot(a, epochA, b, epochA + lag + AW_WRAP * k, lag, now,
                          SlotStart(epochA, now, (SlotAt(epochA, now) + d) % SLOTS, 0))
            <==> WellTimed(a, epochA, b, lag, now)
  {
    var c := SlotAt(epochA, now);
    if d != 0 {
      assert !AgreeAt(a, b, c, 0);
      NearestSlotAhead(a, epochA, b, lag, k, now, d);
      OnlyIfRepresentable(a, epochA, b, lag, k, now, d);
    } else if (now - epochA) % SLOT == 0 {
      StartsJustNow(a, epochA, b, lag, k, now);
    } else if (now - epochA) % SLOT < lag {
      SharedSlotMissed(a, epochA, b, lag, k, now);
    } else {
      LeftAlready(a, epochA, b, lag, k, now);
    }
  }

  /** When the slot `d` ahead is the nearest, the timestamp is it exactly when
      the start of the sequence is representable. */
  lemma OnlyIfRepresentable(a: seq<Byte>, epochA: int, b: seq<Byte>, lag: int, k: int, now: nat, d: nat)
    requires |a| == |b| == SLOTS && Close(lag) && 1 <= d <= SLOTS
    requires d == SLOTS ==> (now - epochA) % SLOT != 0
    requires IsNearestSlot(a, epochA, b, epochA + lag + AW_WRAP * k, lag, now, SlotAhead(epochA, now, d))
    ensures IsNearestSlot(a, epochA, b, epochA + lag + AW_WRAP * k, lag, now,
                          SlotStart(epochA, now, (SlotAt(epochA, now) + d) % SLOTS, 0))
            <==> Phase(now, epochA) <= now
  {
    StartOfSlotAhead(epochA, now, d);
    var epochB := epochA + lag + AW_WRAP * k;
    var t, u := SlotAhead(epochA, now, d), SlotStart(epochA, now, (SlotAt(epochA, now) + d) % SLOTS, 0);
    if t < u {
      NearestSlotUnique(a, epochA, b, epochB, lag, now, t, u);
    }
  }

  /** The current slot agrees and starts now: the answer is now. */
  lemma StartsJustNow(a: seq<Byte>, epochA: int, b: seq<Byte>, lag: int, k: int, now: nat)
    requires |a| == |b| == SLOTS && Close(lag) && AgreeAt(a, b, SlotAt(epochA, now), 0)
    requires (now - epochA) % SLOT == 0
    ensures IsNearestSlot(a, epochA, b, epochA + lag + AW_WRAP * k, lag, now,
                          SlotStart(epochA, now, SlotAt(epochA, now), 0))
            <==> Phase(now, epochA) <= now
  {
    var c := SlotAt(epochA, now);
    var epochB := epochA + lag + AW_WRAP * k;
    forall x | now <= x < now + SLOT && Aligned(lag, x - now)
      ensures Meet(a, epochA, b, epochB, x)
    {
      IntoSlot(epochA, now, x);
      SlotLater(epochA, now, x, 0);
      MeetAligned(a, epochA, b, lag, k, x);
    }
    assert IsNearestSlot(a, epochA, b, epochB, lag, now, now);
    StartOfCurrent(epochA, now);
    var u := SlotStart(epochA, now, c, 0);
    if now < u {
      NearestSlotUnique(a, epochA, b, epochB, lag, now, now, u);
    }
  }

  lemma StartOfCurrent(epoch: int, now: nat)
    ensures var p, into := Phase(now, epoch), (now - epoch) % SLOT;
            SlotStart(epoch, now, SlotAt(epoch, now), 0)
            == now + (if p <= now then 0 else p) - into + if into == 0 then 0 else SEQUENCE
  {
    var p := Phase(now, epoch);
    var c := SlotAt(epoch, now);
    ElapsedPhase(now, epoch);
    SlotOfPhase(now - epoch);
    var into := p % SLOT;
    assert p == SLOT * c + into;
    var n := (now - epoch) / SEQUENCE;
    assert now - epoch == SLOT * (16 * n + c) + into;
    Divide(now - epoch, SLOT, 16 * n + c, into);
  }

  /** The other peer is about to enter the current slot, which agrees; the answer
      is that slot one sequence later. */
  lemma SharedSlotMissed(a: seq<Byte>, epochA: int, b: seq<Byte>, lag: int, k: int, now: nat)
    requires |a| == |b| == SLOTS && Close(lag) && AgreeAt(a, b, SlotAt(epochA, now), 0)
    requires 0 < (now - epochA) % SLOT < lag
    ensures !IsNearestSlot(a, epochA, b, epochA + lag + AW_WRAP * k, lag, now,
                           SlotStart(epochA, now, SlotAt(epochA, now), 0))
  {
    var into := (now - epochA) % SLOT;
    var x := now - into + lag;
    SlotAheadStarts(epochA, now, 0);
    IntoSlot(epochA, now - into, x);
    SlotLater(epochA, now, x, 0);
    MeetAligned(a, epochA, b, lag, k, x);
    StartOfCurrent(epochA, now);
  }

  /** The other peer has left the current slot, which agrees; the answer is that
      slot one sequence later, right when no other slot agrees. */
  lemma LeftAlready(a: seq<Byte>, epochA: int, b: seq<Byte>, lag: int, k: int, now: nat)
    requires |a| == |b| == SLOTS && Close(lag) && AgreeAt(a, b, SlotAt(epochA, now), 0)
    requires !Meet(a, epochA, b, epochA + lag + AW_WRAP * k, now)
    requires (now - epochA) % SLOT != 0 && (now - epochA) % SLOT >= lag
    ensures IsNearestSlot(a, epochA, b, epochA + lag + AW_WRAP * k, lag, now,
                          SlotStart(epochA, now, SlotAt(epochA, now), 0))
            <==> WellTimed(a, epochA, b, lag, now)
  {
    var c := SlotAt(epochA, now);
    var epochB := epochA + lag + AW_WRAP * k;
    RecoveredSlot(epochA, lag, k, now);
    assert (now - epochA) % SLOT >= SLOT + lag && lag < 0;
    var u := SlotStart(epochA, now, c, 0);
    StartOfCurrent(epochA, now);
    var d := NextAgreement(a, b, c);
    NearestSlotAhead(a, epochA, b, lag, k, now, d);
    if d == SLOTS {
      OnlyIfRepresentable(a, epochA, b, lag, k, now, d);
    } else {
      assert a[(c + d) % SLOTS] == b[(c + d) % SLOTS] && (c + d) % SLOTS != c;
      NearestSlotUnique(a, epochA, b, epochB, lag, now, SlotAhead(epochA, now, d), u);
    }
  }

  /** The first slot after an agreeing one that agrees, itself at the latest. */
  lemma NextAgreement(a: seq<Byte>, b: seq<Byte>, c: nat) returns (d: nat)
    requires |a| == |b| == SLOTS && c < SLOTS && AgreeAt(a, b, c, 0)
    ensures 1 <= d <= SLOTS && AgreeAt(a, b, c, d) && forall j: nat :: 1 <= j < d ==> !AgreeAt(a, b, c, j)
    ensures d == SLOTS ==> forall s :: 0 <= s < SLOTS && s != c ==> a[s] != b[s]
  {
    d := 1;
    while d < SLOTS && !AgreeAt(a, b, c, d)
      invariant 1 <= d <= SLOTS && forall j: nat :: 1 <= j < d ==> !AgreeAt(a, b, c, j)
    {
      d := d + 1;
    }
    if d == SLOTS {
      forall s | 0 <= s < SLOTS && s != c ensures a[s] != b[s] {
        var j: nat := if s >= c then s - c else s + 16 - c;
        assert !AgreeAt(a, b, c, j);
        assert (c + j) % SLOTS == s;
      }
    }
  }

  // ------------------------------------------------------- where it goes wrong

  /** The channels of a peer that changes to its own number in every slot. */
  function Numbered(): seq<Byte> { seq(16, i requires 0 <= i < 16 => i) }

  /** Channel 1 in slot 12 and channel 2 otherwise. */
  function Twelfth(): seq<Byte> { seq(16, i requires 0 <= i < 16 => if i == 12 then 1 else 2) }

  function Ones(): seq<Byte> { seq(16, _ => 1) }

  /** A tenth of a second after boot, peers with one epoch that agree in slot 12
      only: they meet at 186432, and the answer is 700 milliseconds late. */
  lemma OverlapWrongAfterBoot()
    ensures var epoch, now := -600000, 100000;
            && Phase(now, epoch) > now && !Together(Ones(), Twelfth(), epoch, now)
            && FirstAgreement(Ones(), Twelfth(), SlotAt(epoch, now), 2)
            && IsNearest(Ones(), Twelfth(), epoch, now, OverlappingAt(186432))
            && !IsNearest(Ones(), Twelfth(), epoch, now, OverlappingAt(SlotStart(epoch, now, 12, 0)))
  {
    var epoch, now := -600000, 100000;
    Divide(now - epoch, SLOT, 10, 44640);
    assert SlotAt(epoch, now) == 10;
    assert Elapsed(now, epoch) == 700000;
    assert forall j: nat :: j < 2 ==> !AgreeAt(Ones(), Twelfth(), 10, j);
    NearestOverlap(Ones(), Twelfth(), epoch, now, 2);
    assert SlotAhead(epoch, now, 2) == 186432;
    OverlapExact(Ones(), Twelfth(), epoch, now, 2);
  }

  /** Peers half a millisecond apart with the same channels throughout. A tenth of
      a millisecond before the first changes slot the other already has: they
      share the next slot from 262644 on, and the answer is 983 milliseconds late. */
  lemma OverlapSkipsNextSlot()
    ensures var a, epochA, epochB, lag, now := Numbered(), 500, 0, -500, 262544;
            && Phase(now, epochA) <= now && !Meet(a, epochA, a, epochB, now)
            && FirstAgreement(a, a, SlotAt(epochA, now), 0)
            && IsNearestSlot(a, epochA, a, epochB, lag, now, 262644)
            && SlotStart(epochA, now, SlotAt(epochA, now), 0) == 1245684
            && !IsNearestSlot(a, epochA, a, epochB, lag, now, 1245684)
  {
    var a, epochA, lag, now := Numbered(), 500, -500, 262544;
    Divide(now - epochA, SLOT, 3, 65436);
    Divide(now - 0, SLOT, 4, 400);
    assert SlotAt(epochA, now) == 3 && SlotAt(0, now) == 4;
    assert Elapsed(now, epochA) == 262044;
    assert epochA + lag + AW_WRAP * 0 == 0;
    assert AgreeAt(a, a, 3, 1);
    NearestSlotAhead(a, epochA, a, lag, 0, now, 1);
    assert SlotAhead(epochA, now, 1) == 262644;
    NearestSlotUnique(a, epochA, a, 0, lag, now, 262644, 1245684);
  }
}
