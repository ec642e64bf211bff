/** CCMP framing of EAPOL-Key frames, done and undone in place. The header layout
    is the one of section 9.2.4 and the CCMP header the one of section 12.5.3.2
    of IEEE 802.11-2016. */
module EapolFraming {
  import opened Basics

  const EAPOL_LLC: seq<Byte> := [0xaa, 0xaa, 3, 0, 0, 0, 0x88, 0x8e]
  const CCMP_HEADER: nat := 8
  const CCMP_MIC: nat := 8

  // ------------------------------------------------------- frame control field

  predicate ToDs(b1: Byte) { b1 % 2 == 1 }
  predicate FromDs(b1: Byte) { (b1 / 2) % 2 == 1 }
  predicate IsProtected(b1: Byte) { (b1 / 64) % 2 == 1 }
  function SetProtected(b1: Byte): Byte { if IsProtected(b1) then b1 else b1 + 64 }
  function ClearProtected(b1: Byte): Byte { if IsProtected(b1) then b1 - 64 else b1 }

  predicate IsData(b0: Byte) { b0 % 4 == 0 && (b0 / 4) % 4 == 2 }
  predicate IsQos(b0: Byte) { b0 >= 128 }
  predicate IsNull(b0: Byte) { (b0 / 64) % 2 == 1 }

  /** Address 4, QoS control and HT control are optional. */
  function HeaderLength(b0: Byte, b1: Byte): nat {
    24 + (if ToDs(b1) && FromDs(b1) then 6 else 0)
       + (if IsQos(b0) then if b1 >= 128 then 6 else 2 else 0)
  }

  /** The header the parser accepts: a data frame at least as long as its header. */
  predicate Parses(f: seq<Byte>) {
    |f| >= 24 && IsData(f[0]) && |f| >= HeaderLength(f[0], f[1])
  }

  function Header(f: seq<Byte>): nat
    requires Parses(f)
  {
    HeaderLength(f[0], f[1])
  }

  predicate IsAmsdu(f: seq<Byte>)
    requires Parses(f)
  {
    var qos := if ToDs(f[1]) && FromDs(f[1]) then 30 else 24;
    IsQos(f[0]) && f[qos] >= 128
  }

  /** The single payload, behind the CCMP header if there is one. */
  function Payload(f: seq<Byte>): Option<seq<Byte>>
    requires Parses(f)
  {
    var start := Header(f) + if IsProtected(f[1]) then CCMP_HEADER else 0;
    if IsNull(f[0]) || IsAmsdu(f) || start > |f| then None else Some(f[start..])
  }

  predicate IsKeyFrame(f: seq<Byte>) {
    && Parses(f) && Payload(f).Some?
    && var p := Payload(f).value;
       |p| >= 10 && p[..8] == EAPOL_LLC && p[9] == 3
  }

  /** A key frame from the access point to this station. */
  predicate FromAp(f: seq<Byte>, own: seq<Byte>, bssid: seq<Byte>) {
    && Parses(f) && f[4..10] == own && f[10..16] == bssid
    && FromDs(f[1]) && !ToDs(f[1]) && IsKeyFrame(f)
  }

  // ------------------------------------------------------------- packet number

  /** Little-endian composition, one octet at a time. */
  function Over(low: int, high: int): int { low + 0x100 * high }

  /** Key ID 0, extended IV. */
  function CcmpHeader(pn: nat): (h: seq<Byte>)
    ensures |h| == CCMP_HEADER
  {
    var p1 := pn / 0x100;
    var p2 := p1 / 0x100;
    var p3 := p2 / 0x100;
    var p4 := p3 / 0x100;
    var p5 := p4 / 0x100;
    [pn % 0x100, p1 % 0x100, 0, 0x20, p2 % 0x100, p3 % 0x100, p4 % 0x100, p5 % 0x100]
  }

  function PacketNumber(h: seq<Byte>): nat
    requires |h| == CCMP_HEADER
  {
    Over(h[0], Over(h[1], Over(h[4], Over(h[5], Over(h[6], h[7])))))
  }

  lemma OverParts(low: Byte, high: nat)
    ensures Over(low, high) / 0x100 == high && Over(low, high) % 0x100 == low
  {
  }

  /** Splitting off the low octet; `b` bounds what is left. */
  lemma Split(x: nat, b: nat)
    requires x < 0x100 * b
    ensures x == Over(x % 0x100, x / 0x100) && x / 0x100 < b
  {
  }

  lemma PnRoundTrip(pn: nat)
    requires pn <= MAX_PN
    ensures PacketNumber(CcmpHeader(pn)) == pn
  {
    var p1 := pn / 0x100;
    var p2 := p1 / 0x100;
    var p3 := p2 / 0x100;
    var p4 := p3 / 0x100;
    var p5 := p4 / 0x100;
    Split(pn, 0x100_0000_0000);
    Split(p1, 0x1_0000_0000);
    Split(p2, 0x100_0000);
    Split(p3, 0x1_0000);
    Split(p4, 0x100);
    hide Over;
    assert p5 % 0x100 == p5;
    assert CcmpHeader(pn) == [pn % 0x100, p1 % 0x100, 0, 0x20, p2 % 0x100, p3 % 0x100, p4 % 0x100, p5];
  }

  lemma HeaderRoundTrip(h: seq<Byte>)
    requires |h| == CCMP_HEADER && h[2] == 0 && h[3] == 0x20
    ensures PacketNumber(h) <= MAX_PN && CcmpHeader(PacketNumber(h)) == h
  {
    var p4 := Over(h[6], h[7]);
    var p3 := Over(h[5], p4);
    var p2 := Over(h[4], p3);
    var p1 := Over(h[1], p2);
    OverParts(h[6], h[7]);
    OverParts(h[5], p4);
    OverParts(h[4], p3);
    OverParts(h[1], p2);
    OverParts(h[0], p1);
    assert p4 <= 0xFFFF && p3 <= 0xFF_FFFF && p2 <= 0xFFFF_FFFF && p1 <= 0xFF_FFFF_FFFF;
  }

  // -------------------------------------------------------------- specification

  predicate CanProtect(f: seq<Byte>, room: nat, pn: nat) {
    1 <= pn <= MAX_PN && |f| + CCMP_HEADER + CCMP_MIC <= room && Parses(f) && !IsProtected(f[1])
  }

  /** The frame with a CCMP header put in and room for the MIC. */
  function Protected(f: seq<Byte>, pn: nat): seq<Byte>
    requires Parses(f)
  {
    var h := Header(f);
    f[..h][1 := SetProtected(f[1])] + CcmpHeader(pn) + f[h..] + Zeros(CCMP_MIC)
  }

  datatype Normal = Normal(bytes: seq<Byte>, pn: Option<nat>)

  /** What `normalize` makes of a frame the radio has decrypted. */
  function Normalized(f: seq<Byte>, own: seq<Byte>, bssid: seq<Byte>): Option<Normal> {
    if !FromAp(f, own, bssid) then None
    else if !IsProtected(f[1]) then Some(Normal(f, None))
    else
      var h := Header(f);
      var ccmp := f[h..h + CCMP_HEADER];
      if ccmp[2] != 0 || ccmp[3] != 0x20 then None
      else Some(Normal(f[..h][1 := ClearProtected(f[1])] + f[h + CCMP_HEADER..], Some(PacketNumber(ccmp))))
  }

  /** The protected bit changes neither the header length nor the payload's kind. */
  lemma BitIsolated(b0: Byte, b1: Byte)
    ensures HeaderLength(b0, SetProtected(b1)) == HeaderLength(b0, b1) == HeaderLength(b0, ClearProtected(b1))
    ensures IsProtected(SetProtected(b1)) && !IsProtected(ClearProtected(b1))
    ensures IsProtected(b1) ==> SetProtected(ClearProtected(b1)) == b1
    ensures !IsProtected(b1) ==> ClearProtected(SetProtected(b1)) == b1
    ensures ToDs(SetProtected(b1)) == ToDs(b1) == ToDs(ClearProtected(b1))
    ensures FromDs(SetProtected(b1)) == FromDs(b1) == FromDs(ClearProtected(b1))
  {
  }

  lemma HeaderMarks(pn: nat)
    ensures CcmpHeader(pn)[2] == 0 && CcmpHeader(pn)[3] == 0x20
  {
  }

  /** `x` is `f` with the protected bit set and eight bytes put in after the header. */
  predicate Wraps(x: seq<Byte>, f: seq<Byte>) {
    && Parses(f) && !IsProtected(f[1]) && |x| == |f| + 8
    && x[0] == f[0] && x[1] == SetProtected(f[1])
    && x[2..Header(f)] == f[2..Header(f)] && x[Header(f) + 8..] == f[Header(f)..]
  }

  lemma WrapsSameFrame(x: seq<Byte>, f: seq<Byte>, own: seq<Byte>, bssid: seq<Byte>)
    requires Wraps(x, f)
    ensures Parses(x) && Header(x) == Header(f) && IsProtected(x[1])
    ensures FromAp(x, own, bssid) <==> FromAp(f, own, bssid)
  {
    var h := Header(f);
    BitIsolated(f[0], f[1]);
    assert forall k :: 2 <= k < h ==> x[k] == x[2..h][k - 2] && f[k] == f[2..h][k - 2];
    assert x[4..10] == f[4..10] && x[10..16] == f[10..16];
    assert IsAmsdu(x) == IsAmsdu(f);
    assert Payload(x) == Payload(f);
  }

  /** Protecting a frame, letting the radio drop the MIC, and normalizing gives
      back every byte, the length and the packet number. */
  lemma ProtectThenNormalize(f: seq<Byte>, own: seq<Byte>, bssid: seq<Byte>, pn: nat)
    requires FromAp(f, own, bssid) && !IsProtected(f[1]) && 1 <= pn <= MAX_PN
    ensures var g := Protected(f, pn);
            |g| == |f| + 16 && Normalized(g[..|g| - CCMP_MIC], own, bssid) == Some(Normal(f, Some(pn)))
  {
    var h := Header(f);
    var g := Protected(f, pn);
    var x := g[..|g| - CCMP_MIC];
    PnRoundTrip(pn);
    HeaderMarks(pn);
    hide CcmpHeader, PacketNumber, HeaderLength;
    assert x == f[..h][1 := SetProtected(f[1])] + CcmpHeader(pn) + f[h..];
    WrapsSameFrame(x, f, own, bssid);
    BitIsolated(f[0], f[1]);
    hide FromAp, SetProtected, ClearProtected;
    assert x[h..h + 8] == CcmpHeader(pn);
    assert x[..h][1 := ClearProtected(x[1])] + x[h + 8..] == f;
  }

  /** Octet `k` of a packet number, the least significant first. */
  function Octet(pn: nat, k: nat): Byte
    decreases k
  {
    if k == 0 then pn % 0x100 else Octet(pn / 0x100, k - 1)
  }

  /** Where the CCMP header has the number: octets 0 and 1, then the key ID octet
      with the extended IV bit after a reserved one, then octets 2 to 5. */
  lemma HeaderOctets(pn: nat)
    ensures CcmpHeader(pn)[0] == Octet(pn, 0) && CcmpHeader(pn)[1] == Octet(pn, 1)
    ensures CcmpHeader(pn)[2] == 0 && CcmpHeader(pn)[3] == 0x20
    ensures forall k: nat :: 2 <= k < 6 ==> CcmpHeader(pn)[k + 2] == Octet(pn, k)
  {
    var p1 := pn / 0x100;
    var p2 := p1 / 0x100;
    var p3 := p2 / 0x100;
    var p4 := p3 / 0x100;
    var p5 := p4 / 0x100;
    assert Octet(pn, 1) == Octet(p1, 0);
    assert Octet(pn, 2) == Octet(p1, 1) == Octet(p2, 0);
    assert Octet(pn, 3) == Octet(p1, 2) == Octet(p2, 1) == Octet(p3, 0);
    assert Octet(pn, 4) == Octet(p1, 3) == Octet(p2, 2) == Octet(p3, 1) == Octet(p4, 0);
    assert Octet(pn, 5) == Octet(p1, 4) == Octet(p2, 3) == Octet(p3, 2) == Octet(p4, 1) == Octet(p5, 0);
  }

  /** The value read from a header, by place. */
  lemma NumberByPlace(h: seq<Byte>)
    requires |h| == CCMP_HEADER
    ensures PacketNumber(h)
            == h[0] as int + 0x100 * (h[1] as int) + 0x1_0000 * (h[4] as int) + 0x100_0000 * (h[5] as int)
               + 0x1_0000_0000 * (h[6] as int) + 0x100_0000_0000 * (h[7] as int)
  {
  }

  /** The protected frame octet by octet: the header with bit 6 of its second octet
      set, the CCMP header right behind it, the payload eight octets later, and
      eight zero octets for the MIC. */
  lemma ProtectedLayout(f: seq<Byte>, pn: nat)
    requires Parses(f) && !IsProtected(f[1])
    ensures var g, h := Protected(f, pn), Header(f);
            && |g| == |f| + 16 && g[0] == f[0] && g[1] == f[1] + 0x40
            && (forall k :: 2 <= k < h ==> g[k] == f[k])
            && g[h..h + 8] == CcmpHeader(pn)
            && (forall k :: h <= k < |f| ==> g[k + 8] == f[k])
            && (forall k :: |f| + 8 <= k < |f| + 16 ==> g[k] == 0)
  {
    hide CcmpHeader;
  }

  /** Header lengths: 24 octets, six more for a fourth address, two more for QoS
      control and four more for HT control in a QoS frame. */
  lemma HeaderLengths(b0: Byte, b1: Byte)
    ensures HeaderLength(b0, b1) in {24, 26, 30, 32, 36}
    ensures !ToDs(b1) && b0 < 0x80 ==> HeaderLength(b0, b1) == 24
    ensures !ToDs(b1) && b0 >= 0x80 ==> HeaderLength(b0, b1) == if b1 < 0x80 then 26 else 30
    ensures ToDs(b1) && FromDs(b1) && b0 < 0x80 ==> HeaderLength(b0, b1) == 30
  {
  }

  /** Where the payload starts in a frame from the distribution system. */
  function PayloadStart(f: seq<Byte>): nat
    requires |f| >= 2
  {
    24 + (if f[0] < 0x80 then 0 else if f[1] < 0x80 then 2 else 6) + if (f[1] / 0x40) % 2 == 1 then 8 else 0
  }

  /** What counts as a key frame for this station, by its octets: a data frame that
      carries data and no A-MSDU, from the distribution system and not to it, with
      the own address first and the access point's second, and behind the LLC
      header of EAPOL a packet of type Key. */
  lemma FromApMeans(f: seq<Byte>, own: seq<Byte>, bssid: seq<Byte>)
    requires |own| == |bssid| == 6
    ensures FromAp(f, own, bssid)
            <==> && |f| >= 34 && f[0] % 16 == 8 && (f[0] / 0x40) % 2 == 0 && f[1] % 4 == 2
                 && (forall k :: 0 <= k < 6 ==> f[4 + k] == own[k])
                 && (forall k :: 0 <= k < 6 ==> f[10 + k] == bssid[k])
                 && !(f[0] >= 0x80 && f[24] >= 0x80)
                 && var start := PayloadStart(f);
                    && start + 10 <= |f| && f[start + 9] == 3
                    && f[start..start + 8] == [0xaa, 0xaa, 3, 0, 0, 0, 0x88, 0x8e]
  {
    if |f| >= 34 && f[0] % 16 == 8 && f[1] % 4 == 2 {
      HeaderLengths(f[0], f[1]);
      ByOctet(f, 4, own);
      ByOctet(f, 10, bssid);
      KeyPayload(f);
      hide HeaderLength, IsKeyFrame;
    }
  }

  lemma ByOctet(f: seq<Byte>, at: nat, s: seq<Byte>)
    requires at + |s| <= |f|
    ensures f[at..at + |s|] == s <==> forall k :: 0 <= k < |s| ==> f[at + k] == s[k]
  {
    var part := f[at..at + |s|];
    assert forall k :: 0 <= k < |s| ==> part[k] == f[at + k];
  }

  lemma KeyPayload(f: seq<Byte>)
    requires |f| >= 34 && f[0] % 16 == 8 && f[1] % 4 == 2
    ensures IsKeyFrame(f)
            <==> && (f[0] / 0x40) % 2 == 0 && !(f[0] >= 0x80 && f[24] >= 0x80)
                 && var start := PayloadStart(f);
                    && start + 10 <= |f| && f[start + 9] == 3 && f[start..start + 8] == EAPOL_LLC
  {
    HeaderLengths(f[0], f[1]);
    var start := PayloadStart(f);
    if start + 10 <= |f| {
      Slices(f, start);
    }
  }

  lemma Slices(f: seq<Byte>, start: nat)
    requires start + 10 <= |f|
    ensures f[start..][..8] == f[start..start + 8] && f[start..][9] == f[start + 9]
  {
  }

  /** What normalizing accepts: key frames from the access point, clear ones as they
      are, and protected ones with key ID 0, the extended IV bit and nothing reserved. */
  lemma NormalizedExactly(f: seq<Byte>, own: seq<Byte>, bssid: seq<Byte>)
    ensures Normalized(f, own, bssid).Some?
            <==> FromAp(f, own, bssid) && (IsProtected(f[1]) ==> f[Header(f) + 2] == 0 && f[Header(f) + 3] == 0x20)
    ensures FromAp(f, own, bssid) && !IsProtected(f[1]) ==> Normalized(f, own, bssid) == Some(Normal(f, None))
    ensures Normalized(f, own, bssid).Some? && IsProtected(f[1]) ==> Normalized(f, own, bssid).value.pn.Some?
  {
    hide HeaderLength, PacketNumber;
  }

  /** And the other way round: a protected frame that normalizes is recovered by
      protecting the result with the packet number it carried. */
  lemma NormalizeThenProtect(x: seq<Byte>, own: seq<Byte>, bssid: seq<Byte>)
    requires Normalized(x, own, bssid).Some? && Normalized(x, own, bssid).value.pn.Some?
    ensures var r := Normalized(x, own, bssid).value;
            && |r.bytes| == |x| - 8 && FromAp(r.bytes, own, bssid) && !IsProtected(r.bytes[1])
            && Protected(r.bytes, r.pn.value) == x + Zeros(CCMP_MIC)
  {
    hide Normalized, FromAp, CcmpHeader, PacketNumber, HeaderLength, SetProtected, ClearProtected, Wraps;
    NormalizedParts(x, own, bssid);
    var h := Header(x);
    var f := x[..h][1 := ClearProtected(x[1])] + x[h + 8..];
    HeaderRoundTrip(x[h..h + 8]);
    UnwrappedIsWrapped(x, f);
    WrapsSameFrame(x, f, own, bssid);
    BitIsolated(x[0], x[1]);
    assert f[..h][1 := SetProtected(f[1])] == x[..h];
    assert x[..h] + x[h..h + 8] + x[h + 8..] == x;
  }

  lemma NormalizedParts(x: seq<Byte>, own: seq<Byte>, bssid: seq<Byte>)
    requires Normalized(x, own, bssid).Some? && Normalized(x, own, bssid).value.pn.Some?
    ensures FromAp(x, own, bssid) && Parses(x) && IsProtected(x[1]) && 24 <= Header(x) <= |x| - 8
    ensures var h := Header(x);
            && x[h..h + 8][2] == 0 && x[h..h + 8][3] == 0x20
            && Normalized(x, own, bssid).value
               == Normal(x[..h][1 := ClearProtected(x[1])] + x[h + 8..], Some(PacketNumber(x[h..h + 8])))
  {
    hide PacketNumber, ClearProtected;
  }

  lemma UnwrappedIsWrapped(x: seq<Byte>, f: seq<Byte>)
    requires Parses(x) && IsProtected(x[1]) && |x| >= Header(x) + 8
    requires f == x[..Header(x)][1 := ClearProtected(x[1])] + x[Header(x) + 8..]
    ensures Wraps(x, f) && Header(f) == Header(x)
  {
    BitIsolated(x[0], x[1]);
    hide HeaderLength, SetProtected, ClearProtected;
  }

  // -------------------------------------------------------------------- in place

  /** The bytes from `lo` to `hi` moved to `dst`. */
  function Moved(s: seq<Byte>, lo: nat, hi: nat, dst: nat): (t: seq<Byte>)
    requires lo <= hi <= |s| && dst + (hi - lo) <= |s|
    ensures |t| == |s|
    ensures forall k :: 0 <= k < |s| ==> t[k] == if dst <= k < dst + (hi - lo) then s[k - dst + lo] else s[k]
  {
    s[..dst] + s[lo..hi] + s[dst + (hi - lo)..]
  }

  function Overwritten(s: seq<Byte>, at: nat, bytes: seq<Byte>): (t: seq<Byte>)
    requires at + |bytes| <= |s|
    ensures |t| == |s|
    ensures forall k :: 0 <= k < |s| ==> t[k] == if at <= k < at + |bytes| then bytes[k - at] else s[k]
  {
    s[..at] + bytes + s[at + |bytes|..]
  }

  /** `copy_within`: an overlapping move inside one buffer, from the end that
      is not overwritten before it is read. */
  method CopyWithin(a: array<Byte>, lo: nat, hi: nat, dst: nat)
    requires lo <= hi <= a.Length && dst + (hi - lo) <= a.Length
    modifies a
    ensures a[..] == Moved(old(a[..]), lo, hi, dst)
  {
    if dst <= lo {
      CopyDown(a, lo, hi, dst);
    } else {
      CopyUp(a, lo, hi, dst);
    }
  }

  method CopyDown(a: array<Byte>, lo: nat, hi: nat, dst: nat)
    requires dst <= lo <= hi <= a.Length
    modifies a
    ensures a[..] == Moved(old(a[..]), lo, hi, dst)
  {
    ghost var s := a[..];
    hide Moved;
    var i := 0;
    while i < hi - lo
      invariant i <= hi - lo
      invariant forall k :: dst <= k < dst + i ==> a[k] == s[k - dst + lo]
      invariant forall k :: 0 <= k < a.Length && !(dst <= k < dst + i) ==> a[k] == s[k]
    {
      a[dst + i] := a[lo + i];
      i := i + 1;
    }
  }

  method CopyUp(a: array<Byte>, lo: nat, hi: nat, dst: nat)
    requires lo <= hi && lo <= dst && dst + (hi - lo) <= a.Length
    modifies a
    ensures a[..] == Moved(old(a[..]), lo, hi, dst)
  {
    ghost var s := a[..];
    hide Moved;
    var n := hi - lo;
    var i := n;
    while i > 0
      invariant 0 <= i <= n
      invariant forall k :: dst + i <= k < dst + n ==> a[k] == s[k - dst + lo]
      invariant forall k :: 0 <= k < a.Length && !(dst + i <= k < dst + n) ==> a[k] == s[k]
    {
      i := i - 1;
      a[dst + i] := a[lo + i];
    }
  }

  method WriteAt(a: array<Byte>, at: nat, bytes: seq<Byte>)
    requires at + |bytes| <= a.Length
    modifies a
    ensures a[..] == Overwritten(old(a[..]), at, bytes)
  {
    ghost var s := a[..];
    for i := 0 to |bytes|
      invariant forall k :: 0 <= k < a.Length ==> a[k] == if at <= k < at + i then bytes[k - at] else s[k]
    {
      a[at + i] := bytes[i];
    }
  }

  /** `protect_eapol` on the first `length` bytes of `buffer`. */
  method ProtectEapol(buffer: array<Byte>, length: nat, pn: nat) returns (newLength: Option<nat>)
    requires length <= buffer.Length
    modifies buffer
    ensures newLength == if CanProtect(old(buffer[..length]), buffer.Length, pn) then Some(length + 16) else None
    ensures newLength.Some? <==>
              && 0 < pn < 0x1_0000_0000_0000 && length + 16 <= buffer.Length
              && Parses(old(buffer[..length])) && (old(buffer[..length])[1] / 0x40) % 2 == 0
    ensures newLength.None? ==> buffer[..] == old(buffer[..])
    ensures newLength.Some? ==>
              buffer[..] == Protected(old(buffer[..length]), pn) + old(buffer[length + 16..])
  {
    var f := buffer[..length];
    if pn == 0 || pn > MAX_PN || length + 16 > buffer.Length || !Parses(f) || IsProtected(f[1]) {
      return None;
    }
    var h := Header(f);
    ghost var b := buffer[..];
    assert b[..length] == f;
    ProtectLayout(b, length, pn);
    hide Protected, CcmpHeader;
    CopyWithin(buffer, h, length, h + 8);
    WriteAt(buffer, h, CcmpHeader(pn));
    buffer[1] := SetProtected(buffer[1]);
    WriteAt(buffer, length + 8, Zeros(CCMP_MIC));
    newLength := Some(length + 16);
  }

  lemma ProtectLayout(b: seq<Byte>, length: nat, pn: nat)
    requires length + 16 <= |b| && Parses(b[..length])
    ensures var f := b[..length];
            var h := Header(f);
            var moved := Overwritten(Moved(b, h, length, h + 8), h, CcmpHeader(pn));
            && moved[1] == f[1]
            && Overwritten(moved[1 := SetProtected(f[1])], length + 8, Zeros(CCMP_MIC))
               == Protected(f, pn) + b[length + 16..]
  {
    hide CcmpHeader;
  }

  /** `normalize` on a whole frame buffer. */
  method Normalize(buffer: array<Byte>, own: seq<Byte>, bssid: seq<Byte>) returns (r: Option<(nat, Option<nat>)>)
    modifies buffer
    ensures match Normalized(old(buffer[..]), own, bssid)
            case None => r == None && buffer[..] == old(buffer[..])
            case Some(Normal(bytes, pn)) =>
              r == Some((|bytes|, pn)) && |bytes| <= buffer.Length && buffer[..|bytes|] == bytes
  {
    var f := buffer[..];
    if !FromAp(f, own, bssid) {
      return None;
    }
    var h := Header(f);
    if !IsProtected(f[1]) {
      return Some((buffer.Length, None));
    }
    var ccmp := f[h..h + 8];
    if ccmp[2] != 0 || ccmp[3] != 0x20 {
      return None;
    }
    NormalLayout(f, h);
    hide FromAp, PacketNumber, ClearProtected, HeaderLength, Moved;
    CopyWithin(buffer, h + 8, buffer.Length, h);
    buffer[1] := ClearProtected(buffer[1]);
    assert buffer[..|f| - 8] == buffer[..][..|f| - 8];
    r := Some((buffer.Length - 8, Some(PacketNumber(ccmp))));
  }

  lemma NormalLayout(f: seq<Byte>, h: nat)
    requires 2 <= h && h + 8 <= |f|
    ensures var moved := Moved(f, h + 8, |f|, h);
            && moved[1] == f[1]
            && moved[1 := ClearProtected(f[1])][..|f| - 8] == f[..h][1 := ClearProtected(f[1])] + f[h + 8..]
  {
    hide ClearProtected;
  }
}
