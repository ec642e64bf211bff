/** Shared vocabulary: optional values, octets and two small arithmetic facts. */
module Basics {

  datatype Option<+T> = None | Some(value: T)

  const U64_MAX: nat := 0xFFFF_FFFF_FFFF_FFFF

  /** The largest CCMP packet number. */
  const MAX_PN: nat := 0xFFFF_FFFF_FFFF

  /** One octet. Wrap-around never matters for them in this model. */
  type Byte = x: int | 0 <= x < 256

  /** The buffer left behind by `fill(0)`. */
  function Zeros(size: nat): (s: seq<Byte>)
    ensures |s| == size && forall i :: 0 <= i < size ==> s[i] == 0
  {
    seq(size, _ => 0)
  }

  /** The names of `n` buffers. */
  function Buffers(n: nat): (s: set<nat>)
    ensures |s| == n && forall b: nat :: b in s <==> b < n
  {
    if n == 0 then {} else Buffers(n - 1) + {n - 1}
  }

  ghost predicate Distinct<T>(s: seq<T>) {
    forall i, j :: 0 <= i < j < |s| ==> s[i] != s[j]
  }

  /** A nonzero multiple of `n` is at least `n` away from zero. */
  lemma MultipleIsFar(n: nat, k: int)
    ensures k >= 1 ==> n * k >= n
    ensures k <= -1 ==> n * k <= 0 - n
  {
  }

  /** Two numbers less than `n` apart with the same residue are equal. */
  lemma SameResidue(n: nat, a: nat, b: nat)
    requires n >= 1 && a % n == b % n && a < b + n && b < a + n
    ensures a == b
  {
    assert a - b == n * (a / n - b / n);
    MultipleIsFar(n, a / n - b / n);
  }

  /** `r` below `n` is the residue of every number it differs from by a multiple of `n`. */
  lemma ResidueIs(n: nat, a: nat, k: int, r: nat)
    requires n >= 1 && r < n && a == n * k + r
    ensures a % n == r
  {
    assert n * (k - a / n) == a % n - r;
    MultipleIsFar(n, k - a / n);
  }

  /** A list without repetitions of numbers below `n` has at most `n` entries. */
  lemma {:induction false} Pigeonhole(s: seq<nat>, n: nat)
    requires Distinct(s) && forall i :: 0 <= i < |s| ==> s[i] < n
    ensures |s| <= n
    decreases n
  {
    if s == [] {
    } else {
      assert s[0] < n;
      if n - 1 in s {
        var k :| 0 <= k < |s| && s[k] == n - 1;
        Pigeonhole(s[..k] + s[k + 1..], n - 1);
      } else {
        Pigeonhole(s, n - 1);
      }
    }
  }

  /** A buffer outside a list of distinct buffers leaves room in it. */
  lemma RoomForOneMore(s: seq<nat>, extra: nat, n: nat)
    requires Distinct(s) && extra !in s && extra < n
    requires forall i :: 0 <= i < |s| ==> s[i] < n
    ensures |s| < n
  {
    Pigeonhole(s + [extra], n);
  }

  function Elems(s: seq<nat>): set<nat> { set x | x in s }

  lemma ElemsAt(s: seq<nat>)
    ensures forall k :: 0 <= k < |s| ==> s[k] in Elems(s)
  {
  }

  lemma ElemsCons(x: nat, rest: seq<nat>)
    ensures Elems([x] + rest) == {x} + Elems(rest)
    ensures x !in Elems(rest) && Distinct(rest) ==> Distinct([x] + rest)
  {
    ElemsAt(rest);
  }

  lemma {:induction false} ElemsCard(s: seq<nat>)
    ensures |Elems(s)| <= |s|
    ensures Distinct(s) ==> |Elems(s)| == |s|
  {
    if s != [] {
      ElemsCard(s[1..]);
      ElemsCons(s[0], s[1..]);
      assert [s[0]] + s[1..] == s;
    }
  }
}
