/** How RemoteRead and RemoteWrite divide a large range among `w` transfer workers. */
module PartSplit {

  /** Conversion of an unsigned 64-bit value to the 32-bit `int shipSize`. */
  function AsInt32(x: nat): (r: int)
    ensures -0x8000_0000 <= r < 0x8000_0000
    ensures x < 0x8000_0000 ==> r == x
    ensures (x - r) % 0x1_0000_0000 == 0
  {
    var m := x % 0x1_0000_0000;
    if m < 0x8000_0000 then m else m - 0x1_0000_0000
  }

  const TWO64: int := 0x1_0000_0000_0000_0000

  /** Conversion of a value to the unsigned 64-bit task size; the operands keep it within one wrap of the range. */
  function AsUint64(x: int): (r: nat)
    ensures r == x || r == x + TWO64 || r == x - TWO64 || !(-TWO64 <= x < 2 * TWO64)
    ensures -TWO64 <= x < 2 * TWO64 ==> r < TWO64
  {
    if x >= TWO64 then x - TWO64 else if x >= 0 then x else if x >= -TWO64 then x + TWO64 else 0
  }

  /** `x >> 12 << 12` on a signed int: rounding down to a multiple of 4096. */
  function Align(x: int): (r: int)
    ensures r % 4096 == 0 && r <= x < r + 4096
  {
    x / 4096 * 4096
  }

  function ShipSize(size: nat, w: nat): int
    requires w > 0
  {
    Align(AsInt32(size / w))
  }

  function PartOffset(size: nat, w: nat, i: nat): int
    requires w > 0
  {
    i * ShipSize(size, w)
  }

  /** The last-part rule is written for four workers whatever `w` is. */
  function PartSize(size: nat, w: nat, i: nat): nat
    requires w > 0
  {
    AsUint64(if i < 3 then ShipSize(size, w) else size - 3 * ShipSize(size, w))
  }

  /** No step of the 32-bit arithmetic overflows. */
  predicate FitsInt(size: nat, w: nat)
    requires w > 0
  {
    size / w < 0x8000_0000 && (w - 1) * ShipSize(size, w) < 0x8000_0000
  }

  /** Length of the prefix that the parts reach. */
  function Covered(size: nat, w: nat): nat
    requires 1 <= w <= 4 && FitsInt(size, w)
  {
    ShipSizeBounds(size, w);
    if w == 4 then size else w * ShipSize(size, w)
  }

  predicate InPart(size: nat, w: nat, i: nat, k: int)
    requires w > 0
  {
    PartOffset(size, w, i) <= k < PartOffset(size, w, i) + PartSize(size, w, i)
  }

  lemma ShipSizeBounds(size: nat, w: nat)
    requires w > 0 && FitsInt(size, w)
    ensures ShipSize(size, w) == Align(size / w) >= 0
    ensures w * ShipSize(size, w) <= size < w * ShipSize(size, w) + w * 4096
  {
    var q, s := size / w, ShipSize(size, w);
    assert s <= q < s + 4096;
    Quotient(size, w);
    MulMono(w, s, q);
    MulMono(w, q + 1, s + 4096);
    Distribute(w, q, s);
  }

  lemma Quotient(a: nat, w: nat)
    requires w > 0
    ensures w * (a / w) <= a < w * (a / w) + w
  {
  }

  lemma Distribute(w: nat, q: int, s: int)
    ensures w * (q + 1) == w * q + w && w * (s + 4096) == w * s + w * 4096
  {
  }

  lemma MulMono(w: nat, a: int, b: int)
    requires a <= b
    ensures w * a <= w * b
  {
  }

  lemma MulAligned(i: nat, s: nat)
    requires s % 4096 == 0
    ensures i * s % 4096 == 0
  {
    var q := s / 4096;
    assert i * s == i * q * 4096;
    DivModUnique(i * s, 4096, i * q, 0);
  }

  /** Part `i` starts aligned and ends where the next one begins, the last one at the end of the covered prefix. */
  ghost predicate PartFollows(size: nat, w: nat, i: nat)
    requires 1 <= w <= 4 && FitsInt(size, w) && i < w
  {
    && PartOffset(size, w, i) >= 0
    && PartOffset(size, w, i) % 4096 == 0
    && PartOffset(size, w, i) + PartSize(size, w, i) == if i + 1 < w then PartOffset(size, w,
        i + 1) else Covered(size, w)
  }

  /** Where one part ends the next begins; the last one ends the covered prefix. */
  lemma PartEnd(size: nat, w: nat, i: nat)
    requires 1 <= w <= 4 && FitsInt(size, w) && i < w
    ensures PartFollows(size, w, i)
  {
    ShipSizeBounds(size, w);
    var s := ShipSize(size, w);
    MulAligned(i, s);
    if i < 3 {
      assert (i + 1) * s == i * s + s;
      if i + 1 == w { assert Covered(size, w) == (i + 1) * s; }
    } else {
      assert 4 * s <= size && size / 4 < 0x8000_0000;
    }
  }

  /** The parts follow one another without gap or overlap, each starts 4 KB-aligned relative to the base,
      and together they are exactly the covered prefix. */
  lemma PartsTile(size: nat, w: nat)
    requires 1 <= w <= 4 && FitsInt(size, w)
    ensures PartOffset(size, w, 0) == 0
    ensures forall i :: 0 <= i < w ==> PartFollows(size, w, i)
    ensures Covered(size, w) <= size < Covered(size, w) + w * 4096
  {
    ShipSizeBounds(size, w);
    forall i | 0 <= i < w
      ensures PartFollows(size, w, i)
    {
      PartEnd(size, w, i);
    }
  }

  /** Two different parts never overlap. */
  lemma {:induction false} PartsDisjoint(size: nat, w: nat, i: nat, j: nat)
    requires 1 <= w <= 4 && FitsInt(size, w) && i < j < w
    ensures PartOffset(size, w, i) + PartSize(size, w, i) <= PartOffset(size, w, j)
    ensures PartOffset(size, w, j) + PartSize(size, w, j) <= Covered(size, w)
    decreases w - i
  {
    PartsTile(size, w);
    assert PartFollows(size, w, i) && PartFollows(size, w, j);
    if i + 1 < j {
      PartsDisjoint(size, w, i + 1, j);
    } else if j + 1 < w {
      PartsDisjoint(size, w, j, w - 1);
    }
  }

  /** Every covered byte lies in some part. */
  lemma PartOf(size: nat, w: nat, k: nat) returns (i: nat)
    requires 1 <= w <= 4 && FitsInt(size, w) && k < Covered(size, w)
    ensures i < w && InPart(size, w, i, k)
  {
    PartsTile(size, w);
    i := 0;
    while i + 1 < w && PartOffset(size, w, i + 1) <= k
      invariant i < w && PartOffset(size, w, i) <= k
    {
      i := i + 1;
    }
    assert PartFollows(size, w, i);
  }

  /** The parts reach the whole range exactly when the last-part rule applies or the split is even. */
  lemma CoversAllIff(size: nat, w: nat)
    requires 1 <= w <= 4 && FitsInt(size, w)
    ensures Covered(size, w) == size <==> w == 4 || size % (w * 4096) == 0
  {
    ShipSizeBounds(size, w);
    var m := w * 4096;
    var q := ShipSize(size, w) / 4096;
    assert ShipSize(size, w) == q * 4096;
    assert w * ShipSize(size, w) == q * m;
    assert size == q * m + (size - q * m) && 0 <= size - q * m < m;
    DivModUnique(size, m, q, size - q * m);
  }

  lemma DivModUnique(a: nat, m: nat, q: nat, r: nat)
    requires m > 0 && a == q * m + r && r < m
    ensures a % m == r && a / m == q
  {
    var d := a / m - q;
    assert a == a / m * m + a % m;
    assert d * m == r - a % m;
    if d >= 1 {
      MulMono(m, 1, d);
    } else if d <= -1 {
      MulMono(m, d, -1);
    }
  }

  /** The parts start aligned and follow one another from 0 to an end that misses less than a block for each worker. */
  ghost predicate Tiles(size: nat, w: nat)
    requires w > 0
  {
    && (forall i :: 0 <= i < w ==> PartOffset(size, w, i) >= 0 && PartOffset(size, w, i) % 4096 == 0)
    && (forall i :: 0 <= i < w - 1 ==> PartOffset(size, w, i) + PartSize(size, w, i) == PartOffset(size, w, i + 1))
    && PartOffset(size, w, w - 1) + PartSize(size, w, w - 1) <= size
    && size < PartOffset(size, w, w - 1) + PartSize(size, w, w - 1) + w * 4096
  }

  /** The range has parts at all: no product of the signed arithmetic overflows, which the language leaves undefined. */
  predicate Defined(size: nat, w: nat)
    requires w > 0
  {
    -0x8000_0000 <= (w - 1) * ShipSize(size, w) < 0x8000_0000
  }

  lemma TilesWhenFits(size: nat, w: nat)
    requires 1 <= w <= 4 && FitsInt(size, w)
    ensures Tiles(size, w)
  {
    PartsTile(size, w);
    forall i | 0 <= i < w
      ensures PartOffset(size, w, i) >= 0 && PartOffset(size, w, i) % 4096 == 0
      ensures i < w - 1 ==> PartOffset(size, w, i) + PartSize(size, w, i) == PartOffset(size, w, i + 1)
    {
      assert PartFollows(size, w, i);
    }
    assert PartFollows(size, w, w - 1);
  }

  /** A share that the 32-bit conversion cuts is too small, or negative, except for the last of four parts. */
  lemma TilesWhenCut(size: nat, w: nat)
    requires 1 <= w <= 4 && size < 0x8000_0000_0000_0000 && size / w >= 0x8000_0000
    ensures Tiles(size, w) <==> w == 4 && ShipSize(size, w) >= 0
  {
    var q, s := size / w, ShipSize(size, w);
    Quotient(size, w);
    assert s < 0x8000_0000 && s % 4096 == 0;
    assert s <= 0x8000_0000 - 4096;
    match w {
      case 1 => assert PartSize(size, 1, 0) == AsUint64(s);
      case 2 => assert PartOffset(size, 2, 1) == s && PartSize(size, 2, 1) == AsUint64(s);
      case 3 => assert PartOffset(size, 3, 1) == s && PartOffset(size, 3, 2) == 2 * s
          && PartSize(size, 3, 2) == AsUint64(s);
      case 4 => FourParts(size, s);
    }
  }

  lemma FourParts(size: nat, s: int)
    requires s == ShipSize(size, 4) <= size / 4 && size < 0x8000_0000_0000_0000
    ensures Tiles(size, 4) <==> s >= 0
  {
    assert PartOffset(size, 4, 1) == s;
    if s >= 0 {
      assert 3 * s <= size;
      assert PartSize(size, 4, 3) == AsUint64(size - 3 * s) == size - 3 * s;
      assert PartOffset(size, 4, 3) == 3 * s;
      forall i | 0 <= i < 4
        ensures PartOffset(size, 4, i) >= 0 && PartOffset(size, 4, i) % 4096 == 0
        ensures i < 3 ==> PartOffset(size, 4, i) + PartSize(size, 4, i) == PartOffset(size, 4, i + 1)
      {
        MulAligned(i, s);
      }
    }
  }

  /** Over every addressable size, exactly when the parts are contiguous, aligned and miss less than a block for each
      worker: when the share of a worker fits a signed 32-bit integer, or when there are four workers and the cut share
      is not negative, so that the last part makes up for it. */
  lemma TilesIff(size: nat, w: nat)
    requires 1 <= w <= 4 && size < 0x8000_0000_0000_0000 && Defined(size, w)
    ensures Tiles(size, w) <==> size / w < 0x8000_0000 || (w == 4 && ShipSize(size, w) >= 0)
  {
    if size / w < 0x8000_0000 { TilesWhenFits(size, w); } else { TilesWhenCut(size, w); }
  }

  /** The parts are [0, size) and nothing else. */
  ghost predicate CoversExactly(size: nat, w: nat)
    requires w > 0
  {
    forall k: int :: InSomePart(size, w, k) <==> 0 <= k < size
  }

  ghost predicate InSomePart(size: nat, w: nat, k: int)
    requires w > 0
  {
    exists i: nat :: i < w && InPart(size, w, i, k)
  }

  /** With the two workers the code is built with, over every addressable size. */
  lemma TwoWorkersIff(size: nat)
    requires size < 0x8000_0000_0000_0000
    ensures CoversExactly(size, 2) <==> size < 0x1_0000_0000 && size % 8192 == 0
  {
    var s := ShipSize(size, 2);
    if s < 0 {
      assert InPart(size, 2, 0, size);
      assert InSomePart(size, 2, size);
      assert size >= 0x1_0000_0000;
    } else {
      forall k: int
        ensures InSomePart(size, 2, k) <==> 0 <= k < 2 * s
      {
        assert PartSize(size, 2, 0) == PartSize(size, 2, 1) == s;
        if 0 <= k < s { assert InPart(size, 2, 0, k); }
        if s <= k < 2 * s { assert InPart(size, 2, 1, k); }
      }
      assert InSomePart(size, 2, size) <==> size < 2 * s;
      assert InSomePart(size, 2, 2 * s) <==> false;
      assert CoversExactly(size, 2) <==> 2 * s == size;
      if size < 0x1_0000_0000 {
        CoversAllIff(size, 2);
      }
    }
  }
}
