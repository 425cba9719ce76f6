/** The block bitmap: bytes read from the most significant bit, as an array updated in place, against the set of block
    numbers that are taken. */
module Bitmap {

  /** 0x80 shifted right by `j`. */
  function Mask(j: nat): bv8
    requires j < 8
  {
    match j
    case 0 => 0x80
    case 1 => 0x40
    case 2 => 0x20
    case 3 => 0x10
    case 4 => 0x08
    case 5 => 0x04
    case 6 => 0x02
    case 7 => 0x01
  }

  /** The byte with bit `j`, counted from the most significant one, set or cleared. */
  function ByteWith(b: bv8, j: nat): bv8
    requires j < 8
  {
    b | (0x80 >> j)
  }

  function ByteWithout(b: bv8, j: nat): bv8
    requires j < 8
  {
    b & !(0x80 >> j)
  }

  lemma MaskIs(b: bv8, j: nat)
    requires j < 8
    ensures b | Mask(j) == ByteWith(b, j) && b & !Mask(j) == ByteWithout(b, j)
  {
    assert j == 0 || j == 1 || j == 2 || j == 3 || j == 4 || j == 5 || j == 6 || j == 7;
  }

  predicate Bit(b: bv8, j: nat)
    requires j < 8
  {
    b & Mask(j) != 0
  }

  lemma SetBit(b: bv8, j: nat, i: nat)
    requires i < 8 && j < 8
    ensures Bit(b | Mask(j), i) == (i == j || Bit(b, i))
  {
    var m, n := Mask(j), Mask(i);
    assert m == n || m & n == 0;
    assert (b | m) & n == (b & n) | (m & n);
    assert i == j <==> m == n;
  }

  lemma ClearBit(b: bv8, j: nat, i: nat)
    requires i < 8 && j < 8
    ensures Bit(b & !Mask(j), i) == (i != j && Bit(b, i))
  {
    var m, n := Mask(j), Mask(i);
    assert m == n || m & n == 0;
    assert m == n ==> (b & !m) & n == 0;
    assert m & n == 0 ==> (b & !m) & n == b & n;
    assert i == j <==> m == n;
  }

  predicate Taken(bits: seq<bv8>, k: nat)
    requires k < 8 * |bits|
  {
    Bit(bits[k / 8], k % 8)
  }

  function Members(bits: seq<bv8>): set<nat> {
    set k: nat | k < 8 * |bits| && Taken(bits, k)
  }

  lemma WriteOther(bits: seq<bv8>, b: nat, v: bv8, i: nat)
    requires b < |bits| && i < 8 * |bits| && i / 8 != b
    ensures Taken(bits[b := v], i) == Taken(bits, i)
  {
  }

  lemma WriteSame(bits: seq<bv8>, b: nat, j: nat, i: nat)
    requires b < |bits| && j < 8 && i / 8 == b
    ensures Taken(bits[b := bits[b] | Mask(j)], i) == (i == 8 * b + j || Taken(bits, i))
    ensures Taken(bits[b := bits[b] & !Mask(j)], i) == (i != 8 * b + j && Taken(bits, i))
  {
    hide Bit, Mask;
    SetBit(bits[b], j, i % 8);
    ClearBit(bits[b], j, i % 8);
  }

  /** Writing one bit is inserting or removing one member; all other bits are kept. */
  lemma {:induction false} SetInserts(bits: seq<bv8>, b: nat, j: nat)
    requires b < |bits| && j < 8
    ensures Members(bits[b := bits[b] | Mask(j)]) == Members(bits) + {8 * b + j}
  {
    hide Taken, Mask;
    forall i: nat | i < 8 * |bits|
      ensures Taken(bits[b := bits[b] | Mask(j)], i) == (i == 8 * b + j || Taken(bits, i))
    {
      if i / 8 == b { WriteSame(bits, b, j, i); } else { WriteOther(bits, b, bits[b] | Mask(j), i); }
    }
  }

  lemma {:induction false} ClearRemoves(bits: seq<bv8>, b: nat, j: nat)
    requires b < |bits| && j < 8
    ensures Members(bits[b := bits[b] & !Mask(j)]) == Members(bits) - {8 * b + j}
  {
    hide Taken, Mask;
    forall i: nat | i < 8 * |bits|
      ensures Taken(bits[b := bits[b] & !Mask(j)], i) == (i != 8 * b + j && Taken(bits, i))
    {
      if i / 8 == b { WriteSame(bits, b, j, i); } else { WriteOther(bits, b, bits[b] & !Mask(j), i); }
    }
  }

  lemma BitSet(bits: seq<bv8>, k: nat)
    requires k / 8 < |bits|
    ensures Members(bits[k / 8 := bits[k / 8] | Mask(k % 8)]) == Members(bits) + {k}
    ensures bits[k / 8] | Mask(k % 8) == ByteWith(bits[k / 8], k % 8)
  {
    hide Mask, Members, ByteWith;
    SetInserts(bits, k / 8, k % 8);
    MaskIs(bits[k / 8], k % 8);
  }

  lemma BitCleared(bits: seq<bv8>, k: nat)
    requires k / 8 < |bits|
    ensures Members(bits[k / 8 := bits[k / 8] & !Mask(k % 8)]) == Members(bits) - {k}
    ensures bits[k / 8] & !Mask(k % 8) == ByteWithout(bits[k / 8], k % 8)
  {
    hide Mask, Members, ByteWithout;
    ClearRemoves(bits, k / 8, k % 8);
    MaskIs(bits[k / 8], k % 8);
  }

  datatype Write = Insert(k: nat) | Remove(k: nat)

  /** A sequence of in-range set and clear calls on the bytes, and on the set. */
  function WriteAll(bits: seq<bv8>, ws: seq<Write>): (r: seq<bv8>)
    requires forall w :: w in ws ==> w.k < 8 * |bits|
    ensures |r| == |bits|
  {
    if ws == [] then bits
    else
      var b, w := WriteAll(bits, ws[..|ws| - 1]), ws[|ws| - 1];
      var v := b[w.k / 8];
      b[w.k / 8 := if w.Insert? then v | Mask(w.k % 8) else v & !Mask(w.k % 8)]
  }

  function EditAll(taken: set<nat>, ws: seq<Write>): set<nat> {
    if ws == [] then taken
    else
      var t, w := EditAll(taken, ws[..|ws| - 1]), ws[|ws| - 1];
      if w.Insert? then t + {w.k} else t - {w.k}
  }

  /** Any sequence of calls on the bytes does to the members what the same insertions and removals do to the set. */
  lemma {:induction false} WritesRefineEdits(bits: seq<bv8>, ws: seq<Write>)
    requires forall w :: w in ws ==> w.k < 8 * |bits|
    ensures Members(WriteAll(bits, ws)) == EditAll(Members(bits), ws)
  {
    hide Members, Mask;
    if ws != [] {
      var n := |ws| - 1;
      var w := ws[n];
      WritesRefineEdits(bits, ws[..n]);
      var b := WriteAll(bits, ws[..n]);
      assert 8 * (w.k / 8) + w.k % 8 == w.k;
      if w.Insert? { SetInserts(b, w.k / 8, w.k % 8); } else { ClearRemoves(b, w.k / 8, w.k % 8); }
    }
  }

  lemma SameBits(a: bv8, b: bv8)
    requires forall j :: 0 <= j < 8 ==> Bit(a, j) == Bit(b, j)
    ensures a == b
  {
    assert Bit(a, 0) == Bit(b, 0) && Bit(a, 1) == Bit(b, 1) && Bit(a, 2) == Bit(b, 2) && Bit(a, 3) == Bit(b, 3);
    assert Bit(a, 4) == Bit(b, 4) && Bit(a, 5) == Bit(b, 5) && Bit(a, 6) == Bit(b, 6) && Bit(a, 7) == Bit(b, 7);
  }

  /** The set determines the bytes: a bitmap with the same members is the same bitmap. */
  lemma MembersDetermineBytes(a: seq<bv8>, b: seq<bv8>)
    requires |a| == |b| && Members(a) == Members(b)
    ensures a == b
  {
    hide Bit, Mask;
    forall i | 0 <= i < |a|
      ensures a[i] == b[i]
    {
      forall j | 0 <= j < 8
        ensures Bit(a[i], j) == Bit(b[i], j)
      {
        TakenIff(a, i, j);
        TakenIff(b, i, j);
      }
      SameBits(a[i], b[i]);
    }
  }

  lemma TakenIff(bits: seq<bv8>, b: nat, j: nat)
    requires b < |bits| && j < 8
    ensures Bit(bits[b], j) <==> 8 * b + j in Members(bits)
  {
  }

  // ---------------------------------------------------------------- the scan, on sets

  /** The first `num` blocks from `k` on that are not taken, or all of them if there are fewer. */
  function Scan(taken: set<nat>, k: nat, total: nat, num: nat): (blocks: seq<nat>)
    ensures |blocks| <= num
    decreases total - k
  {
    if num == 0 || k >= total then []
    else if k in taken then Scan(taken, k + 1, total, num)
    else [k] + Scan(taken, k + 1, total, num - 1)
  }

  function SetOf(blocks: seq<nat>): set<nat> { set b | b in blocks }

  predicate Ascending(blocks: seq<nat>) { forall i, j :: 0 <= i < j < |blocks| ==> blocks[i] < blocks[j] }

  /** What the scan finds was free, is within the bitmap, ascends, and skips no free block; and it finds `num`
      blocks exactly when that many are free. */
  lemma {:induction false} ScanFinds(taken: set<nat>, k: nat, total: nat, num: nat)
    ensures var blocks := Scan(taken, k, total, num);
      && |blocks| <= num && Ascending(blocks)
      && (forall b :: b in blocks ==> k <= b < total && b !in taken)
      && (forall f :: k <= f < total && f !in taken && f !in blocks ==>
            |blocks| == num && forall b :: b in blocks ==> b < f)
    decreases total - k
  {
    if num > 0 && k < total {
      if k in taken {
        ScanFinds(taken, k + 1, total, num);
      } else {
        var rest := Scan(taken, k + 1, total, num - 1);
        ScanFinds(taken, k + 1, total, num - 1);
        forall j | 0 <= j < |rest| ensures k < rest[j] { assert rest[j] in rest; }
      }
    }
  }

  function Free(taken: set<nat>, total: nat): set<nat> { set k: nat | k < total && k !in taken }

  lemma {:induction false} AscendingCard(blocks: seq<nat>)
    requires Ascending(blocks)
    ensures |SetOf(blocks)| == |blocks|
  {
    if blocks == [] {
      assert SetOf(blocks) == {};
    } else {
      var rest, last := blocks[..|blocks| - 1], blocks[|blocks| - 1];
      AscendingCard(rest);
      assert blocks == rest + [last];
      assert SetOf(blocks) == SetOf(rest) + {last};
    }
  }

  lemma CardMonotone(a: set<nat>, b: set<nat>)
    requires a <= b
    ensures |a| <= |b| && (|a| == |b| ==> a == b)
  {
    assert b == a + (b - a);
  }

  /** The scan succeeds exactly when enough blocks are free; otherwise it has found every free block. */
  lemma ScanSucceedsIff(taken: set<nat>, total: nat, num: nat)
    ensures var blocks := Scan(taken, 0, total, num);
      && (|blocks| == num <==> num <= |Free(taken, total)|)
      && (|blocks| != num ==> SetOf(blocks) == Free(taken, total))
      && |SetOf(blocks)| == |blocks| && SetOf(blocks) <= Free(taken, total)
  {
    var blocks := Scan(taken, 0, total, num);
    ScanFinds(taken, 0, total, num);
    AscendingCard(blocks);
    assert SetOf(blocks) <= Free(taken, total);
    CardMonotone(SetOf(blocks), Free(taken, total));
    if |blocks| != num { assert SetOf(blocks) == Free(taken, total); }
  }

  /** How far a scan is before it looks at block `k`: `list[..count]` is found and marked. */
  ghost predicate Scanned(taken: set<nat>, total: nat, num: nat, contents: set<nat>, before: seq<nat>,
                  list: seq<nat>, count: nat, k: nat) {
    && count <= num <= |list| == |before|
    && list[..count] + Scan(taken, k, total, num - count) == Scan(taken, 0, total, num)
    && list[count..] == before[count..]
    && contents == taken + SetOf(list[..count])
    && forall b :: b in list[..count] ==> b < k
  }

  lemma ScanStarts(taken: set<nat>, total: nat, num: nat, list: seq<nat>)
    requires num <= |list|
    ensures Scanned(taken, total, num, taken, list, list, 0, 0)
  {
  }

  lemma PassTaken(taken: set<nat>, total: nat, num: nat, contents: set<nat>, before: seq<nat>,
                  list: seq<nat>, count: nat, k: nat)
    requires Scanned(taken, total, num, contents, before, list, count, k) && count < num && k < total && k in contents
    ensures Scanned(taken, total, num, contents, before, list, count, k + 1)
  {
  }

  lemma TakeFree(taken: set<nat>, total: nat, num: nat, contents: set<nat>, before: seq<nat>,
                  list: seq<nat>, count: nat, k: nat)
    requires Scanned(taken, total, num, contents, before, list, count, k) && count < num && k < total && k !in contents
    ensures Scanned(taken, total, num, contents + {k}, before, list[count := k], count + 1, k + 1)
  {
    var l := list[count := k];
    assert l[..count + 1] == list[..count] + [k];
    assert SetOf(l[..count + 1]) == SetOf(list[..count]) + {k};
    assert Scan(taken, k, total, num - count) == [k] + Scan(taken, k + 1, total, num - count - 1);
  }

  lemma ScanEnds(taken: set<nat>, total: nat, num: nat, contents: set<nat>, before: seq<nat>,
                  list: seq<nat>, count: nat, k: nat)
    requires Scanned(taken, total, num, contents, before, list, count, k) && (count == num || k >= total)
    ensures var blocks := Scan(taken, 0, total, num);
      count == |blocks| && contents == taken + SetOf(blocks) && list == blocks + before[|blocks|..]
  {
    assert list == list[..count] + list[count..];
    assert list[..count] == Scan(taken, 0, total, num);
  }

  // ---------------------------------------------------------------- the class

  datatype Code = Success | Error | PastEnd

  /** What happens to a caller of the scan as the source has it. Relocks: it takes its own spinlock a second time
      before it returns, and waits for itself. */
  datatype Outcome = TooMany | NoResult | BeyondStorage | Spins | Relocks

  const MAX_ADDR_NUM: nat := 64

  class BlockBitmap {
    /** One byte for each eight blocks; the source allocates a single one. */
    const bits: array<bv8>

    ghost function Contents(): set<nat>
      reads bits
    {
      Members(bits[..])
    }

    constructor (num: nat)
      ensures fresh(bits) && bits.Length == (num + 7) / 8 && Contents() == {}
    {
      bits := new bv8[(num + 7) / 8](_ => 0);
      new;
      forall k: nat | k < 8 * bits.Length ensures !Taken(bits[..], k) { }
    }

    /** The guard lets k == 8 * N through, for which the byte written is beyond the array. */
    method Set(k: nat) returns (r: Code)
      modifies bits
      ensures r == if k > 8 * bits.Length then Error else if k == 8 * bits.Length then PastEnd else Success
      ensures Contents() == if r.Success? then old(Contents()) + {k} else old(Contents())
      ensures bits[..] ==
        if k < 8 * bits.Length then old(bits[..])[k / 8 := ByteWith(old(bits[..])[k / 8], k % 8)] else old(bits[..])
    {
      if k > 8 * bits.Length { return Error; }
      if k / 8 == bits.Length { return PastEnd; }
      hide Mask, Bit, Taken, Members, ByteWith, ByteWithout;
      ghost var before := bits[..];
      BitSet(before, k);
      bits[k / 8] := bits[k / 8] | Mask(k % 8);
      assert bits[..] == before[k / 8 := before[k / 8] | Mask(k % 8)];
      return Success;
    }

    method Clear(k: nat) returns (r: Code)
      modifies bits
      ensures r == if k > 8 * bits.Length then Error else if k == 8 * bits.Length then PastEnd else Success
      ensures Contents() == if r.Success? then old(Contents()) - {k} else old(Contents())
      ensures bits[..] ==
        if k < 8 * bits.Length then old(bits[..])[k / 8 := ByteWithout(old(bits[..])[k / 8], k % 8)] else old(bits[..])
    {
      if k > 8 * bits.Length { return Error; }
      if k / 8 == bits.Length { return PastEnd; }
      hide Mask, Bit, Taken, Members, ByteWith, ByteWithout;
      ghost var before := bits[..];
      BitCleared(before, k);
      bits[k / 8] := bits[k / 8] & !Mask(k % 8);
      assert bits[..] == before[k / 8 := before[k / 8] & !Mask(k % 8)];
      return Success;
    }

    /** One bit of the repaired scan: a free block is marked and listed. */
    method Visit(i: nat, pos: nat, num: nat, lists: array<nat>, found: nat, ghost taken: set<nat>,
        ghost before: seq<nat>)
      returns (count: nat)
      requires i < bits.Length && pos < 8 && found < num <= lists.Length && (lists as object) != bits
      requires Scanned(taken, 8 * bits.Length, num, Contents(), before, lists[..], found, 8 * i + pos)
      modifies bits, lists
      ensures count <= num
          && Scanned(taken, 8 * bits.Length, num, Contents(), before, lists[..], count, 8 * i + pos + 1)
    {
      hide Scanned, Bit, Mask, Members;
      ghost var total, contents, list := 8 * bits.Length, Contents(), lists[..];
      var k: nat := 8 * i + pos;
      TakenIff(bits[..], i, pos);
      count := found;
      if !Bit(bits[i], pos) {
        TakeFree(taken, total, num, contents, before, list, count, k);
        var r := Set(k);
        lists[count] := k;
        assert lists[..] == list[count := k];
        count := count + 1;
      } else {
        PassTaken(taken, total, num, contents, before, list, count, k);
      }
    }

    /** The scan with its faults repaired: it looks at all bytes and all bits, sets the bit that it tests, passes
        taken bits, stops at `num` and unlocks. On failure what it has marked stays marked. */
    method GetAvailableBlocks(num: nat, lists: array<nat>) returns (r: Code)
      requires lists.Length >= num && (lists as object) != bits
      modifies bits, lists
      ensures r == if num > 64 || |Scan(old(Contents()), 0, 8 * bits.Length, num)| < num then Error else Success
      ensures num > 64 ==> Contents() == old(Contents()) && lists[..] == old(lists[..])
      ensures num <= 64 ==>
        var blocks := Scan(old(Contents()), 0, 8 * bits.Length, num);
        Contents() == old(Contents()) + SetOf(blocks) && lists[..] == blocks + old(lists[..])[|blocks|..]
    {
      hide Scanned, Scan, Members, SetOf;
      if num > MAX_ADDR_NUM { return Error; }
      ghost var taken, total := Contents(), 8 * bits.Length;
      ghost var before := lists[..];
      var count, i := 0, 0;
      ghost var at := 0;
      ScanStarts(taken, total, num, before);
      while i < bits.Length && count < num
        invariant 0 <= i <= bits.Length && 0 <= count <= num && (count < num ==> at == 8 * i)
        invariant Scanned(taken, total, num, Contents(), before, lists[..], count, at)
      {
        var pos := 0;
        while pos < 8 && count < num
          invariant 0 <= pos <= 8 && 0 <= count <= num && at == 8 * i + pos
          invariant Scanned(taken, total, num, Contents(), before, lists[..], count, at)
        {
          count := Visit(i, pos, num, lists, count, taken, before);
          pos, at := pos + 1, at + 1;
        }
        i := i + 1;
      }
      ScanEnds(taken, total, num, Contents(), before, lists[..], count, at);
      r := if count == num then Success else Error;
    }

    /** Bit `pos` counted from the other end of the first byte. */
    method MarkMirrored(pos: nat)
      requires bits.Length > 0 && pos < 8
      modifies bits
      ensures Contents() == old(Contents()) + {7 - pos}
    {
      SetInserts(bits[..], 0, 7 - pos);
      bits[0] := bits[0] | Mask(7 - pos);
    }

    /** One round of the scan as the source has it: the mirrored bit, the entry of the list, and the bit itself. */
    method MarkBoth(pos: nat, list: seq<nat>) returns (longer: seq<nat>)
      requires bits.Length > 0 && pos < 8
      modifies bits
      ensures longer == list + [pos] && Contents() == old(Contents()) + {7 - pos} + {pos}
    {
      hide Members, Mask;
      MarkMirrored(pos);
      longer := list + [pos];
      var done := Set(longer[|list|]);
    }

    /** The scan as the source has it, for a platform where char is signed, so that no byte ever looks full. It
        tests one bit and marks the mirrored one as well, never passes a taken bit, and never restarts `pos`.
        Only the first byte is ever reached: the guard pos < 8 of the inner loop holds whenever it is tested, so
        that loop is left by a return or not at all, and the loop over bytes never advances. `list` is what has
        been written through the argument. */
    method ScanAsWritten(num: nat) returns (r: Outcome, list: seq<nat>)
      modifies bits
      ensures r ==
        if num > 64 then TooMany
        else if num == 0 then NoResult
        else if bits.Length == 0 then BeyondStorage
        else if 2 <= num <= 5 && AllFree(old(Contents()), num - 1) then Relocks
        else Spins
      ensures r.Relocks? ==> list == Counting(num - 1) && Contents() == old(Contents()) + Mirrored(num - 1)
    {
      if num > MAX_ADDR_NUM { return TooMany, []; }
      if num == 0 { return NoResult, []; }
      if bits.Length == 0 { return BeyondStorage, []; }
      ghost var taken := Contents();
      list := [];
      var count, pos := 0, 0;
      assert Mirrored(0) == {} && AllFree(taken, 0);
      hide Bit, Mask, Members, Mirrored, AllFree;
      while true
        invariant 0 <= pos == count <= 4 && (num > 1 ==> pos < num - 1) && list == Counting(pos)
        invariant Contents() == taken + Mirrored(pos) && AllFree(taken, pos)
        decreases 8 - pos
      {
        MirroredNext(taken, pos);
        TakenIff(bits[..], 0, pos);
        if Bit(bits[0], pos) { return Spins, list; }
        list := MarkBoth(pos, list);
        pos, count := pos + 1, count + 1;
        if count == num - 1 { return Relocks, list; }
      }
    }
  }

  function Counting(n: nat): seq<nat> { if n == 0 then [] else Counting(n - 1) + [n - 1] }

  predicate IsMirrored(k: nat, n: nat) { k < n || 8 - n <= k }

  /** The first `n` blocks and their mirror images in the first byte. */
  function Mirrored(n: nat): set<nat> { set k: nat | k < 8 && IsMirrored(k, n) }

  predicate AllFree(taken: set<nat>, n: nat) { forall k: nat :: k < n ==> k !in taken }

  /** What finding bit `n` taken, or marking it and its mirror image, means for the first blocks. */
  lemma MirroredNext(taken: set<nat>, n: nat)
    requires n < 8
    ensures Mirrored(n + 1) == Mirrored(n) + {7 - n} + {n}
    ensures n in Mirrored(n) <==> n >= 4
    ensures AllFree(taken, n + 1) <==> AllFree(taken, n) && n !in taken
    ensures n in taken ==> forall m: nat :: m > n ==> !AllFree(taken, m)
  {
    forall k: nat | k < 8 ensures IsMirrored(k, n + 1) == (IsMirrored(k, n) || k == 7 - n || k == n) { }
    assert n in Mirrored(n) <==> IsMirrored(n, n);
  }
}
