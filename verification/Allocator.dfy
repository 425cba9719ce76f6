/** Allocating and freeing blocks of the data region: the methods over the bitmap, and what any history of requests
    means for the blocks that are in use. */
module Allocator {
  import opened Bitmap

  const TWO64: nat := 0x1_0000_0000_0000_0000

  function Address(base: nat, block: nat): nat { base + block * 4096 }

  /** Which block an address is in, by unsigned 64-bit subtraction. */
  function BlockOf(base: nat, addr: nat): nat
    requires base < TWO64
  {
    (addr + TWO64 - base) % TWO64 / 4096
  }

  lemma BlockOfAddress(base: nat, block: nat)
    requires Address(base, block) < TWO64
    ensures BlockOf(base, Address(base, block)) == block
  {
    assert block * 4096 / 4096 == block;
  }

  /** The blocks tile the data region: each byte of it is in exactly one, and they have 4096 bytes each. */
  lemma BlocksTile(base: nat, total: nat, a: nat)
    ensures base <= a < base + 4096 * total <==> exists b :: 0 <= b < total && InBlock(base, b, a)
    ensures forall b: nat, c: nat :: InBlock(base, b, a) && InBlock(base, c, a) ==> b == c
  {
    if base <= a < base + 4096 * total {
      var b := (a - base) / 4096;
      assert b < total && InBlock(base, b, a);
    }
  }

  predicate InBlock(base: nat, b: nat, a: nat) { Address(base, b) <= a < Address(base, b) + 4096 }

  lemma BlocksDisjoint(base: nat, a: nat, b: nat)
    requires a != b
    ensures Address(base, a) + 4096 <= Address(base, b) || Address(base, b) + 4096 <= Address(base, a)
  {
  }

  function Addresses(base: nat, blocks: seq<nat>): (addrs: seq<nat>)
    ensures |addrs| == |blocks| && forall i :: 0 <= i < |blocks| ==> addrs[i] == Address(base, blocks[i])
  {
    seq(|blocks|, i requires 0 <= i < |blocks| => Address(base, blocks[i]))
  }

  /** The blocks that a list of addresses names, as far as they are in the bitmap. */
  function Named(base: nat, total: nat, addrs: seq<nat>): set<nat>
    requires base < TWO64
  {
    set a | a in addrs && BlockOf(base, a) < total :: BlockOf(base, a)
  }

  lemma Prefix(list: seq<nat>, blocks: seq<nat>, before: seq<nat>, num: nat)
    requires |blocks| <= num <= |before| && list == blocks + before[|blocks|..]
    ensures |list| == |before| && list[num..] == before[num..] && (|blocks| == num ==> list[..num] == blocks)
  {
  }

  /** The number of blocks the bitmap is made for: the macro for the block size stands without parentheses, so the
      data size is divided by 4 and then multiplied by 1024. */
  function BlockCount(dataSize: nat): nat { dataSize / 4 * 1024 + 1 }

  /** The source allocates one byte whatever the number of blocks: it holds every block exactly for data sizes below
      4, which the size 2 of the server is. */
  lemma OneByteSufficesIff(dataSize: nat)
    ensures (forall k: nat :: k < 8 * ((BlockCount(dataSize) + 7) / 8) ==> InFirstByte(k)) <==> dataSize < 4
    ensures (BlockCount(dataSize) + 7) / 8 == dataSize / 4 * 128 + 1
  {
    var bytes := (BlockCount(dataSize) + 7) / 8;
    assert dataSize < 4 <==> bytes == 1;
    assert bytes > 1 ==> !InFirstByte(8);
  }

  predicate InFirstByte(k: nat) { k / 8 == 0 }

  class MemoryManager {
    const bitmap: BlockBitmap
    const dataBase: nat

    constructor (base: nat, num: nat)
      ensures dataBase == base && fresh(bitmap) && fresh(bitmap.bits)
      ensures bitmap.bits.Length == (num + 7) / 8 && bitmap.Contents() == {}
    {
      dataBase := base;
      bitmap := new BlockBitmap(num);
    }

    method AllocateMemoryBlocks(num: nat, addrList: array<nat>) returns (r: Code)
      requires addrList.Length >= num && (addrList as object) != bitmap.bits
      modifies bitmap.bits, addrList
      ensures var blocks := Scan(old(bitmap.Contents()), 0, 8 * bitmap.bits.Length, num);
        && r == (if num <= 64 && |blocks| == num then Success else Error)
        && bitmap.Contents() == old(bitmap.Contents()) + (if num <= 64 then SetOf(blocks) else {})
        && (r.Success? ==> addrList[..num] == Addresses(dataBase, blocks))
        && (r.Success? ==> forall i :: 0 <= i < num ==> addrList[i] == dataBase + blocks[i] * 4096)
      ensures addrList[num..] == old(addrList[num..])
    {
      if num > MAX_ADDR_NUM { return Error; }
      ghost var blocks := Scan(bitmap.Contents(), 0, 8 * bitmap.bits.Length, num);
      ghost var before := addrList[..];
      ghost var rest := before[num..];
      hide Scan;
      r := bitmap.GetAvailableBlocks(num, addrList);
      Prefix(addrList[..], blocks, before, num);
      if !r.Success? { return Error; }
      ghost var contents := bitmap.Contents();
      assert addrList[..num] == blocks;
      var i := 0;
      while i < num
        invariant 0 <= i <= num && addrList[num..] == rest && bitmap.Contents() == contents
        invariant forall k :: 0 <= k < i ==> addrList[k] == Address(dataBase, blocks[k])
        invariant forall k :: i <= k < num ==> addrList[k] == blocks[k]
      {
        addrList[i] := dataBase + addrList[i] * 4096;
        i := i + 1;
      }
    }

    /** With the address turned back into a block number, which the source forgets. */
    method FreeMemoryBlocks(num: nat, addrList: seq<nat>) returns (r: Code)
      requires num <= |addrList| && dataBase < TWO64
      modifies bitmap.bits
      ensures num == 0 ==> r == Error && bitmap.Contents() == old(bitmap.Contents())
      ensures num > 0 && !r.PastEnd? ==>
        && bitmap.Contents() == old(bitmap.Contents()) - Named(dataBase, 8 * bitmap.bits.Length, addrList[..num])
        && (r.Success? <==> forall k :: 0 <= k < num ==> BlockOf(dataBase, addrList[k]) < 8 * bitmap.bits.Length)
      ensures r.PastEnd? <==> exists k :: 0 <= k < num && BlockOf(dataBase, addrList[k]) == 8 * bitmap.bits.Length
    {
      if num == 0 { return Error; }
      ghost var taken, total := bitmap.Contents(), 8 * bitmap.bits.Length;
      var tag, i := false, 0;
      while i < num
        invariant 0 <= i <= num
        invariant bitmap.Contents() == taken - Named(dataBase, total, addrList[..i])
        invariant tag <==> exists k :: 0 <= k < i && BlockOf(dataBase, addrList[k]) >= total
        invariant forall k :: 0 <= k < i ==> BlockOf(dataBase, addrList[k]) != total
      {
        var block := BlockOf(dataBase, addrList[i]);
        var c := bitmap.Clear(block);
        if c.PastEnd? { return PastEnd; }
        NamedNext(dataBase, total, addrList, i);
        if c.Error? { tag := true; }
        i := i + 1;
      }
      r := if tag then Error else Success;
    }

    /** As the source has it, every address is taken for a block number. */
    method FreeAsWritten(num: nat, addrList: seq<nat>) returns (r: Code)
      requires num <= |addrList|
      modifies bitmap.bits
      ensures num == 0 ==> r == Error && bitmap.Contents() == old(bitmap.Contents())
      ensures num > 0 && !r.PastEnd? ==>
        && bitmap.Contents() == old(bitmap.Contents()) - Below(8 * bitmap.bits.Length, addrList[..num])
        && (r.Success? <==> forall k :: 0 <= k < num ==> addrList[k] < 8 * bitmap.bits.Length)
      ensures r.PastEnd? <==> exists k :: 0 <= k < num && addrList[k] == 8 * bitmap.bits.Length
    {
      if num == 0 { return Error; }
      ghost var taken, total := bitmap.Contents(), 8 * bitmap.bits.Length;
      var tag, i := false, 0;
      while i < num
        invariant 0 <= i <= num
        invariant bitmap.Contents() == taken - Below(total, addrList[..i])
        invariant tag <==> exists k :: 0 <= k < i && addrList[k] >= total
        invariant forall k :: 0 <= k < i ==> addrList[k] != total
      {
        var c := bitmap.Clear(addrList[i]);
        if c.PastEnd? { return PastEnd; }
        assert addrList[..i + 1] == addrList[..i] + [addrList[i]];
        if c.Error? { tag := true; }
        i := i + 1;
      }
      r := if tag then Error else Success;
    }
  }

  function Below(total: nat, addrs: seq<nat>): set<nat> { set a | a in addrs && a < total }

  lemma AddressesMember(base: nat, blocks: seq<nat>, x: nat)
    ensures x in Addresses(base, blocks) <==> exists b :: b in blocks && x == Address(base, b)
  {
    var addrs := Addresses(base, blocks);
    if x in addrs {
      var k :| 0 <= k < |addrs| && addrs[k] == x;
      assert blocks[k] in blocks;
    }
    if b :| b in blocks && x == Address(base, b) {
      var k :| 0 <= k < |blocks| && blocks[k] == b;
      assert addrs[k] == x;
    }
  }

  /** Every block number would be the address of another block of the list, and smaller ones run out. */
  lemma {:induction false} Descent(base: nat, total: nat, blocks: seq<nat>, x: nat)
    requires Below(total, Addresses(base, blocks)) == SetOf(blocks) && x in blocks
    ensures x == 0 && base == 0
    decreases x
  {
    assert x in SetOf(blocks);
    AddressesMember(base, blocks, x);
    var b :| b in blocks && x == Address(base, b);
    if b < x { Descent(base, total, blocks, b); }
  }

  lemma OnlyZero(total: nat, blocks: seq<nat>)
    requires SetOf(blocks) == {0} && forall b :: b in blocks ==> b < total
    ensures Below(total, Addresses(0, blocks)) == {0}
  {
    var addrs := Addresses(0, blocks);
    forall k | 0 <= k < |blocks| ensures addrs[k] == 0 { assert blocks[k] in SetOf(blocks); }
    assert 0 in SetOf(blocks);
    assert addrs[0] == 0;
    forall y | y in addrs ensures y == 0 { }
  }

  lemma FreesNamed(base: nat, total: nat, blocks: seq<nat>)
    requires Below(total, Addresses(base, blocks)) == SetOf(blocks)
    ensures SetOf(blocks) == {} || (base == 0 && SetOf(blocks) == {0})
  {
    forall x | x in SetOf(blocks) ensures x == 0 && base == 0 { Descent(base, total, blocks, x); }
    if SetOf(blocks) != {} { var x :| x in SetOf(blocks); }
  }

  /** Exactly when passing addresses frees the blocks that they name: only for an empty list, or for block 0 of a data
      region that starts at address 0. */
  lemma FreeAsWrittenIff(base: nat, total: nat, blocks: seq<nat>)
    requires forall b :: b in blocks ==> b < total
    ensures Below(total, Addresses(base, blocks)) == SetOf(blocks)
            <==> SetOf(blocks) == {} || (base == 0 && SetOf(blocks) == {0})
  {
    if Below(total, Addresses(base, blocks)) == SetOf(blocks) { FreesNamed(base, total, blocks); }
    if base == 0 && SetOf(blocks) == {0} { OnlyZero(total, blocks); }
    NoBlocks(blocks);
  }

  lemma NoBlocks(blocks: seq<nat>)
    ensures SetOf(blocks) == {} <==> blocks == []
  {
    if blocks != [] { assert blocks[0] in SetOf(blocks); }
  }

  /** It frees nothing exactly when every address is beyond the block numbers, as every address of a region in real
      memory is. */
  lemma FreeAsWrittenFreesNothing(base: nat, total: nat, blocks: seq<nat>)
    ensures Below(total, Addresses(base, blocks)) == {} <==> forall b :: b in blocks ==> Address(base, b) >= total
    ensures base > total ==> Below(total, Addresses(base, blocks)) == {}
    ensures base > total ==> forall k :: 0 <= k < |blocks| ==> Addresses(base, blocks)[k] > total
  {
    forall x ensures x in Addresses(base, blocks) <==> exists b :: b in blocks && x == Address(base, b) {
      AddressesMember(base, blocks, x);
    }
    if Below(total, Addresses(base, blocks)) == {} {
      forall b | b in blocks ensures Address(base, b) >= total {
        assert Address(base, b) in Addresses(base, blocks);
        assert Address(base, b) !in Below(total, Addresses(base, blocks));
      }
    }
  }

  lemma NamedNext(base: nat, total: nat, addrs: seq<nat>, i: nat)
    requires base < TWO64 && i < |addrs|
    ensures Named(base, total, addrs[..i + 1]) ==
      Named(base, total, addrs[..i]) + if BlockOf(base, addrs[i]) < total then {BlockOf(base, addrs[i])} else {}
  {
    hide BlockOf;
    assert addrs[..i + 1] == addrs[..i] + [addrs[i]];
  }

  /** The addresses that an allocation returned name exactly its blocks, so freeing them undoes it. */
  lemma FreeUndoesAlloc(base: nat, total: nat, taken: set<nat>, num: nat)
    requires base < TWO64 && Address(base, total) <= TWO64 && num <= MAX_ADDR_NUM
    ensures var blocks := Scan(taken, 0, total, num);
      && Named(base, total, Addresses(base, blocks)) == SetOf(blocks)
      && (taken + SetOf(blocks)) - Named(base, total, Addresses(base, blocks)) == taken
  {
    var blocks := Scan(taken, 0, total, num);
    var addrs := Addresses(base, blocks);
    ScanFinds(taken, 0, total, num);
    forall i | 0 <= i < |blocks|
      ensures BlockOf(base, addrs[i]) == blocks[i] && blocks[i] < total && blocks[i] !in taken
    {
      assert blocks[i] in blocks;
      BlockOfAddress(base, blocks[i]);
    }
    hide BlockOf, Scan;
    forall b | b in SetOf(blocks) ensures b in Named(base, total, addrs) {
      var i :| 0 <= i < |blocks| && blocks[i] == b;
      assert addrs[i] in addrs;
    }
  }

  // ---------------------------------------------------------------- histories

  /** `taken` is what the bitmap holds; `live` the allocations that have not been freed; `leaked` the blocks that
      failing requests have marked. */
  datatype Heap = Heap(taken: set<nat>, live: map<nat, seq<nat>>, next: nat, leaked: set<nat>)

  datatype Request = Alloc(num: nat) | Release(id: nat)

  const Empty: Heap := Heap({}, map[], 0, {})

  predicate Possible(h: Heap, q: Request) { q.Release? ==> q.id in h.live }

  function Apply(h: Heap, total: nat, q: Request): Heap
    requires Possible(h, q)
  {
    match q
    case Alloc(num) =>
      var blocks := Scan(h.taken, 0, total, num);
      if num > MAX_ADDR_NUM then h
      else if |blocks| == num then
        h.(taken := h.taken + SetOf(blocks), live := h.live[h.next := blocks], next := h.next + 1)
      else h.(taken := h.taken + SetOf(blocks), leaked := h.leaked + SetOf(blocks))
    case Release(id) => h.(taken := h.taken - SetOf(h.live[id]), live := h.live - {id})
  }

  ghost predicate History(total: nat, qs: seq<Request>)
    decreases |qs|, 0
  {
    qs == [] || (History(total, qs[..|qs| - 1]) && Possible(After(total, qs[..|qs| - 1]), qs[|qs| - 1]))
  }

  ghost function After(total: nat, qs: seq<Request>): Heap
    requires History(total, qs)
    decreases |qs|, 1
  {
    if qs == [] then Empty else Apply(After(total, qs[..|qs| - 1]), total, qs[|qs| - 1])
  }

  ghost predicate Inv(h: Heap, total: nat) {
    && (forall b :: b in h.taken ==> b < total)
    && (forall id :: id in h.live ==>
          id < h.next && Ascending(h.live[id]) && SetOf(h.live[id]) <= h.taken && SetOf(h.live[id]) !! h.leaked)
    && (forall i, j :: i in h.live && j in h.live && i != j ==> SetOf(h.live[i]) !! SetOf(h.live[j]))
    && h.leaked <= h.taken
    && (forall b :: b in h.taken ==> b in h.leaked || exists id :: id in h.live && b in SetOf(h.live[id]))
  }

  lemma AllocInv(h: Heap, total: nat, num: nat)
    requires Inv(h, total)
    ensures Inv(Apply(h, total, Alloc(num)), total)
  {
    var blocks := Scan(h.taken, 0, total, num);
    var h' := Apply(h, total, Alloc(num));
    ScanFinds(h.taken, 0, total, num);
    assert SetOf(blocks) !! h.taken;
    hide Scan, Ascending;
    forall b | b in h'.taken
      ensures b in h'.leaked || exists id :: id in h'.live && b in SetOf(h'.live[id])
    {
      if b in h.taken && b !in h.leaked {
        var id :| id in h.live && b in SetOf(h.live[id]);
        assert h'.live[id] == h.live[id];
      } else if b !in h.taken && num <= MAX_ADDR_NUM && |blocks| == num {
        assert h.next in h'.live && b in SetOf(h'.live[h.next]);
      }
    }
  }

  lemma ReleaseInv(h: Heap, total: nat, id: nat)
    requires Inv(h, total) && id in h.live
    ensures Inv(Apply(h, total, Release(id)), total)
  {
    hide Ascending;
    var h' := Apply(h, total, Release(id));
    forall b | b in h'.taken
      ensures b in h'.leaked || exists i :: i in h'.live && b in SetOf(h'.live[i])
    {
      if b !in h.leaked {
        var i :| i in h.live && b in SetOf(h.live[i]);
        assert i in h'.live && h'.live[i] == h.live[i];
      }
    }
  }

  lemma {:induction false} HistoryInv(total: nat, qs: seq<Request>)
    requires History(total, qs)
    ensures Inv(After(total, qs), total)
    decreases |qs|
  {
    if qs != [] {
      var k := |qs| - 1;
      HistoryInv(total, qs[..k]);
      match qs[k] {
        case Alloc(num) => AllocInv(After(total, qs[..k]), total, num);
        case Release(id) => ReleaseInv(After(total, qs[..k]), total, id);
      }
    }
  }

  ghost function LiveBlocks(h: Heap): set<nat> { set id, b | id in h.live && b in h.live[id] :: b }

  /** After every history the bitmap holds exactly the blocks of the allocations not yet freed and those that
      failing requests left marked; no block belongs to two of these. */
  lemma {:induction false} BitmapIsLiveAndLeaked(total: nat, qs: seq<Request>)
    requires History(total, qs)
    ensures var h := After(total, qs);
      && h.taken == LiveBlocks(h) + h.leaked && LiveBlocks(h) !! h.leaked
      && (forall i, j :: i in h.live && j in h.live && i != j ==> SetOf(h.live[i]) !! SetOf(h.live[j]))
  {
    HistoryInv(total, qs);
    var h := After(total, qs);
    forall b | b in h.taken ensures b in LiveBlocks(h) + h.leaked {
      if b !in h.leaked {
        var id :| id in h.live && b in SetOf(h.live[id]);
        assert b in h.live[id];
      }
    }
    forall b | b in LiveBlocks(h) ensures b in h.taken && b !in h.leaked {
      var id :| id in h.live && b in h.live[id];
      assert b in SetOf(h.live[id]);
    }
  }

  /** A request that asks for more than is free although something is free. */
  predicate Leaks(h: Heap, total: nat, q: Request) {
    q.Alloc? && q.num <= MAX_ADDR_NUM && 0 < |Free(h.taken, total)| < q.num
  }

  lemma {:induction false} NoLeakIff(total: nat, qs: seq<Request>)
    requires History(total, qs)
    ensures After(total, qs).leaked == {} <==>
      forall k :: 0 <= k < |qs| && History(total, qs[..k]) ==> !Leaks(After(total, qs[..k]), total, qs[k])
    decreases |qs|
  {
    if qs != [] {
      var n := |qs| - 1;
      var h, q := After(total, qs[..n]), qs[n];
      NoLeakIff(total, qs[..n]);
      assert forall k :: 0 <= k < n ==> qs[..n][..k] == qs[..k] && qs[..n][k] == qs[k];
      if q.Alloc? {
        ScanSucceedsIff(h.taken, total, q.num);
        assert Free(h.taken, total) == {} <==> |Free(h.taken, total)| == 0;
      }
    }
  }

  /** The bitmap is exactly the set of live blocks if and only if no request of the history was of that kind. */
  lemma {:induction false} RefinesLiveIff(total: nat, qs: seq<Request>)
    requires History(total, qs)
    ensures After(total, qs).taken == LiveBlocks(After(total, qs)) <==>
      forall k :: 0 <= k < |qs| && History(total, qs[..k]) ==> !Leaks(After(total, qs[..k]), total, qs[k])
  {
    NoLeakIff(total, qs);
    BitmapIsLiveAndLeaked(total, qs);
    var h := After(total, qs);
    assert h.leaked == h.taken - LiveBlocks(h);
  }

  /** An allocation that succeeded and is freed at once leaves the heap as it was. */
  lemma AllocReleaseRestores(h: Heap, total: nat, num: nat)
    requires Inv(h, total) && num <= MAX_ADDR_NUM && num <= |Free(h.taken, total)|
    ensures var h1 := Apply(h, total, Alloc(num));
      && h1.live == h.live[h.next := Scan(h.taken, 0, total, num)] && |h1.live[h.next]| == num
      && Apply(h1, total, Release(h.next)) == h.(next := h.next + 1)
  {
    ScanSucceedsIff(h.taken, total, num);
    ScanFinds(h.taken, 0, total, num);
    var h1 := Apply(h, total, Alloc(num));
    assert h1.live - {h.next} == h.live;
    assert SetOf(Scan(h.taken, 0, total, num)) !! h.taken;
  }
}
