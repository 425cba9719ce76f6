/** InboundHamal and OutboundHamal as the loops they are, run alone: one lane, its own completions, and a NIC
    that executes posted requests in order while the thread polls. */
module ChunkLoop {
  import opened Memory
  import opened Transfer
  import opened TransferAny

  class RdmaSocket {
    const c: Setup
    const local: array<Byte>
    const remote: array<Byte>
    var qp: seq<Wr>
    var completions: nat
    var readSize: seq<nat>
    var writeSize: seq<nat>
    var transferSignal: nat

    constructor (c: Setup, local: array<Byte>, remote: array<Byte>)
      requires ValidSetup(c) && PoolAddr(c, c.workers) <= local.Length && local != remote
      ensures Valid() && this.c == c && this.local == local && this.remote == remote
    {
      this.c := c;
      this.local := local;
      this.remote := remote;
      qp, completions, transferSignal := [], 0, 0;
      readSize := seq(c.workers, _ => 0);
      writeSize := seq(c.workers, _ => 0);
    }

    /** Nothing is posted or left over, and the staging pools exist. */
    ghost predicate Valid()
      reads this
    {
      && ValidSetup(c) && PoolAddr(c, c.workers) <= local.Length && local != remote
      && qp == [] && completions == 0 && transferSignal < 65536
      && |readSize| == c.workers && |writeSize| == c.workers
    }

    /** The ranges exist and the user buffer is not part of the staging pools. */
    ghost predicate Fits(user: nat, rem: nat, size: nat) {
      && user + size <= local.Length && rem + size <= remote.Length
      && (user + size <= PoolAddr(c, 0) || PoolAddr(c, c.workers) <= user)
    }

    /** memcpy within the client's memory. */
    method Memcpy(d: nat, s: nat, n: nat)
      requires d + n <= local.Length && s + n <= local.Length && (d + n <= s || s + n <= d)
      modifies local
      ensures local[..] == Blit(old(local[..]), d, old(local[..]), s, n)
    {
      forall k | 0 <= k < n {
        local[d + k] := local[s + k];
      }
    }

    /** The NIC executes the oldest posted request and, as it is signalled, completes it. */
    method Execute()
      requires qp != [] && qp[0].pool + qp[0].len <= local.Length && qp[0].remote + qp[0].len <= remote.Length
      requires local != remote
      modifies this`qp, this`completions, local, remote
      ensures qp == old(qp[1..]) && completions == old(completions) + 1
      ensures var wr := old(qp[0]);
        if wr.write then
          remote[..] == Blit(old(remote[..]), wr.remote, old(local[..]), wr.pool, wr.len) && local[..] == old(local[..])
        else
          local[..] == Blit(old(local[..]), wr.pool, old(remote[..]), wr.remote, wr.len)
              && remote[..] == old(remote[..])
    {
      var wr := qp[0];
      if wr.write {
        forall k | 0 <= k < wr.len {
          remote[wr.remote + k] := local[wr.pool + k];
        }
      } else {
        forall k | 0 <= k < wr.len {
          local[wr.pool + k] := remote[wr.remote + k];
        }
      }
      qp, completions := qp[1..], completions + 1;
    }

    /** Busy-waits for one completion; the NIC may need any number of rounds before it executes the one request that
        is posted. */
    method PollCompletion(idle: nat)
      requires |qp| == 1 && completions == 0 && local != remote
      requires qp[0].pool + qp[0].len <= local.Length && qp[0].remote + qp[0].len <= remote.Length
      modifies this`qp, this`completions, local, remote
      ensures qp == [] && completions == 0
      ensures var wr := old(qp[0]);
        if wr.write then
          remote[..] == Blit(old(remote[..]), wr.remote, old(local[..]), wr.pool, wr.len) && local[..] == old(local[..])
        else
          local[..] == Blit(old(local[..]), wr.pool, old(remote[..]), wr.remote, wr.len)
              && remote[..] == old(remote[..])
    {
      ghost var wr, l, r := qp[0], local[..], remote[..];
      var rounds := idle;
      while completions == 0
        invariant |qp| + completions == 1
        invariant completions == 0 ==> qp == [wr] && local[..] == l && remote[..] == r
        invariant completions == 1 ==>
          if wr.write then remote[..] == Blit(r, wr.remote, l, wr.pool, wr.len) && local[..] == l
          else local[..] == Blit(l, wr.pool, r, wr.remote, wr.len) && remote[..] == r
        decreases |qp|, rounds
      {
        if rounds > 0 { rounds := rounds - 1; } else { Execute(); }
      }
      completions := completions - 1;
    }

    /** One round of the write loop: stage, RdmaWrite, PollCompletion. */
    method WriteChunk(pool: nat, from: nat, to: nat, n: nat, idle: nat)
      requires qp == [] && completions == 0 && local != remote
      requires pool + n <= local.Length && from + n <= local.Length && to + n <= remote.Length
      requires pool + n <= from || from + n <= pool
      modifies this`qp, this`completions, local, remote
      ensures qp == [] && completions == 0
      ensures local[..] == Blit(old(local[..]), pool, old(local[..]), from, n)
      ensures remote[..] == Blit(old(remote[..]), to, local[..], pool, n)
    {
      Memcpy(pool, from, n);
      qp := [Wr(true, pool, to, n)];
      PollCompletion(idle);
    }

    /** One round of the read loop: RdmaRead, PollCompletion, copy out of the pool. */
    method ReadChunk(pool: nat, to: nat, from: nat, n: nat, idle: nat)
      requires qp == [] && completions == 0 && local != remote
      requires pool + n <= local.Length && to + n <= local.Length && from + n <= remote.Length
      requires pool + n <= to || to + n <= pool
      modifies this`qp, this`completions, local, remote
      ensures qp == [] && completions == 0 && remote[..] == old(remote[..])
      ensures var arrived := Blit(old(local[..]), pool, old(remote[..]), from, n);
        local[..] == Blit(arrived, to, arrived, pool, n)
    {
      qp := [Wr(false, pool, from, n)];
      PollCompletion(idle);
      Memcpy(to, pool, n);
    }

    /** The same round within the loop: the written prefix grows by the chunk. */
    method WriteNext(taskID: nat, user: nat, rem: nat, total: nat, n: nat, idle: nat,
                     ghost local0: seq<Byte>, ghost remote0: seq<Byte>)
      requires Valid() && taskID < c.workers && n <= CHUNK && Fits(user, rem, total + n)
      requires |local0| == local.Length && |remote0| == remote.Length
      requires Written(c, local0, remote0, local[..], remote[..], taskID, user, rem, total)
      modifies this`qp, this`completions, local, remote
      ensures Valid()
      ensures Written(c, local0, remote0, local[..], remote[..], taskID, user, rem, total + n)
    {
      LaneInPools(c, taskID);
      ghost var l, r := local[..], remote[..];
      WriteChunk(PoolAddr(c, taskID), user + total, rem + total, n, idle);
      WriteRound(c, local0, remote0, l, r, local[..], remote[..], taskID, user, rem, total, n);
    }

    method ReadNext(taskID: nat, user: nat, rem: nat, total: nat, n: nat, idle: nat,
                     ghost local0: seq<Byte>, ghost remote0: seq<Byte>)
      requires Valid() && taskID < c.workers && n <= CHUNK && Fits(user, rem, total + n)
      requires |local0| == local.Length && remote0 == remote[..]
      requires Delivered(c, local0, remote0, local[..], taskID, user, rem, total)
      modifies this`qp, this`completions, local, remote
      ensures Valid() && remote[..] == remote0
      ensures Delivered(c, local0, remote0, local[..], taskID, user, rem, total + n)
    {
      LaneInPools(c, taskID);
      ghost var l := local[..];
      ReadChunk(PoolAddr(c, taskID), user + total, rem + total, n, idle);
      ReadRound(c, local0, remote0, l, local[..], taskID, user, rem, total, n);
    }

    method OutboundHamal(taskID: nat, bufferSend: nat, bufferReceive: nat, size: nat) returns (rounds: nat)
      requires Valid() && taskID < c.workers && Fits(bufferSend, bufferReceive, size)
      modifies this`qp, this`completions, this`writeSize, this`transferSignal, local, remote
      ensures Valid()
      ensures remote[..] == Blit(old(remote[..]), bufferReceive, old(local[..]), bufferSend, size)
      ensures OnlyPool(c, old(local[..]), local[..], taskID, 0, 0)
      ensures writeSize == old(writeSize)[taskID := old(writeSize)[taskID] + size]
      ensures transferSignal == (old(transferSignal) + 1) % 65536
      ensures rounds == (size + 1048575) / 1048576
    {
      ghost var local0, remote0 := local[..], remote[..];
      var total := 0;
      rounds := 0;
      while total < size
        invariant total <= size && rounds + Chunks(size - total) == Chunks(size)
        invariant Valid() && transferSignal == old(transferSignal)
        invariant Written(c, local0, remote0, local[..], remote[..], taskID, bufferSend, bufferReceive, total)
        invariant writeSize == old(writeSize)[taskID := old(writeSize)[taskID] + total]
      {
        var sendSize := if size - total >= CHUNK then CHUNK else size - total;
        var idle: nat := *;
        WriteNext(taskID, bufferSend, bufferReceive, total, sendSize, idle, local0, remote0);
        writeSize := writeSize[taskID := writeSize[taskID] + sendSize];
        total := total + sendSize;
        rounds := rounds + 1;
      }
      ChunksCeiling(size);
      transferSignal := Inc16(transferSignal);
    }

    method InboundHamal(taskID: nat, bufferSend: nat, bufferReceive: nat, size: nat) returns (rounds: nat)
      requires Valid() && taskID < c.workers && Fits(bufferSend, bufferReceive, size)
      modifies this`qp, this`completions, this`readSize, this`transferSignal, local, remote
      ensures Valid()
      ensures remote[..] == old(remote[..])
      ensures Same(local[..], bufferSend, old(remote[..]), bufferReceive, size)
      ensures OnlyPool(c, old(local[..]), local[..], taskID, bufferSend, bufferSend + size)
      ensures readSize == old(readSize)[taskID := old(readSize)[taskID] + size]
      ensures transferSignal == (old(transferSignal) + 1) % 65536
      ensures rounds == (size + 1048575) / 1048576
    {
      ghost var local0, remote0 := local[..], remote[..];
      var total := 0;
      rounds := 0;
      while total < size
        invariant total <= size && rounds + Chunks(size - total) == Chunks(size)
        invariant Valid() && transferSignal == old(transferSignal) && remote[..] == remote0
        invariant Delivered(c, local0, remote0, local[..], taskID, bufferSend, bufferReceive, total)
        invariant readSize == old(readSize)[taskID := old(readSize)[taskID] + total]
      {
        var sendSize := if size - total >= CHUNK then CHUNK else size - total;
        var idle: nat := *;
        ReadNext(taskID, bufferSend, bufferReceive, total, sendSize, idle, local0, remote0);
        readSize := readSize[taskID := readSize[taskID] + sendSize];
        total := total + sendSize;
        rounds := rounds + 1;
      }
      ChunksCeiling(size);
      transferSignal := Inc16(transferSignal);
    }
  }

  lemma LaneInPools(c: Setup, taskID: nat)
    requires taskID < c.workers
    ensures PoolAddr(c, 0) <= PoolAddr(c, taskID) && PoolAddr(c, taskID) + CHUNK <= PoolAddr(c, c.workers)
  {
  }

  /** What may differ in the client's memory: the lane's pool, and the user range in the given bounds. */
  ghost predicate OnlyPool(c: Setup, was: seq<Byte>, now: seq<Byte>, taskID: nat, lo: nat, hi: nat) {
    |now| == |was| && forall a {:trigger now[a]} :: 0 <= a < |was| && now[a] != was[a] ==>
      PoolAddr(c, taskID) <= a < PoolAddr(c, taskID) + CHUNK || lo <= a < hi
  }

  ghost predicate Clear(c: Setup, user: nat, size: nat) {
    user + size <= PoolAddr(c, 0) || PoolAddr(c, c.workers) <= user
  }

  /** The first `total` bytes are written and the client's memory differs in the pool only. */
  ghost predicate Written(c: Setup, local0: seq<Byte>, remote0: seq<Byte>, local: seq<Byte>, remote: seq<Byte>,
                          taskID: nat, user: nat, rem: nat, total: nat) {
    && user + total <= |local0| && rem + total <= |remote0|
    && remote == Blit(remote0, rem, local0, user, total)
    && OnlyPool(c, local0, local, taskID, 0, 0)
  }

  /** The first `total` bytes are read and the client's memory differs there and in the pool only. */
  ghost predicate Delivered(c: Setup, local0: seq<Byte>, remote0: seq<Byte>, local: seq<Byte>,
                            taskID: nat, user: nat, rem: nat, total: nat) {
    && user + total <= |local0| && rem + total <= |remote0|
    && OnlyPool(c, local0, local, taskID, user, user + total)
    && Same(local, user, remote0, rem, total)
  }

  /** One round of a write, on sequences: the copy grows by the chunk. */
  lemma WriteRound(c: Setup, local0: seq<Byte>, remote0: seq<Byte>, local: seq<Byte>, remote: seq<Byte>,
                   staged: seq<Byte>, written: seq<Byte>, taskID: nat, user: nat, rem: nat, total: nat, n: nat)
    requires Written(c, local0, remote0, local, remote, taskID, user, rem, total)
    requires taskID < c.workers && PoolAddr(c, c.workers) <= |local0| && n <= CHUNK && Clear(c, user, total + n)
    requires user + total + n <= |local0| && rem + total + n <= |remote0| && PoolAddr(c, taskID) + n <= |local0|
    requires staged == Blit(local, PoolAddr(c, taskID), local, user + total, n)
    requires written == Blit(remote, rem + total, staged, PoolAddr(c, taskID), n)
    ensures Written(c, local0, remote0, staged, written, taskID, user, rem, total + n)
  {
    LaneInPools(c, taskID);
    var pool := PoolAddr(c, taskID);
    assert staged[pool..pool + n] == local[user + total..user + total + n];
    assert local[user + total..user + total + n] == local0[user + total..user + total + n];
    BlitExtend(remote0, rem, local0, user, total, n);
  }

  /** One round of a read, on sequences: the delivered prefix grows by the chunk. */
  lemma ReadRound(c: Setup, local0: seq<Byte>, remote0: seq<Byte>, local: seq<Byte>, delivered: seq<Byte>,
                  taskID: nat, user: nat, rem: nat, total: nat, n: nat)
    requires Delivered(c, local0, remote0, local, taskID, user, rem, total)
    requires taskID < c.workers && PoolAddr(c, c.workers) <= |local0| && n <= CHUNK && Clear(c, user, total + n)
    requires user + total + n <= |local0| && rem + total + n <= |remote0| && PoolAddr(c, taskID) + n <= |local0|
    requires var arrived := Blit(local, PoolAddr(c, taskID), remote0, rem + total, n);
      delivered == Blit(arrived, user + total, arrived, PoolAddr(c, taskID), n)
    ensures Delivered(c, local0, remote0, delivered, taskID, user, rem, total + n)
  {
    LaneInPools(c, taskID);
  }
}
