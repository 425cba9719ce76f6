/** Byte memories and the one-step copy that every transfer is measured against. */
module Memory {

  type Byte = bv8

  /** The memory of the client process and the registered region of the remote node. */
  datatype Mem = Mem(local: seq<Byte>, remote: seq<Byte>)

  /** `dst` after one memcpy of `n` bytes from `src[s..]` to `dst[d..]`. */
  function Blit(dst: seq<Byte>, d: nat, src: seq<Byte>, s: nat, n: nat): (r: seq<Byte>)
    requires d + n <= |dst| && s + n <= |src|
    ensures |r| == |dst|
    ensures forall k {:trigger r[k]} :: 0 <= k < |dst| ==> r[k] == if d <= k < d + n then src[s + (k - d)] else dst[k]
  {
    seq(|dst|, k requires 0 <= k < |dst| => if d <= k < d + n then src[s + (k - d)] else dst[k])
  }

  /** The `n` bytes of `m` from address `d` are those of `src` from address `s`. */
  ghost predicate Same(m: seq<Byte>, d: nat, src: seq<Byte>, s: nat, n: nat)
    requires d + n <= |m| && s + n <= |src|
  {
    forall a {:trigger m[a]} :: d <= a < d + n ==> m[a] == src[s + (a - d)]
  }

  /** A memory that agrees with a copy at every address is that copy. */
  lemma BlitUnique(m: seq<Byte>, dst: seq<Byte>, d: nat, src: seq<Byte>, s: nat, n: nat)
    requires d + n <= |dst| && s + n <= |src| && |m| == |dst|
    requires Same(m, d, src, s, n)
    requires forall a {:trigger m[a]} :: 0 <= a < |dst| && !(d <= a < d + n) ==> m[a] == dst[a]
    ensures m == Blit(dst, d, src, s, n)
  {
  }

  /** Copying a prefix and then the next stretch is copying both at once. */
  lemma BlitExtend(dst: seq<Byte>, d: nat, src: seq<Byte>, s: nat, n: nat, m: nat)
    requires d + n + m <= |dst| && s + n + m <= |src|
    ensures Blit(Blit(dst, d, src, s, n), d + n, src, s + n, m) == Blit(dst, d, src, s, n + m)
  {
  }
}
