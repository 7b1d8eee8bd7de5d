/** Little-endian integers, and writes into the middle of a buffer. */
module ByteCodec {
  import opened Types

  /** The `n` low bytes of `x`, least significant first. */
  function ToLe(x: nat, n: nat): (b: Bytes)
    ensures |b| == n
  {
    if n == 0 then [] else [x % 0x100] + ToLe(x / 0x100, n - 1)
  }

  function FromLe(b: Bytes): nat {
    if |b| == 0 then 0 else b[0] + 0x100 * FromLe(b[1..])
  }

  function Pow256(n: nat): (p: nat)
    ensures 0 < p
  {
    if n == 0 then 1 else 0x100 * Pow256(n - 1)
  }

  lemma {:induction false} FromToLe(x: nat, n: nat)
    requires x < Pow256(n)
    ensures FromLe(ToLe(x, n)) == x
  {
    if n > 0 {
      FromToLe(x / 0x100, n - 1);
      assert ToLe(x, n)[1..] == ToLe(x / 0x100, n - 1);
    }
  }

  lemma {:induction false} ToFromLe(b: Bytes)
    ensures FromLe(b) < Pow256(|b|)
    ensures ToLe(FromLe(b), |b|) == b
  {
    if |b| > 0 {
      ToFromLe(b[1..]);
    }
  }

  lemma Pow256Of8()
    ensures Pow256(8) == 0x1_0000_0000_0000_0000
  {
    assert Pow256(4) == 0x1_0000_0000;
    assert Pow256(8) == 0x1_0000_0000 * Pow256(4);
  }

  function U64ToLe(x: u64): (b: Bytes)
    ensures |b| == 8
  {
    ToLe(x, 8)
  }

  function U64FromLe(b: Bytes): u64
    requires |b| == 8
  {
    ToFromLe(b);
    Pow256Of8();
    FromLe(b)
  }

  lemma U64RoundTrip(x: u64)
    ensures U64FromLe(U64ToLe(x)) == x
  {
    Pow256Of8();
    FromToLe(x, 8);
  }

  lemma U64Canonical(b: Bytes)
    requires |b| == 8
    ensures U64ToLe(U64FromLe(b)) == b
  {
    ToFromLe(b);
  }

  lemma FromLeStep(b: Bytes, k: nat)
    requires k < |b|
    ensures FromLe(b[k..]) == b[k] + 0x100 * FromLe(b[k + 1..])
  {
    assert b[k..][1..] == b[k + 1..];
  }

  /** Four bytes, the least significant first. */
  function Word32(b0: int, b1: int, b2: int, b3: int): int {
    b0 + 0x100 * b1 + 0x1_0000 * b2 + 0x100_0000 * b3
  }

  lemma FourBytes(b: Bytes, k: nat)
    requires k + 4 <= |b|
    ensures FromLe(b[k..]) == Word32(b[k], b[k + 1], b[k + 2], b[k + 3]) + 0x1_0000_0000 * FromLe(b[k + 4..])
  {
    FromLeStep(b, k);
    FromLeStep(b, k + 1);
    FromLeStep(b, k + 2);
    FromLeStep(b, k + 3);
  }

  /** Eight bytes, the least significant first. */
  lemma LittleEndian(b: Bytes)
    requires |b| == 8
    ensures U64FromLe(b) == Word32(b[0], b[1], b[2], b[3]) + 0x1_0000_0000 * Word32(b[4], b[5], b[6], b[7])
  {
    assert b[0..] == b && b[8..] == [];
    FourBytes(b, 0);
    FourBytes(b, 4);
  }

  /** `b` with `src` written over it from `at`. */
  function Splice(b: Bytes, at: nat, src: Bytes): (r: Bytes)
    requires at + |src| <= |b|
    ensures |r| == |b|
  {
    b[..at] + src + b[at + |src|..]
  }

  /** A buffer written up to `|done|` and still as it was behind. */
  function Partly(done: Bytes, was: Bytes): (r: Bytes)
    requires |done| <= |was|
    ensures |r| == |was|
  {
    done + was[|done|..]
  }

  /** Writing the next field of a buffer that is filled from the front. */
  lemma Advance(done: Bytes, was: Bytes, src: Bytes)
    requires |done| + |src| <= |was|
    ensures Splice(Partly(done, was), |done|, src) == Partly(done + src, was)
    ensures Partly(done, was)[|done|..|done| + |src|] == was[|done|..|done| + |src|]
  {
  }

  /** Two writes that meet are one write. */
  lemma SpliceTwice(b: Bytes, at: nat, x: Bytes, y: Bytes)
    requires at + |x| + |y| <= |b|
    ensures Splice(Splice(b, at, x), at + |x|, y) == Splice(b, at, x + y)
  {
  }

  /** Writing back what a field already holds behind `x` changes nothing more. */
  lemma SpliceFront(b: Bytes, at: nat, x: Bytes, n: nat)
    requires |x| <= n && at + n <= |b|
    ensures Splice(b, at, x) == Splice(b, at, x + b[at..at + n][|x|..])
  {
    var field := b[at..at + n];
    assert field[|x|..] + b[at + n..] == b[at + |x|..];
  }

  /** A buffer written all the way. */
  lemma Filled(done: Bytes, was: Bytes)
    requires |done| == |was|
    ensures Partly(done, was) == done
  {
  }

  method CopyFromSlice(dst: array<u8>, at: nat, src: Bytes)
    requires at + |src| <= dst.Length
    modifies dst
    ensures dst[..] == Splice(old(dst[..]), at, src)
  {
    for i := 0 to |src|
      invariant forall j | 0 <= j < dst.Length :: dst[j] == if at <= j < at + i then src[j - at] else old(dst[j])
    {
      dst[at + i] := src[i];
    }
  }
}
