/** Block contents as kernel/fs.c reads them: little-endian words of an indirect block, bits of a bitmap
    block (kernel/fs.h). */
module FsLayout {

  const BSIZE: int := 1024
  const NDIRECT: int := 12
  const NINDIRECT: int := 256
  const MAXFILE: int := 268
  const BPB: int := 8192

  type byte = b: int | 0 <= b < 256
  type Block = b: seq<byte> | |b| == BSIZE witness seq(BSIZE, _ => 0)
  type Disk = seq<Block>

  /** A uint of the machine. */
  predicate IsWord(w: int) {
    0 <= w < 0x1_0000_0000
  }

  /** The contents bzero writes. */
  function ZeroBlock(): Block {
    seq(BSIZE, _ => 0)
  }

  /** ((uint*)data)[j] */
  function Word(b: Block, j: nat): (w: int)
    requires j < NINDIRECT
    ensures IsWord(w)
  {
    (b[4 * j] as int) + 0x100 * (b[4 * j + 1] as int) + 0x1_0000 * (b[4 * j + 2] as int)
      + 0x100_0000 * (b[4 * j + 3] as int)
  }

  lemma WordSplit(w: int)
    requires IsWord(w)
    ensures w / 0x100_0000 < 0x100
    ensures w == w % 0x100 + 0x100 * (w / 0x100 % 0x100) + 0x1_0000 * (w / 0x1_0000 % 0x100)
            + 0x100_0000 * (w / 0x100_0000)
  {
    assert w / 0x100 == w / 0x100 % 0x100 + 0x100 * (w / 0x1_0000);
    assert w / 0x1_0000 == w / 0x1_0000 % 0x100 + 0x100 * (w / 0x100_0000);
  }

  /** ((uint*)data)[j] = w */
  function PutWord(b: Block, j: nat, w: int): (r: Block)
    requires j < NINDIRECT && IsWord(w)
    ensures Word(r, j) == w
    ensures forall i :: 0 <= i < NINDIRECT && i != j ==> Word(r, i) == Word(b, i)
  {
    WordSplit(w);
    b[..4 * j] + [w % 0x100, w / 0x100 % 0x100, w / 0x1_0000 % 0x100, w / 0x100_0000] + b[4 * j + 4..]
  }

  /** 1 << k */
  function Pow2(k: nat): (r: nat)
    ensures r >= 1
  {
    if k == 0 then 1 else 2 * Pow2(k - 1)
  }

  /** (x & (1 << k)) != 0 */
  predicate Bit(x: nat, k: nat) {
    if k == 0 then x % 2 == 1 else Bit(x / 2, k - 1)
  }

  /** x | (1 << k), for a clear bit */
  function SetBit(x: byte, k: nat): (r: byte)
    requires k < 8 && !Bit(x, k)
    ensures forall j: nat :: Bit(r, j) <==> j == k || Bit(x, j)
  {
    assert Pow2(8) == 256 by { PowTable(); }
    SetStaysBelow(x, k, 8);
    forall j: nat ensures Bit(x + Pow2(k), j) <==> j == k || Bit(x, j) { SetBitAt(x, k, j); }
    x + Pow2(k)
  }

  /** x & ~(1 << k), for a set bit */
  function ClearBit(x: byte, k: nat): (r: byte)
    requires k < 8 && Bit(x, k)
    ensures forall j: nat :: Bit(r, j) <==> j != k && Bit(x, j)
  {
    SetBitIsLarge(x, k);
    forall j: nat ensures Bit(x - Pow2(k), j) <==> j != k && Bit(x, j) { ClearBitAt(x, k, j); }
    x - Pow2(k)
  }

  lemma PowTable()
    ensures Pow2(8) == 256
  {
    assert Pow2(4) == 16;
    assert Pow2(6) == 64;
  }

  lemma {:induction false} SetBitAt(x: nat, k: nat, j: nat)
    requires !Bit(x, k)
    ensures Bit(x + Pow2(k), j) <==> j == k || Bit(x, j)
  {
    if k == 0 {
      assert (x + 1) / 2 == x / 2;
    } else {
      assert (x + 2 * Pow2(k - 1)) / 2 == x / 2 + Pow2(k - 1);
      if j > 0 { SetBitAt(x / 2, k - 1, j - 1); }
    }
  }

  lemma {:induction false} SetBitIsLarge(x: nat, k: nat)
    requires Bit(x, k)
    ensures x >= Pow2(k)
  {
    if k > 0 { SetBitIsLarge(x / 2, k - 1); }
  }

  lemma {:induction false} ClearBitAt(x: nat, k: nat, j: nat)
    requires Bit(x, k) && x >= Pow2(k)
    ensures Bit(x - Pow2(k), j) <==> j != k && Bit(x, j)
  {
    if k == 0 {
      assert (x - 1) / 2 == x / 2;
    } else {
      SetBitIsLarge(x / 2, k - 1);
      assert (x - 2 * Pow2(k - 1)) / 2 == x / 2 - Pow2(k - 1);
      if j > 0 { ClearBitAt(x / 2, k - 1, j - 1); }
    }
  }

  lemma {:induction false} SetStaysBelow(x: nat, k: nat, n: nat)
    requires !Bit(x, k) && k < n && x < Pow2(n)
    ensures x + Pow2(k) < Pow2(n)
  {
    assert Pow2(n) == 2 * Pow2(n - 1);
    if k > 0 {
      SetStaysBelow(x / 2, k - 1, n - 1);
      assert Pow2(k) == 2 * Pow2(k - 1);
    }
  }
}
