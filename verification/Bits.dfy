/**
 Bit access to byte buffers, as the READ_BIT and WRITE_BIT macros define it:
 bit 0 of a buffer is the most significant bit of its first byte.
 */
module Bits {

  /** BIT_MASK_TABLE: the mask of bit k of a byte, counted from the top. */
  function Mask(k: nat): bv8
    requires k < 8
  {
    if k == 0 then 0x80 else if k == 1 then 0x40 else if k == 2 then 0x20 else if k == 3 then 0x10
    else if k == 4 then 0x08 else if k == 5 then 0x04 else if k == 6 then 0x02 else 0x01
  }

  predicate ByteBit(b: bv8, k: nat)
    requires k < 8
  {
    b & Mask(k) != 0
  }

  function SetByteBit(b: bv8, k: nat, v: bool): (r: bv8)
    requires k < 8
    ensures forall j: nat | j < 8 :: ByteBit(r, j) == if j == k then v else ByteBit(b, j)
  {
    if v then b | Mask(k) else b & !Mask(k)
  }

  /** Bit i of a buffer (READ_BIT). */
  predicate Bit(s: seq<bv8>, i: nat)
    requires i < 8 * |s|
  {
    ByteBit(s[i / 8], i % 8)
  }

  /** A buffer seen as the sequence of its bits. */
  function BitsOf(s: seq<bv8>): (r: seq<bool>)
    ensures |r| == 8 * |s|
    ensures forall i: nat | i < 8 * |s| :: r[i] == Bit(s, i)
  {
    seq(8 * |s|, i requires 0 <= i < 8 * |s| => Bit(s, i))
  }

  /** Two bytes with the same bits are the same byte. */
  lemma ByteExtensional(a: bv8, b: bv8)
    requires forall k: nat | k < 8 :: ByteBit(a, k) == ByteBit(b, k)
    ensures a == b
  {
    assert ByteBit(a, 0) == ByteBit(b, 0);
    assert ByteBit(a, 1) == ByteBit(b, 1);
    assert ByteBit(a, 2) == ByteBit(b, 2);
    assert ByteBit(a, 3) == ByteBit(b, 3);
    assert ByteBit(a, 4) == ByteBit(b, 4);
    assert ByteBit(a, 5) == ByteBit(b, 5);
    assert ByteBit(a, 6) == ByteBit(b, 6);
    assert ByteBit(a, 7) == ByteBit(b, 7);
  }

  /** Byte j of a buffer is fixed by the eight bits of that byte. */
  lemma ByteFromBits(s: seq<bv8>, t: seq<bv8>, j: nat, k: nat)
    requires j < |s| && k < |t|
    requires forall i: nat | 8 * j <= i < 8 * j + 8 :: Bit(s, i) == Bit(t, i - 8 * j + 8 * k)
    ensures s[j] == t[k]
  {
    forall i: nat | i < 8 ensures ByteBit(s[j], i) == ByteBit(t[k], i) {
      assert Bit(s, 8 * j + i) == Bit(t, 8 * k + i);
      assert (8 * j + i) / 8 == j && (8 * j + i) % 8 == i;
      assert (8 * k + i) / 8 == k && (8 * k + i) % 8 == i;
    }
    ByteExtensional(s[j], t[k]);
  }

  /** WRITE_BIT on a buffer held in an array. */
  method WriteBit(a: array<bv8>, i: nat, v: bool)
    requires i < 8 * a.Length
    modifies a
    ensures forall j: nat | j < 8 * a.Length :: Bit(a[..], j) == if j == i then v else Bit(old(a[..]), j)
    ensures forall j: nat | j < a.Length && j != i / 8 :: a[j] == old(a[j])
  {
    a[i / 8] := SetByteBit(a[i / 8], i % 8, v);
  }

  /** The byte with the given bits, most significant first. */
  function Pack(b: seq<bool>): (r: bv8)
    requires |b| == 8
    ensures forall k: nat | k < 8 :: ByteBit(r, k) == b[k]
  {
    var r0 := SetByteBit(0, 0, b[0]);
    var r1 := SetByteBit(r0, 1, b[1]);
    var r2 := SetByteBit(r1, 2, b[2]);
    var r3 := SetByteBit(r2, 3, b[3]);
    var r4 := SetByteBit(r3, 4, b[4]);
    var r5 := SetByteBit(r4, 5, b[5]);
    var r6 := SetByteBit(r5, 6, b[6]);
    SetByteBit(r6, 7, b[7])
  }

  /** A bit string cut into bytes. */
  function PackAll(b: seq<bool>): (s: seq<bv8>)
    requires |b| % 8 == 0
    ensures |s| == |b| / 8
    ensures forall i: nat | i < |s| :: s[i] == Pack(b[8 * i..8 * i + 8])
  {
    seq(|b| / 8, i requires 0 <= i < |b| / 8 => Pack(b[8 * i..8 * i + 8]))
  }

  lemma PackAllBits(b: seq<bool>)
    requires |b| % 8 == 0
    ensures BitsOf(PackAll(b)) == b
  {
    hide Pack;
    var s := PackAll(b);
    forall i: nat | i < |b| ensures Bit(s, i) == b[i] {
      assert s[i / 8] == Pack(b[8 * (i / 8)..8 * (i / 8) + 8]);
      assert b[8 * (i / 8)..8 * (i / 8) + 8][i % 8] == b[i];
    }
  }

  /** Buffers with the same bits are the same buffer. */
  lemma BitsInjective(s: seq<bv8>, t: seq<bv8>)
    requires BitsOf(s) == BitsOf(t)
    ensures s == t
  {
    assert |s| == |t|;
    forall j: nat | j < |s| ensures s[j] == t[j] {
      forall i: nat | 8 * j <= i < 8 * j + 8 ensures Bit(s, i) == Bit(t, i - 8 * j + 8 * j) {
        assert BitsOf(s)[i] == BitsOf(t)[i];
      }
      ByteFromBits(s, t, j, j);
    }
  }

  lemma PackedBit(s: seq<bv8>, at: nat, b: seq<bool>, j: nat)
    requires j < |b| && |b| % 8 == 0 && at + |b| / 8 <= |s|
    requires s[at + j / 8] == Pack(b[8 * (j / 8)..8 * (j / 8) + 8])
    ensures Bit(s, 8 * at + j) == b[j]
  {
    hide Pack;
    assert (8 * at + j) / 8 == at + j / 8 && (8 * at + j) % 8 == j % 8;
    assert b[8 * (j / 8)..8 * (j / 8) + 8][j % 8] == b[j];
  }

  /** Stores a bit string in consecutive bytes, most significant bit first. */
  method StoreBits(a: array<bv8>, at: nat, b: seq<bool>)
    requires |b| % 8 == 0 && at + |b| / 8 <= a.Length
    modifies a
    ensures forall j: nat | j < |b| :: Bit(a[..], 8 * at + j) == b[j]
    ensures forall i: nat | i < a.Length && !(at <= i < at + |b| / 8) :: a[i] == old(a[i])
  {
    hide Pack, Bit;
    for k := 0 to |b| / 8
      invariant forall i: nat | i < k :: a[at + i] == Pack(b[8 * i..8 * i + 8])
      invariant forall i: nat | i < a.Length && !(at <= i < at + k) :: a[i] == old(a[i])
    {
      a[at + k] := Pack(b[8 * k..8 * k + 8]);
    }
    forall j: nat | j < |b| ensures Bit(a[..], 8 * at + j) == b[j] {
      assert a[at + j / 8] == Pack(b[8 * (j / 8)..8 * (j / 8) + 8]);
      PackedBit(a[..], at, b, j);
    }
  }

  /** A bit depends on its byte alone. */
  lemma SameByte(s: seq<bv8>, t: seq<bv8>, n: nat)
    requires |s| == |t| && n < 8 * |s| && s[n / 8] == t[n / 8]
    ensures Bit(s, n) == Bit(t, n)
  {
  }
}
