/**
 The coded blocks inside the payload of a 120-byte YSF frame (YSFPayload.cpp). Behind
 the 30 bytes of sync and FICH lie five 18-byte sections. A block of width 9 carries
 20 bytes in the first or second nine bytes of every section (frame headers); a
 block of width 5 carries 10 bytes in the first five (the data channel of V/D mode 2).
 */
module Payload {
  import opened Bits
  import opened Trellis
  import opened Convolution
  import opened Interleave
  import Crc

  const PREFIX := 30
  const FRAME_LENGTH := 120

  const WHITENING: seq<bv8> := [0x93, 0xD7, 0x51, 0x21, 0x9C, 0x2F, 0x6C, 0xD0, 0xEF, 0x0F,
                                0xF8, 0x3D, 0xF1, 0x73, 0x20, 0x94, 0xED, 0x1E, 0x7C, 0xD8]

  /** Data bytes in a block of width w. */
  function Size(w: nat): nat
    requires Width(w)
  {
    if w == 5 then 10 else 20
  }

  function Whitened(s: seq<bv8>): (r: seq<bv8>)
    requires |s| <= 20
    ensures |r| == |s| && forall i: nat | i < |s| :: r[i] == s[i] ^ WHITENING[i]
  {
    seq(|s|, i requires 0 <= i < |s| => s[i] ^ WHITENING[i])
  }

  lemma XorTwice(a: bv8, b: bv8)
    ensures (a ^ b) ^ b == a
  {
  }

  lemma WhitenedTwice(s: seq<bv8>)
    requires |s| <= 20
    ensures Whitened(Whitened(s)) == s
  {
    forall i: nat | i < |s| ensures Whitened(Whitened(s))[i] == s[i] {
      XorTwice(s[i], WHITENING[i]);
    }
  }

  /** The bytes given to the encoder: whitened data and checksum. */
  function Sealed(dt: seq<bv8>): (s: seq<bv8>)
    requires |dt| <= 20
    ensures |s| == |dt| + 2
  {
    Whitened(dt) + Crc.Trailer(Whitened(dt))
  }

  function Message(dt: seq<bv8>): (u: seq<bool>)
    requires |dt| <= 20
    ensures |u| == 8 * |dt| + 20 && ZeroTailed(u)
  {
    BitsOf(Sealed(dt)) + [false, false, false, false]
  }

  /** A block of width w carries the data dt. */
  ghost predicate Holds(block: seq<bv8>, dt: seq<bv8>, w: nat) {
    Width(w) && |block| == 5 * w && |dt| == Size(w) && Deinterleaved(block, w) == Code(ZERO, Message(dt))
  }

  /** The bytes read from a received block, checksum included. */
  function Read(block: seq<bv8>, w: nat): (s: seq<bv8>)
    requires Width(w) && |block| == 5 * w
    ensures |s| == Size(w) + 2
  {
    PackAll(Recovered(Deinterleaved(block, w)))
  }

  /** A block read with at most one wrong bit passes its checksum and yields what was written. */
  lemma BlockSurvivesOneBit(sent: seq<bv8>, block: seq<bv8>, dt: seq<bv8>, w: nat)
    requires Holds(sent, dt, w) && OneBitAway(sent, block)
    ensures Read(block, w) == Sealed(dt)
    ensures Crc.Checks(Read(block, w)) && Whitened(Read(block, w)[..Size(w)]) == dt
  {
    hide Deinterleaved, Code, Distance, AgreeBut, BitsOf, PackAll, Recovered, ZeroTailed, Whitened, Crc.Trailer;
    var r := Deinterleaved(block, w);
    OneBitAwaySymbols(sent, block, w);
    DecodeCorrectsOneBit(Message(dt), r);
    assert Message(dt)[..|Message(dt)| - 4] == BitsOf(Sealed(dt));
    PackAllBits(BitsOf(Sealed(dt)));
    BitsInjective(Read(block, w), Sealed(dt));
    assert Sealed(dt)[..Size(w)] == Whitened(dt);
    WhitenedTwice(dt);
  }

  datatype Option<T> = None | Some(value: T)

  /** The data a block of width w yields, or nothing when its checksum fails. */
  function Data(block: seq<bv8>, w: nat): (d: Option<seq<bv8>>)
    requires Width(w) && |block| == 5 * w
    ensures d.Some? ==> |d.value| == Size(w)
  {
    var s := Read(block, w);
    if Crc.Checks(s) then Some(Whitened(s[..Size(w)])) else None
  }

  lemma WrittenDataReadsBack(sent: seq<bv8>, block: seq<bv8>, dt: seq<bv8>, w: nat)
    requires Holds(sent, dt, w) && OneBitAway(sent, block)
    ensures Data(block, w) == Some(dt)
  {
    hide Holds, Read, Crc.Checks, Whitened;
    BlockSurvivesOneBit(sent, block, dt, w);
  }

  // --------------------------------------------------- blocks inside a frame

  /** Where byte j of the block that starts `first` bytes into each section lies. */
  function Slot(first: nat, w: nat, j: nat): (n: nat)
    requires Width(w) && first + w <= 18 && j < 5 * w
    ensures PREFIX <= n < FRAME_LENGTH
  {
    PREFIX + first + (if w == 5 then j / 5 * 18 + j % 5 else j / 9 * 18 + j % 9)
  }

  /** The block scattered over the five sections of a frame. */
  function Block(frame: seq<bv8>, first: nat, w: nat): (b: seq<bv8>)
    requires Width(w) && first + w <= 18 && |frame| == FRAME_LENGTH
    ensures |b| == 5 * w && forall j: nat | j < 5 * w :: b[j] == frame[Slot(first, w, j)]
  {
    seq(5 * w, j requires 0 <= j < 5 * w => frame[Slot(first, w, j)])
  }

  /** Byte n of a frame belongs to that block. */
  predicate Inside(first: nat, w: nat, n: nat) {
    PREFIX <= n < FRAME_LENGTH && first <= (n - PREFIX) % 18 < first + w
  }

  lemma SlotInside(first: nat, w: nat, j: nat)
    requires Width(w) && first + w <= 18 && j < 5 * w
    ensures Inside(first, w, Slot(first, w, j))
    ensures (Slot(first, w, j) - PREFIX) / 18 * w + (Slot(first, w, j) - PREFIX) % 18 - first == j
  {
    var q, r := j / w, j % w;
    var n := Slot(first, w, j) - PREFIX;
    assert n == q * 18 + (first + r);
    assert n / 18 == q && n % 18 == first + r;
  }

  /** A block fills its bytes of the sections in order. */
  lemma SlotsInOrder(first: nat, w: nat, n: nat) returns (j: nat)
    requires Width(w) && first + w <= 18 && Inside(first, w, n)
    ensures j < 5 * w && Slot(first, w, j) == n
    ensures forall k: nat | k < j :: Slot(first, w, k) < n
  {
    hide Slot;
    j := SlotAt(first, w, n);
    forall k: nat | k < j ensures Slot(first, w, k) < n {
      SlotsRise(first, w, k, j);
    }
  }

  lemma SlotAt(first: nat, w: nat, n: nat) returns (j: nat)
    requires Width(w) && first + w <= 18 && Inside(first, w, n)
    ensures j < 5 * w && Slot(first, w, j) == n
  {
    var q, r := (n - PREFIX) / 18, (n - PREFIX) % 18 - first;
    if w == 5 {
      j := q * 5 + r;
      assert j / 5 == q && j % 5 == r;
    } else {
      j := q * 9 + r;
      assert j / 9 == q && j % 9 == r;
    }
  }

  lemma SlotsRise(first: nat, w: nat, k: nat, j: nat)
    requires Width(w) && first + w <= 18 && k < j < 5 * w
    ensures Slot(first, w, k) < Slot(first, w, j)
  {
    if w == 5 {
      assert k / 5 < j / 5 || (k / 5 == j / 5 && k % 5 < j % 5);
    } else {
      assert k / 9 < j / 9 || (k / 9 == j / 9 && k % 9 < j % 9);
    }
  }

  /** Behind the prefix a byte of a voice frame is data channel or voice, and of a header in one of its blocks. */
  lemma SectionsShared(n: nat)
    requires PREFIX <= n < FRAME_LENGTH
    ensures Inside(0, 5, n) <==> !Inside(5, 13, n)
    ensures Inside(0, 9, n) <==> !Inside(9, 9, n)
  {
  }

  /** Changing only bytes outside a block leaves the block as it was. */
  lemma BlockUntouched(a: seq<bv8>, b: seq<bv8>, first: nat, w: nat)
    requires Width(w) && first + w <= 18 && |a| == |b| == FRAME_LENGTH
    requires forall n: nat | n < FRAME_LENGTH && Inside(first, w, n) :: a[n] == b[n]
    ensures Block(a, first, w) == Block(b, first, w)
  {
    hide Slot, Inside;
    forall j: nat | j < 5 * w ensures Block(a, first, w)[j] == Block(b, first, w)[j] {
      SlotInside(first, w, j);
    }
  }

  /** The copy loop that collects a block from the sections. */
  method Collect(frame: array<bv8>, first: nat, w: nat) returns (dch: array<bv8>)
    requires Width(w) && first + w <= 18 && frame.Length == FRAME_LENGTH
    ensures fresh(dch) && dch[..] == Block(frame[..], first, w)
  {
    dch := new bv8[5 * w];
    for j := 0 to 5 * w
      invariant forall k: nat | k < j :: dch[k] == frame[Slot(first, w, k)]
    {
      dch[j] := frame[Slot(first, w, j)];
    }
  }

  /** The copy loop that distributes a block over the sections. */
  method Distribute(bytes: array<bv8>, frame: array<bv8>, first: nat, w: nat)
    requires Width(w) && first + w <= 18 && frame.Length == FRAME_LENGTH
    requires bytes.Length == 5 * w && bytes != frame
    modifies frame
    ensures Block(frame[..], first, w) == bytes[..]
    ensures forall n: nat | n < FRAME_LENGTH && !Inside(first, w, n) :: frame[n] == old(frame[n])
  {
    hide Slot, Inside;
    for j := 0 to 5 * w
      invariant forall k: nat | k < j :: frame[Slot(first, w, k)] == bytes[k]
      invariant forall n: nat | n < FRAME_LENGTH && !Inside(first, w, n) :: frame[n] == old(frame[n])
    {
      SlotInside(first, w, j);
      forall k: nat | k < j ensures Slot(first, w, k) != Slot(first, w, j) {
        SlotInside(first, w, k);
      }
      frame[Slot(first, w, j)] := bytes[j];
    }
  }

  /** writeDataFRModeData1, writeDataFRModeData2 and writeVDMode2Data: one block, from its data to the frame. */
  method WriteBlock(dt: seq<bv8>, frame: array<bv8>, first: nat, w: nat)
    requires Width(w) && first + w <= 18 && frame.Length == FRAME_LENGTH && |dt| == Size(w)
    modifies frame
    ensures Holds(Block(frame[..], first, w), dt, w)
    ensures forall n: nat | n < FRAME_LENGTH && !Inside(first, w, n) :: frame[n] == old(frame[n])
  {
    hide Deinterleaved, Code, BitsOf, Inside, Block, Crc.Trailer;
    var size := Size(w);
    var output := new bv8[size + 3];
    for i := 0 to size
      invariant forall k: nat | k < i :: output[k] == Whitened(dt)[k]
      invariant unchanged(frame)
    {
      output[i] := dt[i] ^ WHITENING[i];
    }
    assert output[..size] == Whitened(dt);
    Crc.AddCcitt162(output, size + 2);
    output[size + 2] := 0x00;
    MessageIs(output[..], dt, w);
    var bytes := new bv8[5 * w];
    EncodeBlock(output, bytes, 0, w);
    assert bytes[0..5 * w] == bytes[..];
    Distribute(bytes, frame, first, w);
  }

  lemma MessageIs(output: seq<bv8>, dt: seq<bv8>, w: nat)
    requires Width(w) && |dt| == Size(w) && |output| == Size(w) + 3
    requires output[..Size(w) + 2] == Sealed(dt) && output[Size(w) + 2] == 0
    ensures BitsOf(output)[..20 * w] == Message(dt)
  {
    hide Sealed;
    var n := Size(w) + 2;
    assert 8 * n + 4 == 20 * w;
    forall i: nat | i < 20 * w ensures BitsOf(output)[i] == Message(dt)[i] {
      if i < 8 * n {
        assert output[..n][i / 8] == output[i / 8];
      } else {
        assert i / 8 == n;
      }
    }
  }

  /** The reading half shared by readDataFRModeData1, readDataFRModeData2 and readVDMode2Data. */
  method ReadBlock(dec: Decoder, frame: array<bv8>, first: nat, w: nat) returns (ok: bool, dt: seq<bv8>)
    requires Width(w) && first + w <= 18 && frame.Length == FRAME_LENGTH && dec.Shape()
    modifies dec, dec.metrics1, dec.metrics2, dec.decisions
    ensures ok == Data(Block(frame[..], first, w), w).Some? && |dt| == Size(w)
    ensures ok ==> dt == Data(Block(frame[..], first, w), w).value
  {
    hide Deinterleaved, Recovered, BitsOf, Read, Crc.Checks, Whitened, Block, Slot;
    ghost var block := Block(frame[..], first, w);
    var dch := Collect(frame, first, w);
    assert dch[0..5 * w] == dch[..];
    var output := DecodeBlock(dec, dch, 0, w);
    var size := Size(w);
    ReadIs(output[..], block, w);
    ok := Crc.CheckCcitt162(output, size + 2);
    assert output[..size + 2][..size] == output[..size];
    dt := Whitened(output[..size]);
  }

  lemma ReadIs(output: seq<bv8>, block: seq<bv8>, w: nat)
    requires Width(w) && |block| == 5 * w && |output| == Size(w) + 3
    requires BitsOf(output)[..20 * w - 4] == Recovered(Deinterleaved(block, w))
    ensures output[..Size(w) + 2] == Read(block, w)
  {
    hide Recovered, Deinterleaved, Bit;
    var n := Size(w) + 2;
    var b := Recovered(Deinterleaved(block, w));
    PackAllBits(b);
    forall i: nat | i < 8 * n ensures BitsOf(output[..n])[i] == b[i] {
      assert BitsOf(output)[i] == b[i];
      PrefixBit(output, n, i);
    }
    BitsInjective(output[..n], Read(block, w));
  }

  lemma PrefixBit(s: seq<bv8>, n: nat, i: nat)
    requires n <= |s| && i < 8 * n
    ensures Bit(s[..n], i) == Bit(s, i)
  {
    assert s[..n][i / 8] == s[i / 8];
  }

  // ------------------------------------------------------- the entry points

  const SPACES: seq<bv8> := seq(20, _ => 0x20)

  /** writeHeader: the two 20-byte blocks of a header or terminator frame. */
  method WriteHeader(frame: array<bv8>, csd1: seq<bv8>, csd2: seq<bv8>)
    requires frame.Length == FRAME_LENGTH && |csd1| == |csd2| == 20
    modifies frame
    ensures Holds(Block(frame[..], 0, 9), csd1, 9) && Holds(Block(frame[..], 9, 9), csd2, 9)
    ensures frame[..PREFIX] == old(frame[..PREFIX])
  {
    hide Holds, Block, Inside;
    ghost var f0 := frame[..];
    WriteBlock(csd1, frame, 0, 9);
    ghost var f1 := frame[..];
    OtherBlock(f0, f1, 0, 9);
    WriteBlock(csd2, frame, 9, 9);
    OtherBlock(f1, frame[..], 9, 0);
  }

  /** writeVDMode2Data: ten bytes in the data channel; no voice byte is touched. */
  method WriteVDMode2Data(frame: array<bv8>, dt: seq<bv8>)
    requires frame.Length == FRAME_LENGTH && |dt| == 10
    modifies frame
    ensures Holds(Block(frame[..], 0, 5), dt, 5)
    ensures frame[..PREFIX] == old(frame[..PREFIX])
    ensures forall n: nat | n < FRAME_LENGTH && Inside(5, 13, n) :: frame[n] == old(frame[n])
  {
    hide Holds, Block;
    WriteBlock(dt, frame, 0, 5);
  }

  /** readVDMode2Data: leaves dt alone unless the checksum holds. */
  method ReadVDMode2Data(dec: Decoder, frame: array<bv8>, dt: array<bv8>) returns (ok: bool)
    requires frame.Length == FRAME_LENGTH && dec.Shape() && dt.Length == 10
    requires dt as object !in {dec.metrics1, dec.metrics2, dec.decisions} && dt != frame
    requires frame as object !in {dec.metrics1, dec.metrics2, dec.decisions}
    modifies dt, dec, dec.metrics1, dec.metrics2, dec.decisions
    ensures ok == Data(Block(frame[..], 0, 5), 5).Some?
    ensures dt[..] == if ok then Data(Block(frame[..], 0, 5), 5).value else old(dt[..])
  {
    hide Data, Block;
    var data;
    ok, data := ReadBlock(dec, frame, 0, 5);
    if ok {
      for i := 0 to 10
        invariant dt[..i] == data[..i] && unchanged(frame)
      {
        dt[i] := data[i];
      }
    }
  }

  /** readDataFRModeData1 and readDataFRModeData2: twenty bytes, or spaces when the checksum fails. */
  method ReadDataFRMode(dec: Decoder, frame: array<bv8>, first: nat) returns (ok: bool, dt: seq<bv8>)
    requires frame.Length == FRAME_LENGTH && dec.Shape() && (first == 0 || first == 9)
    requires frame as object !in {dec.metrics1, dec.metrics2, dec.decisions}
    modifies dec, dec.metrics1, dec.metrics2, dec.decisions
    ensures ok == Data(Block(frame[..], first, 9), 9).Some?
    ensures dt == if ok then Data(Block(frame[..], first, 9), 9).value else SPACES
  {
    hide Data, Block;
    ok, dt := ReadBlock(dec, frame, first, 9);
    if !ok {
      dt := SPACES;
    }
  }

  /** The block data processHeaderData writes back in the second half. */
  function Relinked(dt: seq<bv8>, downlink: Option<seq<bv8>>, uplink: Option<seq<bv8>>): (r: seq<bv8>)
    requires |dt| == 20
    requires (downlink.Some? ==> |downlink.value| == 10) && (uplink.Some? ==> |uplink.value| == 10)
    ensures |r| == 20
  {
    (if downlink.Some? then downlink.value else dt[..10]) + (if uplink.Some? then uplink.value else dt[10..])
  }

  /** What happens to a header block: data that checks is written back clean, the rest is left alone. */
  ghost predicate Refreshed(before: seq<bv8>, after: seq<bv8>, downlink: Option<seq<bv8>>, uplink: Option<seq<bv8>>)
    requires |before| == |after| == 45
    requires (downlink.Some? ==> |downlink.value| == 10) && (uplink.Some? ==> |uplink.value| == 10)
  {
    match Data(before, 9)
    case Some(d) => Holds(after, Relinked(d, downlink, uplink), 9)
    case None => after == before
  }

  /** A callsign slot filled by the first header that checks. */
  function Learned(known: Option<seq<bv8>>, block: seq<bv8>, from: nat): Option<seq<bv8>>
    requires |block| == 45 && from <= 10
  {
    var d := Data(block, 9);
    if known == None && d.Some? then Some(d.value[from..from + 10]) else known
  }

  lemma RelinkedNothing(dt: seq<bv8>)
    requires |dt| == 20
    ensures Relinked(dt, None, None) == dt
  {
  }

  /** With both callsigns to link, whoever reads a refreshed block reads the downlink's and then the uplink's. */
  lemma RelinkedReads(before: seq<bv8>, after: seq<bv8>, down: seq<bv8>, up: seq<bv8>)
    requires |before| == |after| == 45 && |down| == |up| == 10
    requires Data(before, 9).Some? && Refreshed(before, after, Some(down), Some(up))
    ensures Data(after, 9) == Some(down + up)
  {
    hide Data, Holds;
    SameBlock(after);
    WrittenDataReadsBack(after, after, down + up, 9);
  }

  class HeaderProcessor {
    const dec: Decoder
    var uplink: Option<seq<bv8>>
    var downlink: Option<seq<bv8>>
    var source: Option<seq<bv8>>
    var dest: Option<seq<bv8>>

    ghost predicate Valid()
      reads this, dec
    {
      && dec.Shape()
      && (uplink.Some? ==> |uplink.value| == 10) && (downlink.Some? ==> |downlink.value| == 10)
    }

    constructor ()
      ensures Valid() && uplink == downlink == source == dest == None
      ensures fresh(dec) && fresh(dec.metrics1) && fresh(dec.metrics2) && fresh(dec.decisions)
    {
      dec := new Decoder();
      uplink, downlink, source, dest := None, None, None, None;
    }

    /**
     Reads both header blocks, remembers the first callsigns seen, and writes each
     block that checks back in clean form.
     */
    method ProcessHeaderData(frame: array<bv8>) returns (valid1: bool)
      requires Valid() && frame.Length == FRAME_LENGTH
      requires frame as object !in {dec.metrics1, dec.metrics2, dec.decisions}
      modifies this`source, this`dest, frame, dec, dec.metrics1, dec.metrics2, dec.decisions
      ensures valid1 == Data(Block(old(frame[..]), 0, 9), 9).Some?
      ensures dest == Learned(old(dest), Block(old(frame[..]), 0, 9), 0)
      ensures source == Learned(old(source), Block(old(frame[..]), 0, 9), 10)
      ensures Refreshed(Block(old(frame[..]), 0, 9), Block(frame[..], 0, 9), None, None)
      ensures Refreshed(Block(old(frame[..]), 9, 9), Block(frame[..], 9, 9), downlink, uplink)
      ensures frame[..PREFIX] == old(frame[..PREFIX])
    {
      hide Data, Block, Holds, Inside, Learned, Refreshed;
      ghost var f0 := frame[..];
      valid1 := FirstBlock(frame);
      ghost var f1 := frame[..];
      OtherBlock(f0, f1, 0, 9);
      SecondBlock(frame);
      OtherBlock(f1, frame[..], 9, 0);
    }

    method FirstBlock(frame: array<bv8>) returns (valid: bool)
      requires Valid() && frame.Length == FRAME_LENGTH
      requires frame as object !in {dec.metrics1, dec.metrics2, dec.decisions}
      modifies this`source, this`dest, frame, dec, dec.metrics1, dec.metrics2, dec.decisions
      ensures dec.Shape()
      ensures valid == Data(Block(old(frame[..]), 0, 9), 9).Some?
      ensures dest == Learned(old(dest), Block(old(frame[..]), 0, 9), 0)
      ensures source == Learned(old(source), Block(old(frame[..]), 0, 9), 10)
      ensures Refreshed(Block(old(frame[..]), 0, 9), Block(frame[..], 0, 9), None, None)
      ensures forall n: nat | n < FRAME_LENGTH && !Inside(0, 9, n) :: frame[n] == old(frame[n])
    {
      hide Data, Block, Holds, Inside, Relinked;
      ghost var f0 := frame[..];
      var dt;
      valid, dt := ReadBlock(dec, frame, 0, 9);
      if valid {
        if dest == None {
          dest := Some(dt[0..10]);
        }
        if source == None {
          source := Some(dt[10..20]);
        }
        WriteBlock(dt, frame, 0, 9);
        RelinkedNothing(dt);
      } else {
        assert frame[..] == f0;
      }
    }

    method SecondBlock(frame: array<bv8>)
      requires Valid() && frame.Length == FRAME_LENGTH
      requires frame as object !in {dec.metrics1, dec.metrics2, dec.decisions}
      modifies frame, dec, dec.metrics1, dec.metrics2, dec.decisions
      ensures Refreshed(Block(old(frame[..]), 9, 9), Block(frame[..], 9, 9), downlink, uplink)
      ensures forall n: nat | n < FRAME_LENGTH && !Inside(9, 9, n) :: frame[n] == old(frame[n])
    {
      hide Data, Block, Holds, Inside, Relinked;
      ghost var f0 := frame[..];
      var valid, dt := ReadBlock(dec, frame, 9, 9);
      if valid {
        dt := Relinked(dt, downlink, uplink);
        WriteBlock(dt, frame, 9, 9);
      } else {
        assert frame[..] == f0;
      }
    }
  }

  /** Writing one header block leaves the prefix and the other header block alone. */
  lemma OtherBlock(a: seq<bv8>, b: seq<bv8>, written: nat, other: nat)
    requires |a| == |b| == FRAME_LENGTH && ((written == 0 && other == 9) || (written == 9 && other == 0))
    requires forall n: nat | n < FRAME_LENGTH && !Inside(written, 9, n) :: a[n] == b[n]
    ensures Block(a, other, 9) == Block(b, other, 9)
    ensures a[..PREFIX] == b[..PREFIX]
  {
    hide Block;
    BlockUntouched(a, b, other, 9);
  }

  /**
   A block hit by one bit error and written back by the processor is bit for bit
   the block that was sent.
   */
  lemma RegeneratesBlock(sent: seq<bv8>, received: seq<bv8>, after: seq<bv8>, dt: seq<bv8>)
    requires Holds(sent, dt, 9) && OneBitAway(sent, received)
    requires |received| == |after| == 45 && Refreshed(received, after, None, None)
    ensures Data(received, 9) == Some(dt) && after == sent
    ensures Learned(None, received, 0) == Some(dt[..10]) && Learned(None, received, 10) == Some(dt[10..])
  {
    hide Deinterleaved, Data, Code, Relinked;
    WrittenDataReadsBack(sent, received, dt, 9);
    RelinkedNothing(dt);
    DeinterleavedInjective(sent, after, 9);
    assert dt[0..10] == dt[..10] && dt[10..20] == dt[10..];
  }
}
