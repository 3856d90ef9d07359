/**
 The Frame Information Channel of a YSF frame (ysf_fich.c): six bytes closed by a
 checksum, cut into four 12-bit words, Golay coded to 24 bits each, followed by
 four zero bits, convolved and interleaved into 25 bytes.
 */
module Fich {
  import opened Bits
  import opened Trellis
  import opened Convolution
  import opened Interleave
  import opened Golay
  import Crc

  const OFFSET_NET := 35
  const OFFSET_RX := 40
  const FRAME_LENGTH := 155
  const DT_VD_MODE2: bv8 := 2
  const SYNC_WORD: seq<bv8> := [0xD4, 0x71, 0xC9, 0x63, 0x4D]

  // ------------------------------------------------------ what a block means

  /** Data word k (b0 .. b3) of the six FICH bytes. */
  function DataWord(m: seq<bv8>, k: nat): (w: Word)
    requires |m| == 6 && k < 4
    ensures |w| == 12
  {
    BitsOf(m)[12 * k..12 * k + 12]
  }

  /** The 96 Golay-coded bits of the six FICH bytes. */
  function Coded(m: seq<bv8>): (c: seq<bool>)
    requires |m| == 6
    ensures |c| == 96 && forall n: nat | n < 96 :: c[n] == Encode24(DataWord(m, n / 24))[n % 24]
  {
    seq(96, n requires 0 <= n < 96 => Encode24(DataWord(m, n / 24))[n % 24])
  }

  /** The data bits stand in order at the head of their words: bit 12k + j is coded bit 24k + j. */
  lemma CodedInOrder(m: seq<bv8>, k: nat, j: nat)
    requires |m| == 6 && k < 4 && j < 12
    ensures Coded(m)[24 * k + j] == Bit(m, 12 * k + j)
  {
    hide Bit, Encode24;
    assert (24 * k + j) / 24 == k && (24 * k + j) % 24 == j;
    assert Encode24(DataWord(m, k))[j] == Encode24(DataWord(m, k))[..12][j];
  }

  /** The message given to the convolutional encoder. */
  function Message(m: seq<bv8>): (u: seq<bool>)
    requires |m| == 6
    ensures |u| == 100 && ZeroTailed(u)
  {
    Coded(m) + Zeros(4)
  }

  /** Four FICH bytes with the checksum that fich_encode appends. */
  function Sealed(m: seq<bv8>): (s: seq<bv8>)
    requires |m| == 4
    ensures |s| == 6 && s[..4] == m
  {
    m + Crc.Trailer(m)
  }

  /** The 25 bytes of a block carry the six FICH bytes m. */
  ghost predicate Carries(block: seq<bv8>, m: seq<bv8>) {
    |block| == 25 && |m| == 6 && Deinterleaved(block, 5) == Code(ZERO, Message(m))
  }

  ghost function DecodedWord(table: Word -> Word, r: seq<Dibit>, k: nat): (w: Word)
    requires |r| == 100 && k < 4 && DecodingTable(table)
    ensures |w| == 12
  {
    Decoded24(table, Recovered(r)[24 * k..24 * k + 24])
  }

  ghost function ReceivedBits(table: Word -> Word, r: seq<Dibit>): (b: seq<bool>)
    requires |r| == 100 && DecodingTable(table)
    ensures |b| == 48 && forall n: nat | n < 48 :: b[n] == DecodedWord(table, r, n / 12)[n % 12]
  {
    seq(48, n requires 0 <= n < 48 => DecodedWord(table, r, n / 12)[n % 12])
  }

  /** The six bytes fich_decode leaves for a received block, whatever the block holds. */
  ghost function Received(table: Word -> Word, block: seq<bv8>): (m: seq<bv8>)
    requires |block| == 25 && DecodingTable(table)
    ensures |m| == 6
  {
    PackAll(ReceivedBits(table, Deinterleaved(block, 5)))
  }

  /** Every FICH survives one wrong bit anywhere among its 200 bits on the air. */
  lemma SurvivesOneBit(table: Word -> Word, sent: seq<bv8>, block: seq<bv8>, m: seq<bv8>)
    requires DecodingTable(table) && Carries(sent, m) && OneBitAway(sent, block)
    ensures Received(table, block) == m
  {
    hide Deinterleaved, Code, Message, Distance, PackAll, ReceivedBits, AgreeBut, BitsOf;
    var r := Deinterleaved(block, 5);
    OneBitAwaySymbols(sent, block, 5);
    CorrectedOutput(m, r);
    ReceivedIsData(table, m, r);
    PackAllBits(BitsOf(m));
    BitsInjective(Received(table, block), m);
  }

  /** The Viterbi stage delivers the Golay words of what was sent. */
  lemma CorrectedOutput(m: seq<bv8>, r: seq<Dibit>)
    requires |m| == 6 && |r| == 100 && Distance(Code(ZERO, Message(m)), r) <= 1
    ensures Recovered(r) == Coded(m)
  {
    hide Recovered, Code, Distance, Coded, ZeroTailed;
    DecodeCorrectsOneBit(Message(m), r);
    assert Message(m)[..96] == Coded(m);
  }

  lemma WordDecodes(table: Word -> Word, m: seq<bv8>, r: seq<Dibit>, k: nat)
    requires |m| == 6 && |r| == 100 && DecodingTable(table) && Recovered(r) == Coded(m) && k < 4
    ensures DecodedWord(table, r, k) == DataWord(m, k)
  {
    hide Encode24, DataWord, DecodingTable, Decoded24, Recovered;
    var c := Coded(m);
    forall j: nat | j < 24 ensures c[24 * k + j] == Encode24(DataWord(m, k))[j] {
      assert (24 * k + j) / 24 == k && (24 * k + j) % 24 == j;
    }
    assert c[24 * k..24 * k + 24] == Encode24(DataWord(m, k));
    DecodeEncode24(table, DataWord(m, k));
  }

  lemma ReceivedIsData(table: Word -> Word, m: seq<bv8>, r: seq<Dibit>)
    requires |m| == 6 && |r| == 100 && DecodingTable(table) && Recovered(r) == Coded(m)
    ensures ReceivedBits(table, r) == BitsOf(m)
  {
    hide DecodingTable, DecodedWord, Recovered, Coded, Bit;
    forall n: nat | n < 48 ensures ReceivedBits(table, r)[n] == BitsOf(m)[n] {
      WordDecodes(table, m, r, n / 12);
      assert DataWord(m, n / 12)[n % 12] == BitsOf(m)[n];
    }
  }

  // ------------------------------------------------------------- the fields

  datatype Fields = Fields(fi: bv8, fn: bv8, ft: bv8, cm: bv8, dt: bv8)

  function FieldsOf(m: seq<bv8>): Fields
    requires |m| == 6
  {
    Fields((m[0] >> 6) & 0x03, (m[1] >> 3) & 0x07, m[1] & 0x07, (m[0] >> 2) & 0x03, m[2] & 0x03)
  }

  function SetBits(b: bv8, keep: bv8, v: bv8): bv8 {
    (b & keep) | (v & !keep)
  }

  /** The four bytes ysf_fich_encode_outbound assembles with its setters. */
  function Outbound(fn: bv8, fi: bv8, ft: bv8, cm: bv8): (m: seq<bv8>)
    ensures |m| == 4
  {
    [SetBits(SetBits(SetBits(0, 0x3F, fi << 6), 0xCF, 2 << 4), 0xF3, cm << 2),
     SetBits(SetBits(0, 0xC7, fn << 3), 0xF8, ft),
     SetBits(SetBits(SetBits(0, 0xC7, 0), 0xFC, DT_VD_MODE2), 0xFB, 0),
     SetBits(SetBits(0, 0x7F, 0), 0x80, 0)]
  }

  /** In range, the setters and the field extraction are inverse to each other. */
  lemma OutboundFields(fn: bv8, fi: bv8, ft: bv8, cm: bv8)
    requires fi < 4 && cm < 4 && fn < 8 && ft < 8
    ensures FieldsOf(Sealed(Outbound(fn, fi, ft, cm))) == Fields(fi, fn, ft, cm, DT_VD_MODE2)
  {
    hide Crc.Trailer;
    var m := Outbound(fn, fi, ft, cm);
    assert Sealed(m)[..3] == m[..3];
    assert Sealed(m)[0] == m[0] && Sealed(m)[1] == m[1] && Sealed(m)[2] == m[2];
  }

  lemma OutboundBytes(fn: bv8, fi: bv8, ft: bv8, cm: bv8)
    requires fi < 4 && cm < 4 && fn < 8 && ft < 8
    ensures SetBits(SetBits(SetBits(0, 0x3F, fi << 6), 0xCF, 2 << 4), 0xF3, cm << 2) == (fi << 6) | 0x20 | (cm << 2)
    ensures SetBits(SetBits(0, 0xC7, fn << 3), 0xF8, ft) == (fn << 3) | ft
  {
  }

  lemma HeaderBytes(fn: bv8, fi: bv8, ft: bv8, cm: bv8)
    requires fi < 4 && cm < 4 && fn < 8 && ft < 8
    ensures var b := (fi << 6) | 0x20 | (cm << 2);
            ((b >> 6) & 0x03) == fi && ((b >> 4) & 0x03) == 2 && ((b >> 2) & 0x03) == cm
    ensures var b := (fn << 3) | ft; ((b >> 3) & 0x07) == fn && b & 0x07 == ft
  {
  }

  /** The header bytes bit by bit: FI CS CM 00, FN FT with two zeros ahead, data type 2, no squelch code. */
  lemma OutboundHeader(fn: bv8, fi: bv8, ft: bv8, cm: bv8)
    requires fi < 4 && cm < 4 && fn < 8 && ft < 8
    ensures Outbound(fn, fi, ft, cm) == [(fi << 6) | 0x20 | (cm << 2), (fn << 3) | ft, 0x02, 0x00]
    ensures HeaderOf(Sealed(Outbound(fn, fi, ft, cm))) == Header(fi, 2, cm, fn, ft, 0, false, 2, 0)
  {
    hide Crc.Trailer;
    OutboundBytes(fn, fi, ft, cm);
    HeaderBytes(fn, fi, ft, cm);
    var m := Outbound(fn, fi, ft, cm);
    assert Sealed(m)[0] == m[0] && Sealed(m)[1] == m[1] && Sealed(m)[2] == m[2] && Sealed(m)[3] == m[3];
  }

  /**
   An outbound FICH written on the air and hit by at most one bit error is read
   back with the same fields and data type 2.
   */
  lemma OutboundSurvivesOneBit(table: Word -> Word, sent: seq<bv8>, block: seq<bv8>,
                               fn: bv8, fi: bv8, ft: bv8, cm: bv8)
    requires fi < 4 && cm < 4 && fn < 8 && ft < 8 && DecodingTable(table)
    requires Carries(sent, Sealed(Outbound(fn, fi, ft, cm))) && OneBitAway(sent, block)
    ensures FieldsOf(Received(table, block)) == Fields(fi, fn, ft, cm, DT_VD_MODE2)
  {
    SurvivesOneBit(table, sent, block, Sealed(Outbound(fn, fi, ft, cm)));
    OutboundFields(fn, fi, ft, cm);
  }

  /** The bytes a DGID rewrite puts in place of those it read. */
  function Rewritten(m: seq<bv8>, dgid: bv8): (r: seq<bv8>)
    requires |m| == 6
    ensures |r| == 4
  {
    [m[0], m[1], SetBits(SetBits(m[2], 0xFB, 0), 0xFC, DT_VD_MODE2), dgid]
  }

  /** The six header fields and flags that a rewrite must leave alone or set. */
  datatype Header = Header(fi: bv8, cs: bv8, cm: bv8, fn: bv8, ft: bv8, mr: bv8, voip: bool, dt: bv8, dgid: bv8)

  function HeaderOf(m: seq<bv8>): Header
    requires |m| == 6
  {
    Header((m[0] >> 6) & 0x03, (m[0] >> 4) & 0x03, (m[0] >> 2) & 0x03, (m[1] >> 3) & 0x07, m[1] & 0x07,
           (m[2] >> 3) & 0x07, m[2] & 0x04 != 0, m[2] & 0x03, m[3])
  }

  lemma RewrittenHeader(m: seq<bv8>, dgid: bv8)
    requires |m| == 6
    ensures HeaderOf(Sealed(Rewritten(m, dgid)))
         == HeaderOf(m).(voip := false, dt := DT_VD_MODE2, dgid := dgid)
  {
    hide Crc.Trailer;
    var w := Rewritten(m, dgid);
    assert Sealed(w)[0] == w[0] && Sealed(w)[1] == w[1] && Sealed(w)[2] == w[2] && Sealed(w)[3] == w[3];
  }

  /**
   Whatever the old block held, a later decode of the rewritten block, even with
   one bit wrong, reads the old header with the new DGID, data type 2 and VoIP clear.
   */
  lemma RewriteSurvivesOneBit(table: Word -> Word, before: seq<bv8>, sent: seq<bv8>, block: seq<bv8>, dgid: bv8)
    requires |before| == 25 && DecodingTable(table)
    requires Carries(sent, Sealed(Rewritten(Received(table, before), dgid))) && OneBitAway(sent, block)
    ensures HeaderOf(Received(table, block))
         == HeaderOf(Received(table, before)).(voip := false, dt := DT_VD_MODE2, dgid := dgid)
  {
    hide Received, Carries, HeaderOf, Sealed, Rewritten;
    var m := Received(table, before);
    SurvivesOneBit(table, sent, block, Sealed(Rewritten(m, dgid)));
    RewrittenHeader(m, dgid);
  }

  // ------------------------------------------------------------- the codec

  lemma SealedIs(m: seq<bv8>, s: seq<bv8>)
    requires |m| == 4 && |s| == 6 && s[..6] == m + Crc.Trailer(m)
    ensures s == Sealed(m)
  {
    hide Crc.Trailer;
    assert s[..6] == s;
  }

  /** Ninety-six coded bits and a zero byte begin with the message. */
  lemma MessageIs(conv: seq<bv8>, m: seq<bv8>)
    requires |conv| == 13 && |m| == 6 && conv[12] == 0
    requires forall n: nat | n < 96 :: Bit(conv, n) == Coded(m)[n]
    ensures BitsOf(conv)[..100] == Message(m)
  {
    hide Coded;
    forall n: nat | n < 100 ensures BitsOf(conv)[n] == Message(m)[n] {
      if n >= 96 {
        assert n / 8 == 12;
      }
    }
  }

  class Codec {
    const table: Word -> Word
    const fich: array<bv8>
    const dec: Decoder

    ghost predicate Ready()
      reads this, dec
    {
      fich.Length == 6 && dec.Shape() && DecodingTable(table)
    }

    constructor (table: Word -> Word)
      requires DecodingTable(table)
      ensures this.table == table && Ready()
      ensures fresh(fich) && fresh(dec) && fresh(dec.metrics1) && fresh(dec.metrics2) && fresh(dec.decisions)
    {
      this.table := table;
      fich := new bv8[6];
      dec := new Decoder();
    }

    /** fich_encode: seals the six bytes and writes the block at byte `at`. */
    method Encode(bytes: array<bv8>, at: nat)
      requires Ready() && at + 25 <= bytes.Length && bytes != fich
      modifies fich, bytes
      ensures fich[..] == Sealed(old(fich[..4]))
      ensures Carries(bytes[at..at + 25], fich[..])
      ensures forall j: nat | j < bytes.Length && !(at <= j < at + 25) :: bytes[j] == old(bytes[j])
    {
      hide Sealed, Message, Code, Deinterleaved, BitsOf, Symbol, Crc.Trailer;
      ghost var before := fich[..4];
      Crc.AddCcitt162(fich, 6);
      SealedIs(before, fich[..]);
      var conv := GolayWords();
      EncodeBlock(conv, bytes, at, 5);
    }

    /** The Golay stage of fich_encode: twelve coded bytes and the byte that flushes the register. */
    method GolayWords() returns (conv: array<bv8>)
      requires fich.Length == 6
      ensures fresh(conv) && conv.Length == 13
      ensures BitsOf(conv[..])[..100] == Message(fich[..])
    {
      hide BitsOf, Bit, Encode24, DataWord, Message;
      conv := new bv8[13];
      for k := 0 to 4
        invariant forall n: nat | n < 24 * k :: Bit(conv[..], n) == Coded(fich[..])[n]
      {
        var c := Encode24(DataWord(fich[..], k));
        ghost var before := conv[..];
        StoreBits(conv, 3 * k, c);
        forall n: nat | n < 24 * k + 24 ensures Bit(conv[..], n) == Coded(fich[..])[n] {
          if n < 24 * k {
            SameByte(conv[..], before, n);
          } else {
            assert n / 24 == k && n % 24 == n - 24 * k;
            assert Bit(conv[..], 24 * k + (n - 24 * k)) == c[n - 24 * k];
          }
        }
      }
      ghost var before := conv[..];
      conv[12] := 0x00;
      forall n: nat | n < 96 ensures Bit(conv[..], n) == Coded(fich[..])[n] {
        SameByte(conv[..], before, n);
      }
      MessageIs(conv[..], fich[..]);
    }

    /** fich_decode: reads the block at byte `at`, correcting what it can; the checksum is not examined. */
    method Decode(bytes: array<bv8>, at: nat)
      requires Ready() && at + 25 <= bytes.Length && bytes != fich
      requires bytes as object !in {dec.metrics1, dec.metrics2, dec.decisions}
      requires fich as object !in {dec.metrics1, dec.metrics2, dec.decisions}
      modifies fich, dec, dec.metrics1, dec.metrics2, dec.decisions
      ensures fich[..] == Received(table, bytes[at..at + 25])
    {
      hide Deinterleaved, Recovered, Decoded24, Bit, BitsOf, Syndrome;
      var output := DecodeBlock(dec, bytes, at, 5);
      ghost var r := Deinterleaved(bytes[at..at + 25], 5);
      ghost var o := BitsOf(output[..]);
      var words: seq<Word> := [];
      for k := 0 to 4
        invariant |words| == k && forall i: nat | i < k :: words[i] == DecodedWord(table, r, i)
        invariant BitsOf(output[..]) == o
      {
        assert o[24 * k..24 * k + 24] == o[..96][24 * k..24 * k + 24];
        var w := Decode24(table, BitsOf(output[..])[24 * k..24 * k + 24]);
        words := words + [w];
      }
      StoreWords(words);
      assert BitsOf(fich[..]) == ReceivedBits(table, r);
      PackAllBits(ReceivedBits(table, r));
      BitsInjective(fich[..], Received(table, bytes[at..at + 25]));
    }

    /** Packs the four decoded 12-bit words into the six FICH bytes. */
    method StoreWords(words: seq<Word>)
      requires fich.Length == 6 && |words| == 4 && forall k: nat | k < 4 :: |words[k]| == 12
      modifies fich
      ensures forall n: nat | n < 48 :: BitsOf(fich[..])[n] == words[n / 12][n % 12]
    {
      hide Bit;
      StoreBits(fich, 0, words[0] + words[1] + words[2] + words[3]);
      forall n: nat | n < 48 ensures BitsOf(fich[..])[n] == words[n / 12][n % 12] {
        assert Bit(fich[..], 8 * 0 + n) == (words[0] + words[1] + words[2] + words[3])[n];
      }
    }

    method EncodeOutbound(bytes: array<bv8>, at: nat, fn: bv8, fi: bv8, ft: bv8, cm: bv8)
      requires Ready() && at + 25 <= bytes.Length && bytes != fich
      modifies fich, bytes
      ensures Carries(bytes[at..at + 25], Sealed(Outbound(fn, fi, ft, cm)))
      ensures forall j: nat | j < bytes.Length && !(at <= j < at + 25) :: bytes[j] == old(bytes[j])
    {
      hide Carries, Sealed;
      for i := 0 to 6
        invariant forall j: nat | j < i :: fich[j] == 0
        invariant unchanged(bytes)
      {
        fich[i] := 0;
      }
      fich[0] := SetBits(fich[0], 0x3F, fi << 6);
      fich[0] := SetBits(fich[0], 0xCF, 2 << 4);
      fich[0] := SetBits(fich[0], 0xF3, cm << 2);
      fich[1] := SetBits(fich[1], 0xC7, fn << 3);
      fich[1] := SetBits(fich[1], 0xF8, ft);
      fich[2] := SetBits(fich[2], 0xC7, 0 << 3);
      fich[2] := SetBits(fich[2], 0xFC, DT_VD_MODE2);
      fich[2] := fich[2] & 0xFB;
      fich[3] := fich[3] & 0x7F;
      fich[3] := SetBits(fich[3], 0x80, 0);
      assert fich[..4] == Outbound(fn, fi, ft, cm);
      Encode(bytes, at);
    }

    /** Reads the fields of a frame, at offset 40 behind a sync word and at offset 35 otherwise. */
    method DecodeFields(frame: array<bv8>) returns (f: Fields)
      requires Ready() && frame.Length == FRAME_LENGTH && frame != fich
      requires frame as object !in {dec.metrics1, dec.metrics2, dec.decisions}
      requires fich as object !in {dec.metrics1, dec.metrics2, dec.decisions}
      modifies fich, dec, dec.metrics1, dec.metrics2, dec.decisions
      ensures var at := if frame[35..40] == SYNC_WORD then OFFSET_RX else OFFSET_NET;
              f == FieldsOf(Received(table, frame[at..at + 25])) && f.fi <= 3
    {
      var off := if frame[35..40] == SYNC_WORD then OFFSET_RX else OFFSET_NET;
      Decode(frame, off);
      f := FieldsOf(fich[..]);
    }

    /** ysf_fich_rewrite_dgid; DGID 0 leaves the frame alone. */
    method RewriteDgid(frame: array<bv8>, dgid: bv8)
      requires Ready() && frame.Length == FRAME_LENGTH && frame != fich
      requires frame as object !in {dec.metrics1, dec.metrics2, dec.decisions}
      requires fich as object !in {dec.metrics1, dec.metrics2, dec.decisions}
      modifies frame, fich, dec, dec.metrics1, dec.metrics2, dec.decisions
      ensures dgid == 0 ==> frame[..] == old(frame[..])
      ensures forall j: nat | j < FRAME_LENGTH && !(40 <= j < 65) :: frame[j] == old(frame[j])
      ensures dgid != 0 ==> Carries(frame[40..65], Sealed(Rewritten(Received(table, old(frame[40..65])), dgid)))
      ensures dgid != 0 ==>
                var before := HeaderOf(Received(table, old(frame[40..65])));
                HeaderOf(Received(table, frame[40..65])) == before.(voip := false, dt := DT_VD_MODE2, dgid := dgid)
    {
      hide Carries, Sealed, Received, HeaderOf;
      if dgid < 1 {
        return;
      }
      ghost var before := frame[40..65];
      Decode(frame, OFFSET_RX);
      fich[2] := fich[2] & 0xFB;
      fich[2] := SetBits(fich[2], 0xFC, DT_VD_MODE2);
      fich[3] := dgid;
      assert fich[..4] == Rewritten(Received(table, before), dgid);
      Encode(frame, OFFSET_RX);
      SameBlock(frame[40..65]);
      RewriteSurvivesOneBit(table, before, frame[40..65], frame[40..65], dgid);
    }
  }
}
