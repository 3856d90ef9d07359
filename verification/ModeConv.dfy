/**
 The transcoder between DMR bursts and YSF payloads (ModeConv.cpp): two tagged record
 queues, one per output mode, and the puts and gets around them. PRNG_TABLE is any
 function from the 12 bits of the first AMBE word to 23 bits.
 */
module ModeConv {
  import opened Golay
  import opened Payload
  import opened Voice
  import opened VoiceQueue

  const DMR_SILENCE: seq<bv8> := [0xB9, 0xE8, 0x81, 0x52, 0x61, 0x73, 0x00, 0x2A, 0x6B]
  const YSF_SILENCE: seq<bv8> :=
    [0x7B, 0xB2, 0x8E, 0x43, 0x36, 0xE4, 0xA2, 0x39, 0x78, 0x49, 0x33, 0x68, 0x33]

  /** The voice frame in a nine-byte DMR record. */
  ghost function DmrFrame(prng: Word -> Word, v: seq<bv8>): Frame
    requires |v| == 9 && Prng(prng)
  {
    Stripped(prng, RecordBits(v))
  }

  /** Voice frame j of a DMR burst. */
  ghost function BurstFrame(prng: Word -> Word, d: seq<bv8>, j: nat): Frame
    requires |d| == 33 && j < 3 && Prng(prng)
  {
    Stripped(prng, BurstBits(d, j))
  }

  /** A voice record of the DMR queue that carries f. */
  ghost predicate DmrVoice(prng: Word -> Word, r: Record, f: Frame) {
    Prng(prng) && r.tag == TAG_DATA && |r.data| == 9 && DmrFrame(prng, r.data) == f
  }

  ghost predicate YsfVoice(r: Record, f: Frame) {
    r.tag == TAG_DATA && |r.data| == 13 && YsfFrame(r.data) == f
  }

  class Converter {
    const prng: Word -> Word
    const dmr: Lane
    const ysf: Lane

    ghost function Repr(): set<object>
      reads this
    {
      {dmr, dmr.ring, dmr.ring.buffer, ysf, ysf.ring, ysf.ring.buffer}
    }

    /** Both rings hold whole records, and no more than their counters say. */
    ghost predicate Sane()
      reads this, Repr()
    {
      && Prng(prng)
      && dmr.Sane() && dmr.size == 9 && dmr.group == 3
      && ysf.Sane() && ysf.size == 13 && ysf.group == 5
      && dmr != ysf && dmr.ring != ysf.ring && dmr.ring.buffer != ysf.ring.buffer
    }

    /** Rings and counters agree. */
    ghost predicate Valid()
      reads this, Repr()
    {
      Sane() && dmr.Valid() && ysf.Valid()
    }

    constructor (prng: Word -> Word)
      requires Prng(prng)
      ensures this.prng == prng && Valid() && dmr.queue == [] && ysf.queue == []
      ensures fresh(Repr())
    {
      this.prng := prng;
      dmr := new Lane(9, 3);
      ysf := new Lane(13, 5);
    }

    /** putAMBE2DMR: one frame joins the DMR queue. */
    method PutAmbe2Dmr(f: Frame) returns (ghost r: Record)
      requires Sane()
      modifies dmr, dmr.ring, dmr.ring.buffer
      ensures Sane() && dmr.n == old(dmr.n) + 1
      ensures dmr.queue == Joined(old(dmr.queue), r, 9) && DmrVoice(prng, r, f)
    {
      hide Stripped, Protected, RecordBits, Limit;
      var v := DmrRecord(prng, f);
      StripProtected(prng, f);
      dmr.Put(TAG_DATA, v[..]);
      r := Record(TAG_DATA, v[..]);
    }

    /** putAMBE2YSF: one frame, given by its protected DMR words, joins the YSF queue. */
    method PutAmbe2Ysf(a: Word, b: Word, c: Word) returns (ghost r: Record)
      requires Sane() && |a| == 24 && |b| == 23 && |c| == 25
      modifies ysf, ysf.ring, ysf.ring.buffer
      ensures Sane() && ysf.n == old(ysf.n) + 1
      ensures ysf.queue == Joined(old(ysf.queue), r, 13) && YsfVoice(r, Stripped(prng, a + b + c))
    {
      hide Stripped, ChannelBits, Channel, Unrepeated, Limit;
      var v := YsfRecord(prng, a, b, c);
      ChannelRoundTrip(Stripped(prng, a + b + c));
      ysf.Put(TAG_DATA, v[..]);
      r := Record(TAG_DATA, v[..]);
    }

    method PutAmbe7(ambe7: seq<bv8>) returns (ghost r: Record)
      requires Sane() && |ambe7| == 7
      modifies dmr, dmr.ring, dmr.ring.buffer
      ensures Sane() && dmr.n == old(dmr.n) + 1
      ensures dmr.queue == Joined(old(dmr.queue), r, 9) && DmrVoice(prng, r, FromBytes(ambe7))
    {
      r := PutAmbe2Dmr(FromBytes(ambe7));
    }

    /** putAMBE7YSF protects the raw fields first, because putAMBE2YSF strips them again. */
    method PutAmbe7Ysf(ambe7: seq<bv8>) returns (ghost r: Record)
      requires Sane() && |ambe7| == 7
      modifies ysf, ysf.ring, ysf.ring.buffer
      ensures Sane() && ysf.n == old(ysf.n) + 1
      ensures ysf.queue == Joined(old(ysf.queue), r, 13) && YsfVoice(r, FromBytes(ambe7))
    {
      hide Stripped, YsfFrame, Encode24, Encode23, Limit;
      var f := FromBytes(ambe7);
      StripProtected(prng, f);
      r := PutAmbe2Ysf(Encode24(f.a), Xor(Encode23(f.b), prng(f.a)), f.c);
    }

    /** putDMR: the three frames of a burst join the YSF queue. */
    method PutDmr(bytes: array<bv8>) returns (ghost rs: seq<Record>)
      requires Sane()
      requires bytes.Length == 33 && bytes as object !in Repr()
      modifies ysf, ysf.ring, ysf.ring.buffer
      ensures Sane() && ysf.n == old(ysf.n) + 3
      ensures |rs| == 3 && ysf.queue == JoinedAll(old(ysf.queue), rs, 13)
      ensures forall j: nat | j < 3 :: YsfVoice(rs[j], BurstFrame(prng, bytes[..], j))
    {
      hide YsfVoice, Limit, Bytes, Sized, Prng, BurstFrame, Joined, JoinedAll, BurstBits, Stripped,
           Converter.Sane;
      ghost var q := ysf.queue;
      ghost var r0 := PutBurstFrame(bytes, 0);
      ghost var r1 := PutBurstFrame(bytes, 1);
      ghost var r2 := PutBurstFrame(bytes, 2);
      JoinsThree(q, r0, r1, r2, 13);
      rs := [r0, r1, r2];
    }

    /** The words of voice frame j, read from the burst and put. */
    method PutBurstFrame(bytes: array<bv8>, j: nat) returns (ghost r: Record)
      requires Sane()
      requires bytes.Length == 33 && bytes as object !in Repr() && j < 3
      modifies ysf, ysf.ring, ysf.ring.buffer
      ensures Sane() && ysf.n == old(ysf.n) + 1
      ensures ysf.queue == Joined(old(ysf.queue), r, 13) && YsfVoice(r, BurstFrame(prng, bytes[..], j))
    {
      hide YsfVoice, Limit, Bytes, Sized, Stripped;
      var w := BurstBits(bytes[..], j);
      assert w == w[..24] + w[24..47] + w[47..];
      r := PutAmbe2Ysf(w[..24], w[24..47], w[47..]);
    }

    /** putYSF: the five frames of a payload join the DMR queue. */
    method PutYsf(frame: array<bv8>) returns (ghost rs: seq<Record>)
      requires Sane()
      requires frame.Length == FRAME_LENGTH && frame as object !in Repr()
      modifies dmr, dmr.ring, dmr.ring.buffer
      ensures Sane() && dmr.n == old(dmr.n) + 5
      ensures |rs| == 5 && dmr.queue == JoinedAll(old(dmr.queue), rs, 9)
      ensures forall j: nat | j < 5 :: DmrVoice(prng, rs[j], YsfFrame(PayloadRecord(frame[..], j)))
    {
      hide DmrVoice, YsfFrame, PayloadRecord, Limit, Bytes, Sized, Prng, Joined, JoinedAll, Converter.Sane;
      ghost var q, d := dmr.queue, frame[..];
      ghost var r0 := PutSection(frame, 0);
      ghost var r1 := PutSection(frame, 1);
      ghost var r2 := PutSection(frame, 2);
      ghost var r3 := PutSection(frame, 3);
      ghost var r4 := PutSection(frame, 4);
      JoinsFive(q, r0, r1, r2, r3, r4, 9);
      rs := [r0, r1, r2, r3, r4];
      assert frame[..] == d;
      FiveVoices(prng, rs, d);
    }

    /** Section j of the payload, read and put. */
    method PutSection(frame: array<bv8>, j: nat) returns (ghost r: Record)
      requires Sane()
      requires frame.Length == FRAME_LENGTH && frame as object !in Repr() && j < 5
      modifies dmr, dmr.ring, dmr.ring.buffer
      ensures Sane() && dmr.n == old(dmr.n) + 1
      ensures dmr.queue == Joined(old(dmr.queue), r, 9) && frame[..] == old(frame[..])
      ensures DmrVoice(prng, r, YsfFrame(PayloadRecord(frame[..], j)))
    {
      hide DmrVoice, YsfFrame, PayloadRecord, Limit, Bytes, Sized, Prng;
      var f := SectionFrame(frame, j);
      r := PutAmbe2Dmr(f);
    }

    method PutYsfHeader()
      requires Sane()
      modifies dmr, dmr.ring, dmr.ring.buffer
      ensures Sane() && dmr.n == old(dmr.n) + 1
      ensures dmr.queue == Joined(old(dmr.queue), Record(TAG_HEADER, seq(9, _ => 0)), 9)
    {
      dmr.Put(TAG_HEADER, seq(9, _ => 0));
    }

    method PutDmrHeader()
      requires Sane()
      modifies ysf, ysf.ring, ysf.ring.buffer
      ensures Sane() && ysf.n == old(ysf.n) + 1
      ensures ysf.queue == Joined(old(ysf.queue), Record(TAG_HEADER, seq(13, _ => 0)), 13)
    {
      ysf.Put(TAG_HEADER, seq(13, _ => 0));
    }

    method PutYsfEot()
      requires Sane()
      modifies dmr, dmr.ring, dmr.ring.buffer
      ensures Sane() && dmr.n == old(dmr.n) + 3 - old(dmr.n) % 3 + 1
      ensures dmr.queue ==
        JoinedAll(old(dmr.queue), Fill(old(dmr.n), 3, DMR_SILENCE) + [Record(TAG_EOT, seq(9, _ => 0))], 9)
    {
      dmr.PutEot(DMR_SILENCE, seq(9, _ => 0));
    }

    method PutDmrEot()
      requires Sane()
      modifies ysf, ysf.ring, ysf.ring.buffer
      ensures Sane() && ysf.n == old(ysf.n) + 5 - old(ysf.n) % 5 + 1
      ensures ysf.queue ==
        JoinedAll(old(ysf.queue), Fill(old(ysf.n), 5, YSF_SILENCE) + [Record(TAG_EOT, seq(13, _ => 0))], 13)
    {
      ysf.PutEot(YSF_SILENCE, seq(13, _ => 0));
    }

    /** dmr33ToAMBE: the three frames of a burst, seven bytes each. */
    method Dmr33ToAmbe(d: array<bv8>) returns (ambe: seq<seq<bv8>>)
      requires Sane() && d.Length == 33
      ensures |ambe| == 3 && forall j: nat | j < 3 :: ambe[j] == ToBytes(BurstFrame(prng, d[..], j))
    {
      hide Stripped, BurstBits, ToBytes;
      var fs := BurstFrames(prng, d);
      ambe := [ToBytes(fs[0]), ToBytes(fs[1]), ToBytes(fs[2])];
    }

    /** getDMR: a burst of three frames or what there is of it, a tag record, or nothing. */
    method GetDmr(data: array<bv8>) returns (tag: bv8)
      requires Sane() && data.Length == 33 && data as object !in Repr()
      modifies data, dmr, dmr.ring
      ensures Sane() && (old(Valid()) ==> Valid())
      ensures Sized(old(dmr.queue), 9)
      ensures var r := Served(old(dmr.queue), old(dmr.n), 3); r.q == dmr.queue && r.n == dmr.n
      ensures BurstDelivered(Served(old(dmr.queue), old(dmr.n), 3).item, tag, old(data[..]), data[..])
    {
      hide Bytes, Sized, Prng, Served, Delivered, BurstDelivered;
      ghost var item, before := Served(dmr.queue, dmr.n, 3).item, data[..];
      ServedSized(dmr.queue, dmr.n, 3, 9);
      AgreeingGet(dmr.queue, 3);
      GetConserves(dmr.queue, dmr.n, 3);
      var records;
      tag, records := dmr.Get();
      assert data[..] == before;
      StoreBurst(item, tag, records, data);
    }

    /** getYSF: a payload of five frames or what there is of it, a tag record, or nothing. */
    method GetYsf(frame: array<bv8>) returns (tag: bv8)
      requires Sane() && frame.Length == FRAME_LENGTH && frame as object !in Repr()
      modifies frame, ysf, ysf.ring
      ensures Sane() && (old(Valid()) ==> Valid())
      ensures Sized(old(ysf.queue), 13)
      ensures var r := Served(old(ysf.queue), old(ysf.n), 5); r.q == ysf.queue && r.n == ysf.n
      ensures PayloadDelivered(Served(old(ysf.queue), old(ysf.n), 5).item, tag, old(frame[..]), frame[..])
    {
      hide Bytes, Sized, Prng, Served, Delivered, PayloadDelivered;
      ghost var item, before := Served(ysf.queue, ysf.n, 5).item, frame[..];
      ServedSized(ysf.queue, ysf.n, 5, 13);
      AgreeingGet(ysf.queue, 5);
      GetConserves(ysf.queue, ysf.n, 5);
      var records;
      tag, records := ysf.Get();
      assert frame[..] == before;
      StorePayload(item, tag, records, frame);
    }
  }

  /** What is read of a DMR item goes into the caller's buffer. */
  method StoreBurst(ghost item: Item, tag: bv8, records: seq<seq<bv8>>, data: array<bv8>)
    requires data.Length == 33 && Delivered(item, tag, records) && Sized(Records(item), 9)
    requires item.Voice? ==> 1 <= |item.records| <= 3
    requires item.Tagged? ==> item.record.tag != TAG_DATA
    modifies data
    ensures BurstDelivered(item, tag, old(data[..]), data[..])
  {
    hide BurstBits, RecordBits, Sized, Delivered, BurstDelivered;
    ghost var before := data[..];
    DeliveredShape(item, tag, records, 3, 9);
    if tag == TAG_DATA {
      PackPart(records, data);
    } else if |records| == 1 {
      CopyTo(data, 0, records[0]);
      assert data[..] == records[0] + before[9..];
    }
    BurstResult(item, tag, records, before, data[..]);
  }

  /** What is read of a YSF item goes into the caller's buffer. */
  method StorePayload(ghost item: Item, tag: bv8, records: seq<seq<bv8>>, frame: array<bv8>)
    requires frame.Length == FRAME_LENGTH && Delivered(item, tag, records) && Sized(Records(item), 13)
    requires item.Voice? ==> 1 <= |item.records| <= 5
    requires item.Tagged? ==> item.record.tag != TAG_DATA
    modifies frame
    ensures PayloadDelivered(item, tag, old(frame[..]), frame[..])
  {
    hide PayloadRecord, Sized, Delivered, PayloadDelivered;
    ghost var before := frame[..];
    DeliveredShape(item, tag, records, 5, 13);
    if tag == TAG_DATA {
      FillPayload(records, frame);
    } else if |records| == 1 {
      CopyTo(frame, 30, records[0]);
      assert frame[..] == before[..30] + records[0] + before[43..];
    }
    PayloadResult(item, tag, records, before, frame[..]);
  }

  /** The records there are go to their places; what is not there leaves stale bytes: those of an
      uninitialised buffer for the second frame, the caller's own for the third. */
  method PackPart(records: seq<seq<bv8>>, data: array<bv8>)
    requires 1 <= |records| <= 3 && data.Length == 33 && forall k: nat | k < |records| :: |records[k]| == 9
    modifies data
    ensures forall j: nat | j < |records| :: BurstBits(data[..], j) == RecordBits(records[j])
  {
    hide BurstBits, RecordBits;
    var stale := new bv8[9];
    var second := if |records| > 1 then records[1] else stale[..];
    var third := if |records| > 2 then records[2] else data[24..];
    PackBurst([records[0], second, third], data);
  }

  lemma FiveVoices(prng: Word -> Word, rs: seq<Record>, d: seq<bv8>)
    requires |rs| == 5 && |d| == FRAME_LENGTH
    requires DmrVoice(prng, rs[0], YsfFrame(PayloadRecord(d, 0))) && DmrVoice(prng, rs[1], YsfFrame(PayloadRecord(d, 1)))
    requires DmrVoice(prng, rs[2], YsfFrame(PayloadRecord(d, 2))) && DmrVoice(prng, rs[3], YsfFrame(PayloadRecord(d, 3)))
    requires DmrVoice(prng, rs[4], YsfFrame(PayloadRecord(d, 4)))
    ensures forall j: nat | j < 5 :: DmrVoice(prng, rs[j], YsfFrame(PayloadRecord(d, j)))
  {
    hide DmrVoice, YsfFrame, PayloadRecord;
    forall j: nat | j < 5 ensures DmrVoice(prng, rs[j], YsfFrame(PayloadRecord(d, j))) {
      assert j == 0 || j == 1 || j == 2 || j == 3 || j == 4;
    }
  }

  /** What getDMR leaves in the caller's buffer. */
  ghost predicate BurstDelivered(item: Item, tag: bv8, before: seq<bv8>, data: seq<bv8>)
    requires Sized(Records(item), 9) && |before| == |data| == 33
  {
    match item
    case Nothing => tag == TAG_NODATA && data == before
    case Tagged(r) => tag == r.tag && tag != TAG_DATA && |r.data| == 9 && data == r.data + before[9..]
    case Voice(rs) =>
      && tag == TAG_DATA && 1 <= |rs| <= 3
      && (forall j: nat | j < |rs| :: |rs[j].data| == 9 && BurstBits(data, j) == RecordBits(rs[j].data))
  }

  /** What getYSF leaves in the caller's buffer. */
  ghost predicate PayloadDelivered(item: Item, tag: bv8, before: seq<bv8>, data: seq<bv8>)
    requires Sized(Records(item), 13) && |before| == |data| == FRAME_LENGTH
  {
    match item
    case Nothing => tag == TAG_NODATA && data == before
    case Tagged(r) => tag == r.tag && tag != TAG_DATA && data == before[..30] + r.data + before[43..]
    case Voice(rs) =>
      && tag == TAG_DATA && 1 <= |rs| <= 5
      && (forall j: nat | j < |rs| :: PayloadRecord(data, j) == rs[j].data)
  }

  /** Items of a sized queue are sized, tags are not voice, and voice items are not empty. */
  lemma ServedSized(q: seq<Record>, n: nat, g: nat, size: nat)
    requires Group(g) && Sized(q, size) && |q| <= n
    ensures var i := Served(q, n, g).item;
      && Sized(Records(i), size) && (i.Voice? ==> 1 <= |i.records| <= g) && (i.Tagged? ==> i.record.tag != TAG_DATA)
  {
  }

  lemma DeliveredShape(item: Item, tag: bv8, records: seq<seq<bv8>>, g: nat, size: nat)
    requires Group(g) && Delivered(item, tag, records) && Sized(Records(item), size)
    requires item.Voice? ==> 1 <= |item.records| <= g
    requires item.Tagged? ==> item.record.tag != TAG_DATA
    ensures if tag == TAG_DATA then item.Voice? && 1 <= |records| <= g else |records| <= 1
    ensures forall k: nat | k < |records| :: |records[k]| == size
  {
    assert forall k: nat | k < |records| :: records[k] == Records(item)[k].data;
  }

  lemma BurstResult(item: Item, tag: bv8, records: seq<seq<bv8>>, before: seq<bv8>, data: seq<bv8>)
    requires Delivered(item, tag, records) && Sized(Records(item), 9) && |before| == |data| == 33
    requires item.Voice? ==> 1 <= |item.records| <= 3
    requires item.Tagged? ==> item.record.tag != TAG_DATA
    requires tag != TAG_DATA && |records| == 0 ==> data == before
    requires tag != TAG_DATA && |records| == 1 ==> data == records[0] + before[9..]
    requires tag == TAG_DATA ==> 1 <= |records| <= 3
    requires tag == TAG_DATA ==> forall j: nat | j < |records| :: |records[j]| == 9 && BurstBits(data, j) == RecordBits(records[j])
    ensures BurstDelivered(item, tag, before, data)
  {
    hide BurstBits, RecordBits;
  }

  lemma PayloadResult(item: Item, tag: bv8, records: seq<seq<bv8>>, before: seq<bv8>, data: seq<bv8>)
    requires Delivered(item, tag, records) && Sized(Records(item), 13) && |before| == |data| == FRAME_LENGTH
    requires item.Voice? ==> 1 <= |item.records| <= 5
    requires item.Tagged? ==> item.record.tag != TAG_DATA
    requires tag != TAG_DATA && |records| == 0 ==> data == before
    requires tag != TAG_DATA && |records| == 1 ==> data == before[..30] + records[0] + before[43..]
    requires tag == TAG_DATA ==> 1 <= |records| <= 5
    requires tag == TAG_DATA ==> forall j: nat | j < |records| :: PayloadRecord(data, j) == records[j]
    ensures PayloadDelivered(item, tag, before, data)
  {
    hide PayloadRecord;
  }

  method FillPayload(records: seq<seq<bv8>>, frame: array<bv8>)
    requires |records| <= 5 && frame.Length == FRAME_LENGTH && forall j: nat | j < |records| :: |records[j]| == 13
    modifies frame
    ensures forall j: nat | j < |records| :: PayloadRecord(frame[..], j) == records[j]
  {
    for j := 0 to |records|
      invariant forall i: nat | i < j :: PayloadRecord(frame[..], i) == records[i]
    {
      ghost var before := frame[..];
      CopyTo(frame, 35 + 18 * j, records[j]);
      forall i: nat | i < j ensures PayloadRecord(frame[..], i) == PayloadRecord(before, i) {
      }
    }
  }
}
