/**
 Whole streams of voice through the transcoder, with everything the bridge writes over
 each frame on its way: sync, embedded LC and EMB over DMR bursts, sync, FICH and
 data channel over YSF payloads.
 */
module Transcode {
  import opened Bits
  import opened Golay
  import opened Payload
  import opened Voice
  import opened VoiceQueue
  import opened ModeConv
  import DmrSignalling
  import Fich

  /** The signalling bridge_el_send_dmrd writes over burst n of a superframe. */
  method OverlayBurst(d: array<bv8>, n: nat, raw: Word, emb: seq<bv8>)
    requires d.Length == 33 && |raw| == 128 && |emb| == 2
    modifies d
    ensures SameVoice(old(d[..]), d[..])
    ensures n == 0 ==> forall p: nat | 108 <= p < 156 :: Bit(d[..], p) == Bit(DmrSignalling.MS_SOURCED_AUDIO_SYNC, p - 104)
    ensures n > 0 ==> forall p: nat | 116 <= p < 148 :: Bit(d[..], p) == DmrSignalling.EmbeddedChunk(raw, n)[p - 116]
    ensures n > 0 ==> forall k: nat | k < 8 ::
      Bit(d[..], 108 + k) == ByteBit(emb[0], k) && Bit(d[..], 148 + k) == ByteBit(emb[1], k)
  {
    hide Bit, ByteBit, DmrSignalling.EmbeddedChunk;
    if n == 0 {
      DmrSignalling.OverlaySync(d);
    } else {
      var lcss := DmrSignalling.OverlayEmbedded(d, raw, n);
      DmrSignalling.OverlayEmb(d, emb);
    }
  }

  /** The frames that the records of a DMR queue carry are fs. */
  ghost predicate Carries(prng: Word -> Word, q: seq<Record>, fs: seq<Frame>) {
    |q| == |fs| && forall i: nat | i < |q| :: DmrVoice(prng, q[i], fs[i])
  }

  /** The AMBE frames of a stream of seven-byte packets. */
  function Frames(ambe: seq<seq<bv8>>): (fs: seq<Frame>)
    requires forall i: nat | i < |ambe| :: |ambe[i]| == 7
    ensures |fs| == |ambe| && forall i: nat | i < |fs| :: fs[i] == FromBytes(ambe[i])
  {
    seq(|ambe|, i requires 0 <= i < |ambe| => FromBytes(ambe[i]))
  }

  /** Packets of seven bytes. */
  predicate Packets(ambe: seq<seq<bv8>>) {
    forall i: nat | i < |ambe| :: |ambe[i]| == 7
  }

  /** The packets out carry the first frames of the stream ambe. */
  ghost predicate Matches(out: seq<seq<bv8>>, ambe: seq<seq<bv8>>)
    requires Packets(ambe)
  {
    |out| <= |ambe| && forall k: nat | k < |out| :: |out[k]| == 7 && FromBytes(out[k]) == FromBytes(ambe[k])
  }

  lemma MatchesMore(out: seq<seq<bv8>>, ambe: seq<seq<bv8>>, more: seq<seq<bv8>>)
    requires Packets(ambe) && Matches(out, ambe) && |out| + 3 <= |ambe| && |more| == 3
    requires forall j: nat | j < 3 :: |more[j]| == 7 && FromBytes(more[j]) == Frames(ambe)[|out|..][j]
    ensures Matches(out + more, ambe)
  {
    hide FromBytes;
    assert forall j: nat | j < 3 :: Frames(ambe)[|out|..][j] == FromBytes(ambe[|out| + j]);
  }

  lemma CarriesLength(prng: Word -> Word, q: seq<Record>, fs: seq<Frame>)
    requires Carries(prng, q, fs)
    ensures |q| == |fs| && (fs == [] ==> q == [])
  {
  }

  lemma CarriesSum(prng: Word -> Word, q: seq<Record>, fs: seq<Frame>, r: seq<Record>, gs: seq<Frame>)
    requires Carries(prng, q, fs) && Carries(prng, r, gs)
    ensures Carries(prng, q + r, fs + gs)
  {
    hide DmrVoice;
  }

  // ---------------------------------------------------------------- one burst

  /** A get while ring and counter agree. */
  method AskBurst(conv: Converter, data: array<bv8>) returns (tag: bv8)
    requires conv.Valid() && data.Length == 33 && data as object !in conv.Repr()
    modifies data, conv.dmr, conv.dmr.ring
    ensures conv.Valid() && conv.dmr.queue == old(conv.dmr.queue)[|Records(Next(old(conv.dmr.queue), 3))|..]
    ensures Sized(old(conv.dmr.queue), 9)
    ensures Sized(Records(Next(old(conv.dmr.queue), 3)), 9)
    ensures BurstDelivered(Next(old(conv.dmr.queue), 3), tag, old(data[..]), data[..])
  {
    hide BurstDelivered, Bytes, Sized, Prng, Next, Served;
    ghost var q := conv.dmr.queue;
    AgreeingGet(q, 3);
    ServedSized(q, |q|, 3, 9);
    tag := conv.GetDmr(data);
  }

  method AskPayload(conv: Converter, frame: array<bv8>) returns (tag: bv8)
    requires conv.Valid() && frame.Length == FRAME_LENGTH && frame as object !in conv.Repr()
    modifies frame, conv.ysf, conv.ysf.ring
    ensures conv.Valid() && conv.ysf.queue == old(conv.ysf.queue)[|Records(Next(old(conv.ysf.queue), 5))|..]
    ensures Sized(old(conv.ysf.queue), 13)
    ensures Sized(Records(Next(old(conv.ysf.queue), 5)), 13)
    ensures PayloadDelivered(Next(old(conv.ysf.queue), 5), tag, old(frame[..]), frame[..])
  {
    hide PayloadDelivered, Bytes, Sized, Prng, Next, Served;
    ghost var q := conv.ysf.queue;
    AgreeingGet(q, 5);
    ServedSized(q, |q|, 5, 13);
    tag := conv.GetYsf(frame);
  }

  /**
   Takes a burst if three frames are queued, writes its signalling over it and reads its frames
   back: they are the three oldest frames queued. With fewer nothing comes and nothing changes.
   */
  method TakeBurst(conv: Converter, n: nat, raw: Word, emb: seq<bv8>, ghost fs: seq<Frame>)
    returns (out: seq<seq<bv8>>)
    requires conv.Valid() && Carries(conv.prng, conv.dmr.queue, fs)
    requires |raw| == 128 && |emb| == 2
    modifies conv.dmr, conv.dmr.ring
    ensures conv.Valid()
    ensures |fs| < 3 ==> out == [] && Carries(conv.prng, conv.dmr.queue, fs)
    ensures |fs| >= 3 ==> Carries(conv.prng, conv.dmr.queue, fs[3..])
    ensures |fs| >= 3 ==> |out| == 3 && forall j: nat | j < 3 :: |out[j]| == 7 && FromBytes(out[j]) == fs[j]
  {
    hide Carries, SameVoice, Served, Records, BurstDelivered, BurstFrame, FromBytes, ToBytes, Bytes, Sized, Prng;
    var data := new bv8[33];
    ghost var q, before := conv.dmr.queue, data[..];
    var tag := AskBurst(conv, data);
    ghost var sent := data[..];
    BurstOrNothing(conv.prng, q, fs, tag, before, sent);
    if tag != TAG_DATA {
      return [];
    }
    out := Reread(conv, data, n, raw, emb);
    BurstTrip(conv.prng, q, fs, tag, before, sent, data[..], out);
  }

  /** The signalling is written over the burst and its frames are read. */
  method Reread(conv: Converter, data: array<bv8>, n: nat, raw: Word, emb: seq<bv8>) returns (out: seq<seq<bv8>>)
    requires conv.Valid() && data.Length == 33 && data as object !in conv.Repr() && |raw| == 128 && |emb| == 2
    modifies data
    ensures conv.Valid() && SameVoice(old(data[..]), data[..])
    ensures |out| == 3 && forall j: nat | j < 3 :: out[j] == ToBytes(BurstFrame(conv.prng, data[..], j))
  {
    hide SameVoice, BurstFrame, ToBytes, Bytes, Sized, Prng, Bit, ByteBit, DmrSignalling.EmbeddedChunk;
    OverlayBurst(data, n, raw, emb);
    out := conv.Dmr33ToAmbe(data);
  }

  lemma BurstOrNothing(prng: Word -> Word, q: seq<Record>, fs: seq<Frame>, tag: bv8, before: seq<bv8>, sent: seq<bv8>)
    requires Carries(prng, q, fs) && Sized(q, 9) && |before| == |sent| == 33
    requires BurstDelivered(Next(q, 3), tag, before, sent)
    ensures tag == TAG_DATA <==> |fs| >= 3
    ensures |fs| < 3 ==> q[|Records(Next(q, 3))|..] == q
  {
    assert |q| > 0 ==> DmrVoice(prng, q[0], fs[0]);
  }

  /** Packing three records, signalling over the burst and unpacking give the frames back. */
  lemma BurstTrip(prng: Word -> Word, q: seq<Record>, fs: seq<Frame>, tag: bv8,
                  before: seq<bv8>, sent: seq<bv8>, got: seq<bv8>, out: seq<seq<bv8>>)
    requires Prng(prng) && Carries(prng, q, fs) && |fs| >= 3 && Sized(q, 9)
    requires |before| == |sent| == |got| == 33
    requires BurstDelivered(Next(q, 3), tag, before, sent) && SameVoice(sent, got)
    requires |out| == 3 && forall j: nat | j < 3 :: out[j] == ToBytes(BurstFrame(prng, got, j))
    ensures forall j: nat | j < 3 :: |out[j]| == 7 && FromBytes(out[j]) == fs[j]
    ensures Carries(prng, q[|Records(Next(q, 3))|..], fs[3..])
  {
    hide BurstBits, RecordBits, Stripped, FromBytes, ToBytes, SameVoice;
    assert DmrVoice(prng, q[0], fs[0]);
    assert Next(q, 3) == Voice(q[..3]);
    forall j: nat | j < 3 ensures |out[j]| == 7 && FromBytes(out[j]) == fs[j] {
      VoiceUntouched(sent, got, j);
      assert q[..3][j] == q[j] && DmrVoice(prng, q[j], fs[j]);
      BytesRoundTrip(fs[j]);
    }
  }

  // ------------------------------------------------------------ through DMR

  /** One use of the DMR side: a frame is put, or a burst is asked for. */
  datatype Use = Put(ambe: seq<bv8>) | Take

  /** The frames put, in order. */
  function Fed(us: seq<Use>): (ambe: seq<seq<bv8>>) {
    if us == [] then []
    else Fed(us[..|us| - 1]) + match us[|us| - 1] case Put(a) => [a] case Take => []
  }

  /** How many of them still wait. */
  function Waiting(us: seq<Use>): nat {
    if us == [] then 0
    else
      var n := Waiting(us[..|us| - 1]);
      match us[|us| - 1] case Put(_) => n + 1 case Take => if n < 3 then n else n - 3
  }

  /** Frames are seven bytes long, and none is put at the limit of the queue. */
  predicate Fits(us: seq<Use>) {
    forall i: nat | i < |us| :: us[i].Put? ==> |us[i].ambe| == 7 && Waiting(us[..i]) < Limit(9)
  }

  lemma {:induction false} FedPackets(us: seq<Use>)
    requires Fits(us)
    ensures Packets(Fed(us))
  {
    hide Waiting;
    if us != [] {
      var n := |us| - 1;
      FitsPrefix(us, n);
      FedPackets(us[..n]);
      assert us[n].Put? ==> |us[n].ambe| == 7;
    }
  }

  lemma FitsPrefix(us: seq<Use>, n: nat)
    requires Fits(us) && n <= |us|
    ensures Fits(us[..n])
  {
    hide Waiting;
    forall i: nat | i < n ensures us[..n][i].Put? ==> |us[..n][i].ambe| == 7 && Waiting(us[..n][..i]) < Limit(9) {
      assert us[..n][..i] == us[..i] && us[..n][i] == us[i];
    }
  }

  /** All frames put are out, in order, but the last ones, which are queued. */
  ghost predicate Through(conv: Converter, us: seq<Use>, out: seq<seq<bv8>>)
    reads conv, conv.Repr()
  {
    var ambe := Fed(us);
    && conv.Valid() && Packets(ambe) && |out| % 3 == 0
    && |out| + Waiting(us) == |ambe| && Matches(out, ambe)
    && Carries(conv.prng, conv.dmr.queue, Frames(ambe)[|out|..])
  }

  lemma ThroughStarts(conv: Converter)
    requires conv.Valid() && conv.dmr.queue == []
    ensures Through(conv, [], [])
  {
    assert Frames([])[0..] == [];
  }

  /** What is written over the frames of a run, which may differ from one use to the next: the
      embedded LC, the EMB word, the data channel and the frame number. */
  datatype Signalling = Signalling(lc: nat -> Word, emb: nat -> seq<bv8>, dch: nat -> seq<bv8>, fn: nat -> bv8)

  ghost predicate Signals(g: Signalling) {
    forall k: nat :: |g.lc(k)| == 128 && |g.emb(k)| == 2 && |g.dch(k)| == 10
  }

  /** One more use of the DMR side. */
  method OneUse(conv: Converter, us: seq<Use>, k: nat, got: seq<seq<bv8>>, g: Signalling) returns (out: seq<seq<bv8>>)
    requires Signals(g)
    requires Fits(us) && k < |us| && Through(conv, us[..k], got)
    modifies conv.Repr()
    ensures Through(conv, us[..k + 1], out)
  {
    hide Carries, Matches, FromBytes, Frames, Bytes, Sized, Prng, Limit;
    assert us[..k + 1][..k] == us[..k] && us[..k + 1][k] == us[k];
    ghost var ambe := Fed(us[..k]);
    match us[k] {
      case Put(a) =>
        out := got;
        assert us[k].Put? && |us[k].ambe| == 7 && Waiting(us[..k]) < Limit(9);
        PutOne(conv, ambe, a, |got|);
        StillMatches(got, ambe, a);
        assert Fed(us[..k + 1]) == ambe + [a] && Waiting(us[..k + 1]) == Waiting(us[..k]) + 1;
      case Take =>
        ghost var fs := Frames(ambe)[|got|..];
        FramesLength(ambe, |got|);
        var three := TakeBurst(conv, |got| / 3 % 6, g.lc(k), g.emb(k), fs);
        if |fs| >= 3 {
          MatchesMore(got, ambe, three);
          assert fs[3..] == Frames(ambe)[|got| + 3..];
        }
        out := got + three;
        assert ambe + [] == ambe && Fed(us[..k + 1]) == ambe && got + [] == got;
    }
  }

  lemma FramesLength(ambe: seq<seq<bv8>>, n: nat)
    requires Packets(ambe) && n <= |ambe|
    ensures |Frames(ambe)| == |ambe| && |Frames(ambe)[n..]| == |ambe| - n
  {
  }

  lemma StillMatches(out: seq<seq<bv8>>, ambe: seq<seq<bv8>>, a: seq<bv8>)
    requires Packets(ambe) && |a| == 7 && Matches(out, ambe)
    ensures Packets(ambe + [a]) && Matches(out, ambe + [a])
  {
    hide FromBytes;
  }

  method PutOne(conv: Converter, ghost ambe: seq<seq<bv8>>, a: seq<bv8>, n: nat)
    requires conv.Valid() && Packets(ambe) && |a| == 7 && n <= |ambe| && |ambe| - n < Limit(9)
    requires Carries(conv.prng, conv.dmr.queue, Frames(ambe)[n..])
    modifies conv.dmr, conv.dmr.ring, conv.dmr.ring.buffer
    ensures conv.Valid() && Packets(ambe + [a])
    ensures Carries(conv.prng, conv.dmr.queue, Frames(ambe + [a])[n..])
  {
    hide Carries, FromBytes, DmrVoice, Bytes, Sized, Prng, Limit;
    ghost var q := conv.dmr.queue;
    CarriesLength(conv.prng, q, Frames(ambe)[n..]);
    ghost var r := conv.PutAmbe7(a);
    OneCarries(conv.prng, r, FromBytes(a));
    CarriesSum(conv.prng, q, Frames(ambe)[n..], [r], [FromBytes(a)]);
    assert Frames(ambe + [a])[n..] == Frames(ambe)[n..] + [FromBytes(a)];
  }

  lemma OneCarries(prng: Word -> Word, r: Record, f: Frame)
    requires DmrVoice(prng, r, f)
    ensures Carries(prng, [r], [f])
  {
    hide DmrVoice;
  }

  /**
   AMBE to DMR to AMBE, under any schedule of puts and gets that stays below the queue's limit, with
   every burst overlaid by signalling of its own: the frames come back in order and bit for bit, and those that are not back
   yet are queued.
   */
  method ThroughDmr(conv: Converter, us: seq<Use>, g: Signalling) returns (out: seq<seq<bv8>>)
    requires conv.Valid() && conv.dmr.queue == [] && Fits(us) && Signals(g)
    modifies conv.Repr()
    ensures Through(conv, us, out)
  {
    hide Through, Fits;
    out := [];
    ThroughStarts(conv);
    for k := 0 to |us|
      invariant Through(conv, us[..k], out)
    {
      out := OneUse(conv, us, k, out, g);
    }
    assert us[..|us|] == us;
  }

  // ------------------------------------------------------------ through YSF

  ghost predicate YsfCarries(q: seq<Record>, fs: seq<Frame>) {
    |q| == |fs| && forall i: nat | i < |q| :: YsfVoice(q[i], fs[i])
  }

  /** What bridge_el_send_ysfd writes over a voice payload: sync, data channel and FICH. */
  method OverlayPayload(codec: Fich.Codec, frame: array<bv8>, dch: seq<bv8>, fn: bv8, fi: bv8, ft: bv8, cm: bv8)
    requires codec.Ready() && frame.Length == FRAME_LENGTH && frame != codec.fich && |dch| == 10
    modifies codec.fich, frame
    ensures forall n: nat | n < FRAME_LENGTH && Inside(5, 13, n) :: frame[n] == old(frame[n])
  {
    hide Holds, Block, Fich.Carries, Fich.Sealed, Fich.Outbound;
    CopyTo(frame, 0, Fich.SYNC_WORD);
    WriteVDMode2Data(frame, dch);
    codec.EncodeOutbound(frame, 5, fn, fi, ft, cm);
  }

  /** What is relayed if five frames wait for YSF; with fewer nothing comes and nothing changes. */
  method RelayPayload(conv: Converter, codec: Fich.Codec, ghost fs: seq<Frame>, dch: seq<bv8>, fn: bv8)
    returns (ghost rs: seq<Record>)
    requires conv.Valid() && YsfCarries(conv.ysf.queue, fs)
    requires |fs| >= 5 ==> |conv.dmr.queue| + 5 <= Limit(9)
    requires codec.Ready() && codec.fich as object !in conv.Repr() && |dch| == 10
    modifies conv.Repr(), codec.fich
    ensures conv.Valid() && codec.Ready() && conv.dmr.queue == old(conv.dmr.queue) + rs
    ensures |fs| < 5 ==> rs == [] && YsfCarries(conv.ysf.queue, fs)
    ensures |fs| >= 5 ==> YsfCarries(conv.ysf.queue, fs[5..]) && Carries(conv.prng, rs, fs[..5])
  {
    hide Carries, YsfCarries, Served, Records, PayloadDelivered, PayloadRecord, YsfFrame, DmrVoice, Inside,
         Bytes, Sized, Prng, Limit, JoinedAll;
    var frame := new bv8[FRAME_LENGTH];
    ghost var q, d, before := conv.ysf.queue, conv.dmr.queue, frame[..];
    var tag := AskPayload(conv, frame);
    ghost var sent := frame[..];
    PayloadOrNothing(q, fs, tag, before, sent);
    if tag != TAG_DATA {
      rs := [];
      return;
    }
    OverlayPayload(codec, frame, dch, fn, 1, 6, 0);
    ghost var puts := conv.PutYsf(frame);
    JoinsIffFits(d, puts, 9);
    rs := puts;
    PayloadTrip(conv.prng, q, fs, tag, before, sent, frame[..], rs);
  }

  lemma PayloadOrNothing(q: seq<Record>, fs: seq<Frame>, tag: bv8, before: seq<bv8>, sent: seq<bv8>)
    requires YsfCarries(q, fs) && Sized(q, 13) && |before| == |sent| == FRAME_LENGTH
    requires PayloadDelivered(Next(q, 5), tag, before, sent)
    ensures tag == TAG_DATA <==> |fs| >= 5
    ensures |fs| < 5 ==> q[|Records(Next(q, 5))|..] == q
  {
    assert |q| > 0 ==> YsfVoice(q[0], fs[0]);
  }

  lemma PayloadTrip(prng: Word -> Word, q: seq<Record>, fs: seq<Frame>, tag: bv8,
                    before: seq<bv8>, sent: seq<bv8>, got: seq<bv8>, rs: seq<Record>)
    requires YsfCarries(q, fs) && |fs| >= 5 && Sized(q, 13)
    requires |before| == |sent| == |got| == FRAME_LENGTH
    requires PayloadDelivered(Next(q, 5), tag, before, sent)
    requires forall n: nat | n < FRAME_LENGTH && Inside(5, 13, n) :: got[n] == sent[n]
    requires |rs| == 5 && forall j: nat | j < 5 :: DmrVoice(prng, rs[j], YsfFrame(PayloadRecord(got, j)))
    ensures Carries(prng, rs, fs[..5]) && YsfCarries(q[|Records(Next(q, 5))|..], fs[5..])
  {
    hide PayloadRecord, YsfFrame, DmrVoice, Inside;
    assert YsfVoice(q[0], fs[0]);
    assert Next(q, 5) == Voice(q[..5]);
    forall j: nat | j < 5 ensures DmrVoice(prng, rs[j], fs[j]) {
      PayloadUntouched(sent, got, j);
      assert q[..5][j] == q[j] && YsfVoice(q[j], fs[j]);
    }
  }


  /** One use of both sides: a frame is put for YSF, a payload is relayed to the DMR side, or a burst
      is asked for. */
  datatype Move = Enter(ambe: seq<bv8>) | Relay | Leave

  function Entered(ms: seq<Move>): (ambe: seq<seq<bv8>>) {
    if ms == [] then []
    else Entered(ms[..|ms| - 1]) + match ms[|ms| - 1] case Enter(a) => [a] case _ => []
  }

  /** How many frames wait for YSF. */
  function ForYsf(ms: seq<Move>): nat {
    if ms == [] then 0
    else
      var n := ForYsf(ms[..|ms| - 1]);
      match ms[|ms| - 1] case Enter(_) => n + 1 case Relay => if n < 5 then n else n - 5 case Leave => n
  }

  /** How many have been relayed and wait for DMR. */
  function ForDmr(ms: seq<Move>): nat {
    if ms == [] then 0
    else
      var front := ms[..|ms| - 1];
      var n := ForDmr(front);
      match ms[|ms| - 1]
      case Enter(_) => n
      case Relay => if ForYsf(front) < 5 then n else n + 5
      case Leave => if n < 3 then n else n - 3
  }

  /** Frames are seven bytes long, and neither queue is pushed past its limit. */
  predicate Flows(ms: seq<Move>) {
    forall i: nat | i < |ms| ::
      && (ms[i].Enter? ==> |ms[i].ambe| == 7 && ForYsf(ms[..i]) < Limit(13))
      && (ms[i].Relay? && ForYsf(ms[..i]) >= 5 ==> ForDmr(ms[..i]) + 5 <= Limit(9))
  }

  /** Of the stream ambe, out carries the first frames, dq the next d and yq the last y. */
  ghost predicate Shared(prng: Word -> Word, dq: seq<Record>, yq: seq<Record>, ambe: seq<seq<bv8>>, d: nat, y: nat,
                         out: seq<seq<bv8>>)
  {
    && Packets(ambe) && |out| % 3 == 0 && |out| + d + y == |ambe| && Matches(out, ambe)
    && Carries(prng, dq, Frames(ambe)[|out|..|out| + d])
    && YsfCarries(yq, Frames(ambe)[|out| + d..])
  }

  /** All frames put are out, in order, but those queued for DMR and, behind them, for YSF. */
  ghost predicate Across(conv: Converter, codec: Fich.Codec, ms: seq<Move>, out: seq<seq<bv8>>)
    reads conv, conv.Repr(), codec, codec.dec
  {
    && conv.Valid() && codec.Ready()
    && Shared(conv.prng, conv.dmr.queue, conv.ysf.queue, Entered(ms), ForDmr(ms), ForYsf(ms), out)
  }

  lemma AcrossStarts(conv: Converter, codec: Fich.Codec)
    requires conv.Valid() && conv.dmr.queue == [] && conv.ysf.queue == [] && codec.Ready()
    ensures Across(conv, codec, [], [])
  {
    assert Frames([])[0..] == [];
  }

  /** The counts after one more move. */
  lemma OneMore(ms: seq<Move>, m: Move)
    ensures var ns := ms + [m];
      && Entered(ns) == (if m.Enter? then Entered(ms) + [m.ambe] else Entered(ms))
      && ForYsf(ns) == (match m case Enter(_) => ForYsf(ms) + 1
                        case Relay => if ForYsf(ms) < 5 then ForYsf(ms) else ForYsf(ms) - 5 case Leave => ForYsf(ms))
      && ForDmr(ns) == (match m case Enter(_) => ForDmr(ms)
                        case Relay => if ForYsf(ms) < 5 then ForDmr(ms) else ForDmr(ms) + 5
                        case Leave => if ForDmr(ms) < 3 then ForDmr(ms) else ForDmr(ms) - 3)
  {
    assert (ms + [m])[..|ms|] == ms;
    assert Entered(ms) + [] == Entered(ms);
  }

  lemma SharedLengths(prng: Word -> Word, dq: seq<Record>, yq: seq<Record>, ambe: seq<seq<bv8>>, d: nat, y: nat,
                      out: seq<seq<bv8>>)
    requires Shared(prng, dq, yq, ambe, d, y, out)
    ensures |dq| == |Frames(ambe)[|out|..|out| + d]| == d && |yq| == |Frames(ambe)[|out| + d..]| == y
  {
    hide DmrVoice, YsfVoice;
  }

  /** A frame that enters is the last of all. */
  lemma SharedEnter(prng: Word -> Word, dq: seq<Record>, yq: seq<Record>, ambe: seq<seq<bv8>>, d: nat, y: nat,
                    out: seq<seq<bv8>>, a: seq<bv8>, zq: seq<Record>)
    requires Shared(prng, dq, yq, ambe, d, y, out) && |a| == 7
    requires Packets(ambe + [a]) && YsfCarries(zq, Frames(ambe + [a])[|out| + d..])
    ensures Shared(prng, dq, zq, ambe + [a], d, y + 1, out)
  {
    hide Carries, YsfCarries, FromBytes;
    FramesFront(ambe, a, |out|, |out| + d);
    StillMatches(out, ambe, a);
  }

  /** Five frames that are relayed are the last of those for DMR. */
  lemma SharedRelay(prng: Word -> Word, dq: seq<Record>, yq: seq<Record>, ambe: seq<seq<bv8>>, d: nat, y: nat,
                    out: seq<seq<bv8>>, rs: seq<Record>, zq: seq<Record>)
    requires Shared(prng, dq, yq, ambe, d, y, out) && y >= 5
    requires var fs := Frames(ambe)[|out| + d..]; |fs| >= 5 && Carries(prng, rs, fs[..5]) && YsfCarries(zq, fs[5..])
    ensures Shared(prng, dq + rs, zq, ambe, d + 5, y - 5, out)
  {
    hide Carries, YsfCarries, FromBytes;
    var fs, n := Frames(ambe), |out| + d;
    CarriesSum(prng, dq, fs[|out|..n], rs, fs[n..][..5]);
    assert fs[|out|..n] + fs[n..][..5] == fs[|out|..n + 5];
    assert fs[n..][5..] == fs[n + 5..];
  }

  /** Three frames that leave are the first of those for DMR. */
  lemma SharedLeave(prng: Word -> Word, dq: seq<Record>, yq: seq<Record>, ambe: seq<seq<bv8>>, d: nat, y: nat,
                    out: seq<seq<bv8>>, cq: seq<Record>, three: seq<seq<bv8>>)
    requires Shared(prng, dq, yq, ambe, d, y, out) && d >= 3 && |three| == 3
    requires var fs := Frames(ambe)[|out|..|out| + d];
      |fs| >= 3 && Carries(prng, cq, fs[3..]) && forall j: nat | j < 3 :: |three[j]| == 7 && FromBytes(three[j]) == fs[j]
    ensures Shared(prng, cq, yq, ambe, d - 3, y, out + three)
  {
    hide Carries, YsfCarries, FromBytes;
    var fs, n := Frames(ambe), |out| + d;
    assert forall j: nat | j < 3 :: fs[|out|..n][j] == fs[|out|..][j];
    MatchesMore(out, ambe, three);
    assert fs[|out|..n][3..] == fs[|out| + 3..n];
  }

  method EnterOne(conv: Converter, ghost ambe: seq<seq<bv8>>, a: seq<bv8>, ghost b: nat)
    requires conv.Valid() && Packets(ambe) && |a| == 7 && b <= |ambe| && |ambe| - b < Limit(13)
    requires YsfCarries(conv.ysf.queue, Frames(ambe)[b..])
    modifies conv.ysf, conv.ysf.ring, conv.ysf.ring.buffer
    ensures conv.Valid() && Packets(ambe + [a])
    ensures YsfCarries(conv.ysf.queue, Frames(ambe + [a])[b..])
  {
    hide FromBytes, YsfVoice, Bytes, Sized, Prng, Limit;
    ghost var q, fs := conv.ysf.queue, Frames(ambe)[b..];
    ghost var r := conv.PutAmbe7Ysf(a);
    assert Frames(ambe + [a])[b..] == fs + [FromBytes(a)];
    assert forall i: nat | i < |q| :: YsfVoice(q[i], fs[i]);
  }

  /** More frames behind do not move the ones in front. */
  lemma FramesFront(ambe: seq<seq<bv8>>, a: seq<bv8>, i: nat, j: nat)
    requires Packets(ambe) && |a| == 7 && i <= j <= |ambe|
    ensures Packets(ambe + [a]) && Frames(ambe + [a])[i..j] == Frames(ambe)[i..j]
  {
    hide FromBytes;
  }

  lemma SharedFacts(prng: Word -> Word, dq: seq<Record>, yq: seq<Record>, ambe: seq<seq<bv8>>, d: nat, y: nat,
                    out: seq<seq<bv8>>)
    requires Shared(prng, dq, yq, ambe, d, y, out)
    ensures Packets(ambe) && |out| + d + y == |ambe|
    ensures Carries(prng, dq, Frames(ambe)[|out|..|out| + d]) && YsfCarries(yq, Frames(ambe)[|out| + d..])
  {
  }

  method MoveEnter(conv: Converter, codec: Fich.Codec, ghost ms: seq<Move>, a: seq<bv8>, ghost out: seq<seq<bv8>>)
    requires Across(conv, codec, ms, out) && |a| == 7 && ForYsf(ms) < Limit(13)
    requires codec.fich as object !in conv.Repr()
    modifies conv.ysf, conv.ysf.ring, conv.ysf.ring.buffer
    ensures Across(conv, codec, ms + [Enter(a)], out)
  {
    hide Shared, Carries, YsfCarries, FromBytes, Frames, Bytes, Sized, Prng, Limit, Entered, ForYsf, ForDmr;
    ghost var ambe, d, y, dq, yq := Entered(ms), ForDmr(ms), ForYsf(ms), conv.dmr.queue, conv.ysf.queue;
    SharedFacts(conv.prng, dq, yq, ambe, d, y, out);
    EnterOne(conv, ambe, a, |out| + d);
    SharedEnter(conv.prng, dq, yq, ambe, d, y, out, a, conv.ysf.queue);
    OneMore(ms, Enter(a));
  }

  method MoveRelay(conv: Converter, codec: Fich.Codec, ghost ms: seq<Move>, ghost out: seq<seq<bv8>>, dch: seq<bv8>, fn: bv8)
    requires Across(conv, codec, ms, out) && (ForYsf(ms) >= 5 ==> ForDmr(ms) + 5 <= Limit(9))
    requires codec.fich as object !in conv.Repr() && |dch| == 10
    modifies conv.Repr(), codec.fich
    ensures Across(conv, codec, ms + [Relay], out)
  {
    hide Shared, Carries, YsfCarries, FromBytes, Frames, Bytes, Sized, Prng, Limit, Entered, ForYsf, ForDmr;
    ghost var ambe, d, y, dq, yq := Entered(ms), ForDmr(ms), ForYsf(ms), conv.dmr.queue, conv.ysf.queue;
    SharedFacts(conv.prng, dq, yq, ambe, d, y, out);
    SharedLengths(conv.prng, dq, yq, ambe, d, y, out);
    ghost var rs := RelayPayload(conv, codec, Frames(ambe)[|out| + d..], dch, fn);
    OneMore(ms, Relay);
    if y >= 5 {
      SharedRelay(conv.prng, dq, yq, ambe, d, y, out, rs, conv.ysf.queue);
    } else {
      assert dq + [] == dq;
      SharedSame(conv.prng, dq, yq, ambe, d, y, out, dq, conv.ysf.queue);
    }
  }

  /** Queues that carry the same frames. */
  lemma SharedSame(prng: Word -> Word, dq: seq<Record>, yq: seq<Record>, ambe: seq<seq<bv8>>, d: nat, y: nat,
                   out: seq<seq<bv8>>, cq: seq<Record>, zq: seq<Record>)
    requires Shared(prng, dq, yq, ambe, d, y, out)
    requires Carries(prng, cq, Frames(ambe)[|out|..|out| + d]) && YsfCarries(zq, Frames(ambe)[|out| + d..])
    ensures Shared(prng, cq, zq, ambe, d, y, out)
  {
  }

  method MoveLeave(conv: Converter, codec: Fich.Codec, ghost ms: seq<Move>, got: seq<seq<bv8>>, raw: Word, emb: seq<bv8>)
    returns (out: seq<seq<bv8>>)
    requires Across(conv, codec, ms, got) && |raw| == 128 && |emb| == 2
    requires codec.fich as object !in conv.Repr()
    modifies conv.dmr, conv.dmr.ring
    ensures Across(conv, codec, ms + [Leave], out)
  {
    hide Shared, Carries, YsfCarries, FromBytes, Frames, Bytes, Sized, Prng, Limit, Entered, ForYsf, ForDmr;
    ghost var ambe, d, y, dq, yq := Entered(ms), ForDmr(ms), ForYsf(ms), conv.dmr.queue, conv.ysf.queue;
    SharedFacts(conv.prng, dq, yq, ambe, d, y, got);
    SharedLengths(conv.prng, dq, yq, ambe, d, y, got);
    var three := TakeBurst(conv, |got| / 3 % 6, raw, emb, Frames(ambe)[|got|..|got| + d]);
    OneMore(ms, Leave);
    out := got + three;
    if d >= 3 {
      SharedLeave(conv.prng, dq, yq, ambe, d, y, got, conv.dmr.queue, three);
    } else {
      assert got + [] == got;
      SharedSame(conv.prng, dq, yq, ambe, d, y, got, conv.dmr.queue, yq);
    }
  }

  /**
   AMBE to YSF to DMR to AMBE, under any schedule of puts, relays and gets that stays below the
   limits, with every payload and burst overlaid by signalling of its own: five-frame payloads are regrouped into three-frame
   bursts, the frames come back in order and bit for bit, and those not back yet are queued.
   */
  method ThroughYsf(conv: Converter, codec: Fich.Codec, ms: seq<Move>, g: Signalling) returns (out: seq<seq<bv8>>)
    requires conv.Valid() && conv.ysf.queue == [] && conv.dmr.queue == [] && Flows(ms)
    requires codec.Ready() && codec.fich as object !in conv.Repr() && Signals(g)
    modifies conv.Repr(), codec.fich
    ensures Across(conv, codec, ms, out)
  {
    hide Across, ForYsf, ForDmr, Limit;
    out := [];
    AcrossStarts(conv, codec);
    for k := 0 to |ms|
      invariant Across(conv, codec, ms[..k], out)
    {
      assert ms[..k + 1] == ms[..k] + [ms[k]];
      match ms[k] {
        case Enter(a) => MoveEnter(conv, codec, ms[..k], a, out);
        case Relay => MoveRelay(conv, codec, ms[..k], out, g.dch(k), g.fn(k));
        case Leave => out := MoveLeave(conv, codec, ms[..k], out, g.lc(k), g.emb(k));
      }
    }
    assert ms[..|ms|] == ms;
  }
}
