/**
 What the EchoLink-DMR bridge may put on the DMR wire: whole streams, one after the
 other, each a voice header, bursts numbered 0 to 5 in a circle and a terminator, under
 one stream id and with consecutive sequence numbers from 0 modulo 256.
 */
module WireGrammar {
  /** One 7-byte AMBE frame of the vocoder. */
  datatype VoiceFrame = VoiceFrame(bytes: seq<bv8>)

  /** Three AMBE frames, or the fixed silence burst. */
  datatype Sound = Speech(frames: seq<VoiceFrame>) | Silence

  datatype Body = Head | Burst(n: nat, sound: Sound) | Term

  /** inCall tells whether the EchoLink call owned the slot when the packet was sent. */
  datatype Packet = Packet(id: nat, seqNo: nat, tg: int, src: int, inCall: bool, body: Body)

  datatype Kind = Connect | Call

  /** Closed by a terminator, cut by the loss of the link, or terminated at once because
      DMR traffic took the slot. */
  datatype End = Open | Closed | Cut | Preempted

  /** Sequence numbers are one byte. */
  function Byte(k: nat): (r: nat)
    ensures k < 256 ==> r == k
  {
    k % 256
  }

  /** The place of a burst in its superframe. */
  function Six(k: nat): (r: nat)
    ensures r < 6 && (k < 6 ==> r == k)
  {
    k % 6
  }

  /** A stream: speech bursts, then silence. */
  datatype Stream = Stream(id: nat, tg: int, src: int, kind: Kind, speech: seq<seq<VoiceFrame>>, pads: nat, end: End) {
    function Bursts(): nat { |speech| + pads }

    function SoundAt(k: nat): Sound {
      if k < |speech| then Speech(speech[k]) else Silence
    }

    /** The packet with sequence number k: the header, a burst or the terminator. */
    function PacketAt(k: nat, body: Body): Packet {
      Packet(id, Byte(k), tg, src, kind.Call?, body)
    }

    function BurstAt(k: nat): Packet {
      PacketAt(k + 1, Burst(Six(k), SoundAt(k)))
    }

    predicate Terminated() {
      end.Closed? || end.Preempted?
    }

    function Packets(): (r: seq<Packet>)
      ensures |r| == Bursts() + if Terminated() then 2 else 1
      ensures r[0] == PacketAt(0, Head)
      ensures forall k | 0 < k <= Bursts() :: r[k] == BurstAt(k - 1)
      ensures Terminated() ==> r[Bursts() + 1] == PacketAt(Bursts() + 1, Term)
    {
      [PacketAt(0, Head)] + seq(Bursts(), k requires k >= 0 => BurstAt(k))
      + if Terminated() then [PacketAt(Bursts() + 1, Term)] else []
    }
  }

  /** Silence bursts that complete a superframe begun with n bursts. */
  function Fill(n: nat): (k: nat)
    ensures k <= 5
  {
    Six(6 - Six(n))
  }

  /** Silence is still missing exactly when the superframe is not complete. */
  lemma FillLeft(n: nat, k: nat)
    requires k <= Fill(n)
    ensures k == Fill(n) <==> Six(n + k) == 0
  {
    var q, r := n / 6, n % 6;
    assert n + k == 6 * q + (r + k);
    if r + k == 6 {
      assert n + k == 6 * (q + 1);
    }
  }

  /**
   What a stream that has ended looks like. A connect stream is all silence, and closes on
   a superframe or is cut. A call starts with speech; it closes on a superframe with no
   more silence than completes it, or is pre-empted before that.
   */
  predicate Complete(s: Stream) {
    match s.kind
    case Connect => s.speech == [] && (s.end.Cut? || (s.end.Closed? && Six(s.pads) == 0))
    case Call =>
      && |s.speech| > 0
      && ((s.end.Closed? && s.pads == Fill(|s.speech|)) || (s.end.Preempted? && s.pads <= Fill(|s.speech|)))
  }

  ghost function Flat(log: seq<Stream>): seq<Packet> {
    if log == [] then [] else Flat(log[..|log| - 1]) + log[|log| - 1].Packets()
  }

  /** Every packet sent, and the streams they form. */
  datatype Line = Line(wire: seq<Packet>, log: seq<Stream>) {
    function Sent(p: Packet, log: seq<Stream>): Line {
      Line(wire + [p], log)
    }

    function Swap(s: Stream): seq<Stream> {
      if log == [] then [] else log[|log| - 1 := s]
    }
  }

  /** Everything sent so far is complete streams. */
  ghost predicate Quiet(l: Line) {
    l.wire == Flat(l.log) && forall i | 0 <= i < |l.log| :: Complete(l.log[i])
  }

  /** Everything sent so far is complete streams and the open stream cur. */
  ghost predicate Sending(l: Line, cur: Stream) {
    && l.log != [] && cur == l.log[|l.log| - 1] && cur.end.Open?
    && (cur.kind.Connect? ==> cur.speech == [])
    && l.wire == Flat(l.log)
    && forall i | 0 <= i < |l.log| - 1 :: Complete(l.log[i])
  }

  lemma FlatLast(front: seq<Stream>, s: Stream)
    ensures Flat(front + [s]) == Flat(front) + s.Packets()
  {
    assert (front + [s])[..|front|] == front;
  }

  lemma Swapped(l: Line, s: Stream, t: Stream)
    requires Sending(l, s)
    ensures l.wire == Flat(l.log[..|l.log| - 1]) + s.Packets()
    ensures Flat(l.Swap(t)) == Flat(l.log[..|l.log| - 1]) + t.Packets()
  {
    var front := l.log[..|l.log| - 1];
    assert l.log == front + [s] && l.Swap(t) == front + [t];
    FlatLast(front, s);
    FlatLast(front, t);
  }

  lemma Begins(l: Line, s: Stream)
    requires Quiet(l) && s.speech == [] && s.pads == 0 && s.end.Open?
    ensures Sending(l.Sent(s.PacketAt(0, Head), l.log + [s]), s)
  {
    FlatLast(l.log, s);
    assert s.Packets() == [s.PacketAt(0, Head)];
  }

  /** One more burst: speech while there is no silence yet, or silence. */
  lemma Continues(l: Line, s: Stream, t: Stream)
    requires Sending(l, s)
    requires t == s.(pads := s.pads + 1)
      || (s.kind.Call? && s.pads == 0 && t == s.(speech := t.speech) && |t.speech| > 0 && s.speech == t.speech[..|t.speech| - 1])
    ensures Sending(l.Sent(t.BurstAt(s.Bursts()), l.Swap(t)), t)
  {
    hide Stream.Packets, Complete;
    Swapped(l, s, t);
    assert t.Packets() == s.Packets() + [t.BurstAt(s.Bursts())];
  }

  lemma Terminates(l: Line, s: Stream, end: End)
    requires Sending(l, s) && (end.Closed? || end.Preempted?) && Complete(s.(end := end))
    ensures Quiet(l.Sent(s.PacketAt(s.Bursts() + 1, Term), l.Swap(s.(end := end))))
  {
    hide Stream.Packets, Complete;
    var t := s.(end := end);
    Swapped(l, s, t);
    assert t.Packets() == s.Packets() + [s.PacketAt(s.Bursts() + 1, Term)];
  }

  lemma Breaks(l: Line, s: Stream)
    requires Sending(l, s) && s.kind.Connect?
    ensures Quiet(l.(log := l.Swap(s.(end := Cut))))
  {
    hide Stream.Packets;
    var t := s.(end := Cut);
    Swapped(l, s, t);
    assert t.Packets() == s.Packets();
  }

  // --------------------------------------------- what the grammar says of a packet

  /** Speech is sent only while the EchoLink call owns the slot. */
  lemma {:induction false} SpeechOnlyInCall(log: seq<Stream>, i: nat)
    requires i < |Flat(log)| && Flat(log)[i].body.Burst? && Flat(log)[i].body.sound.Speech?
    requires forall j | 0 <= j < |log| && log[j].kind.Connect? :: log[j].speech == []
    ensures Flat(log)[i].inCall
  {
    var front := log[..|log| - 1];
    if i < |Flat(front)| {
      SpeechOnlyInCall(front, i);
    } else {
      var s := log[|log| - 1];
      var k := i - |Flat(front)|;
      assert Flat(log)[i] == s.Packets()[k];
      assert 0 < k <= s.Bursts() && s.Packets()[k] == s.BurstAt(k - 1);
    }
  }

  lemma WrapsByte(k: nat)
    ensures Byte(k + 1) == Byte(Byte(k) + 1)
  {
    var q, r := k / 256, k % 256;
    assert k + 1 == 256 * q + (r + 1);
    assert r == 255 ==> k + 1 == 256 * (q + 1);
  }

  lemma WrapsSix(k: nat)
    ensures Six(k + 1) == Six(Six(k) + 1)
  {
  }

  /** Two packets of one stream that follow each other have consecutive sequence numbers. */
  lemma Consecutive(s: Stream, i: nat)
    requires i + 1 < |s.Packets()|
    ensures s.Packets()[i + 1].seqNo == Byte(s.Packets()[i].seqNo + 1)
    ensures s.Packets()[i + 1].id == s.Packets()[i].id == s.id
    ensures s.Packets()[i].body.Burst? && s.Packets()[i + 1].body.Burst? ==>
      s.Packets()[i + 1].body.n == Six(s.Packets()[i].body.n + 1)
    ensures s.Packets()[0].body.Head? && s.Packets()[0].seqNo == 0
    ensures i == 0 && s.Packets()[1].body.Burst? ==> s.Packets()[1].body.n == 0
    ensures !s.Packets()[i].body.Term? && !s.Packets()[i + 1].body.Head?
  {
    hide Stream.Packets;
    var p := s.Packets();
    WrapsByte(i);
    if 0 < i {
      WrapsSix(i - 1);
      assert p[i] == s.BurstAt(i - 1);
    }
    assert i + 1 <= s.Bursts() ==> p[i + 1] == s.BurstAt(i);
  }

  // -------------------------------------------------------- byte 15 of a packet

  /** The slot bit, then frame type and data type or burst number. */
  function Byte15(body: Body): (b: bv8)
    requires body.Burst? ==> body.n < 6
  {
    match body
    case Head => 0x80 | 0x20 | 0x01
    case Term => 0x80 | 0x20 | 0x02
    case Burst(n, _) => if n == 0 then 0x80 | 0x10 else 0x80 | n as bv8
  }

  predicate HeaderByte(b: bv8) {
    b & 0x40 == 0 && (b >> 4) & 3 == 2 && b & 15 == 1
  }

  predicate TermByte(b: bv8) {
    (b >> 4) & 3 == 2 && b & 15 == 2
  }

  /** What the bridge sends is recognised for what it is by the tests it receives with; the bytes are those
      of the Homebrew protocol on slot two. */
  lemma SentIsRecognised(body: Body)
    requires body.Burst? ==> body.n < 6
    ensures Byte15(Head) == 0xA1 && Byte15(Term) == 0xA2 && Byte15(Burst(0, Silence)) == 0x90 && Byte15(Burst(5, Silence)) == 0x85
    ensures HeaderByte(Byte15(body)) <==> body.Head?
    ensures TermByte(Byte15(body)) <==> body.Term?
    ensures body.Burst? ==> (Byte15(body) & 15) as nat == body.n && ((Byte15(body) >> 4) & 3 == 1 <==> body.n == 0)
  {
    if body.Burst? {
      var n := body.n;
      assert n == 0 || n == 1 || n == 2 || n == 3 || n == 4 || n == 5;
    }
  }
}
