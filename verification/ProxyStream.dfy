/**
 The byte stream of an EchoLink proxy: messages of a nine-byte header and a payload, parsed
 from whatever pieces the socket yields, and the directory channel they carry.
 */
module ProxyStream {
  import opened Octets

  const HEADER: nat := 9
  const ACC_CAP: nat := 65536
  const DIR_CAP: nat := 1024 * 1024 + 16

  datatype Msg = Msg(kind: byte, remote: seq<byte>, data: seq<byte>) {
    /** What the framing can carry: an IPv4 address and a 32-bit length. */
    predicate Ok() {
      |remote| == 4 && |data| < 0x1_0000_0000
    }
  }

  // -------------------------------------------------------------------- framing

  /** A 32-bit number, least significant byte first. */
  function Little(n: nat): (b: seq<byte>)
    ensures |b| == 4
  {
    [(n % 256) as byte, (n / 256 % 256) as byte, (n / 65536 % 256) as byte, (n / 16777216 % 256) as byte]
  }

  function Number(b: seq<byte>): (n: nat)
    requires |b| == 4
  {
    b[0] as nat + 256 * b[1] as nat + 65536 * b[2] as nat + 16777216 * b[3] as nat
  }

  lemma LittleNumber(n: nat)
    requires n < 0x1_0000_0000
    ensures Number(Little(n)) == n
  {
    var a, b, c := n / 256, n / 65536, n / 16777216;
    assert b == a / 256 && c == b / 256;
    assert c % 256 == c;
    assert n == 256 * a + n % 256 && a == 256 * b + a % 256 && b == 256 * c + b % 256;
  }

  function Frame(m: Msg): (b: seq<byte>) {
    [m.kind] + m.remote + Little(|m.data|) + m.data
  }

  /** A frame byte by byte: kind, address, length with its low byte first, payload. */
  lemma {:induction false} FrameSpelled()
    ensures Frame(Msg(2, [10, 20, 30, 40], [7, 8])) == [2, 10, 20, 30, 40, 2, 0, 0, 0, 7, 8]
    ensures Little(0x0403_0201) == [1, 2, 3, 4]
  {
  }

  lemma {:induction false} NumberZero(b: seq<byte>)
    requires |b| == 4
    ensures Number(b) == 0 <==> b == [0, 0, 0, 0]
  {
  }

  datatype Parsed = Partial | TooLarge | Got(msg: Msg, rest: seq<byte>)

  /** The first message of acc, if all of it is there. */
  function Parse(acc: seq<byte>): (p: Parsed)
    ensures p.Partial? ==> |acc| < ACC_CAP
    ensures p.Got? ==> |p.rest| < |acc|
  {
    if |acc| < HEADER then Partial
    else
      var n := Number(acc[5..9]);
      if n > ACC_CAP - HEADER then TooLarge
      else if |acc| < HEADER + n then Partial
      else Got(Msg(acc[0], acc[1..5], acc[HEADER..HEADER + n]), acc[HEADER + n..])
  }

  /** A framed message is read back as it was sent exactly when its payload fits the buffer. */
  lemma FrameParses(m: Msg, more: seq<byte>)
    requires m.Ok()
    ensures Parse(Frame(m) + more) == if |m.data| <= ACC_CAP - HEADER then Got(m, more) else TooLarge
  {
    var b := Frame(m) + more;
    assert b[5..9] == Little(|m.data|);
    LittleNumber(|m.data|);
    if |m.data| <= ACC_CAP - HEADER {
      assert b[1..5] == m.remote;
      assert b[HEADER..HEADER + |m.data|] == m.data;
      assert b[HEADER + |m.data|..] == more;
    }
  }

  /** What has been parsed does not depend on what follows. */
  lemma ParsePrefix(acc: seq<byte>, more: seq<byte>)
    ensures Parse(acc).TooLarge? ==> Parse(acc + more).TooLarge?
    ensures Parse(acc).Got? ==> Parse(acc + more) == Got(Parse(acc).msg, Parse(acc).rest + more)
  {
    var b := acc + more;
    if |acc| >= HEADER {
      assert b[5..9] == acc[5..9] && b[1..5] == acc[1..5];
      var n := Number(acc[5..9]);
      if HEADER + n <= |acc| {
        assert b[HEADER..HEADER + n] == acc[HEADER..HEADER + n];
        assert b[HEADER + n..] == acc[HEADER + n..] + more;
      }
    }
  }

  // ------------------------------------------------------------------- messages

  datatype Tcp = Disconnected | Connecting | Connected | Disconnecting

  /** What the messages act on: unread is the directory data not yet read, handled is every
      message acted on. */
  datatype Chan = Chan(ready: bool, tcp: Tcp, unread: seq<byte>, handled: seq<Msg>)

  function MarkDisconnected(c: Chan): Chan {
    c.(ready := false, tcp := Disconnected, unread := [])
  }

  function Append(c: Chan, data: seq<byte>): Chan {
    if |c.unread| + |data| > DIR_CAP then MarkDisconnected(c)
    else c.(unread := c.unread + data)
  }

  /** One message. A status word opens the channel that was waiting for it, or refuses it. */
  function Act(c: Chan, m: Msg): Chan {
    if m.kind == 2 then Append(c, m.data)
    else if m.kind == 3 then c.(tcp := Disconnected)
    else if m.kind == 4 then
      if |m.data| == 4 && c.tcp == Connecting then
        if m.data == [0, 0, 0, 0] then c.(tcp := Connected, unread := []) else c.(tcp := Disconnected)
      else c
    else if m.kind == 5 || m.kind == 6 || m.kind == 1 then c
    else if m.kind == 7 then if |m.data| == 1 then MarkDisconnected(c) else c
    else MarkDisconnected(c)
  }

  function Handle(c: Chan, m: Msg): Chan {
    Act(c, m).(handled := c.handled + [m])
  }

  /** The parse loop: the channel and the bytes left over. */
  datatype Link = Link(chan: Chan, acc: seq<byte>)

  function Parsing(c: Chan, acc: seq<byte>): (r: Link)
    ensures c.ready ==> |r.acc| < ACC_CAP
    ensures c.ready && !r.chan.ready ==> r.acc == []
    ensures r.chan.ready ==> Parse(r.acc).Partial?
    decreases |acc|
  {
    if !c.ready then Link(c, [])
    else match Parse(acc)
      case Partial => Link(c, acc)
      case TooLarge => Link(MarkDisconnected(c), [])
      case Got(m, rest) => Parsing(Handle(c, m), rest)
  }

  /** One read: the bytes join those left over. A closed link takes none. */
  function Feed(l: Link, piece: seq<byte>): Link {
    if !l.chan.ready then l else Parsing(l.chan, l.acc + piece)
  }

  function FeedAll(l: Link, pieces: seq<seq<byte>>): Link {
    if pieces == [] then l else Feed(FeedAll(l, pieces[..|pieces| - 1]), pieces[|pieces| - 1])
  }

  function Concat(pieces: seq<seq<byte>>): seq<byte> {
    if pieces == [] then [] else Concat(pieces[..|pieces| - 1]) + pieces[|pieces| - 1]
  }

  // ------------------------------------------------------- how the stream is split

  /** Parsing in two pieces is parsing the whole. */
  lemma {:induction false} ParsingSplits(c: Chan, a: seq<byte>, b: seq<byte>)
    requires c.ready
    ensures var l := Parsing(c, a); Parsing(c, a + b) == if l.chan.ready then Parsing(l.chan, l.acc + b) else l
    decreases |a|
  {
    ParsePrefix(a, b);
    if Parse(a).Got? {
      var m, rest := Parse(a).msg, Parse(a).rest;
      if Handle(c, m).ready {
        ParsingSplits(Handle(c, m), rest, b);
      }
    }
  }

  /** Between reads a link that is up holds a message that is not complete. */
  ghost predicate Settled(l: Link) {
    if l.chan.ready then Parse(l.acc).Partial? else l.acc == []
  }

  /** However the stream is split into reads, the result is that of the whole stream. */
  lemma {:induction false} SplitIndependent(l: Link, pieces: seq<seq<byte>>)
    requires Settled(l)
    ensures FeedAll(l, pieces) == Feed(l, Concat(pieces))
    ensures Settled(FeedAll(l, pieces))
  {
    if pieces == [] {
      assert l.acc + [] == l.acc;
    } else {
      var front, last := pieces[..|pieces| - 1], pieces[|pieces| - 1];
      SplitIndependent(l, front);
      if l.chan.ready {
        ParsingSplits(l.chan, l.acc + Concat(front), last);
        assert l.acc + Concat(pieces) == l.acc + Concat(front) + last;
      }
    }
  }

  // ------------------------------------------------------- which messages are handled

  function Frames(ms: seq<Msg>): seq<byte> {
    if ms == [] then [] else Frame(ms[0]) + Frames(ms[1..])
  }

  /** The messages up to the first that ends the link, and the channel after them. */
  function HandleAll(c: Chan, ms: seq<Msg>): Chan
    decreases |ms|
  {
    if ms == [] || !c.ready then c else HandleAll(Handle(c, ms[0]), ms[1..])
  }

  /** A stream of framed messages is handled message by message, in order, up to the first
      that ends the link. */
  lemma {:induction false} FramesHandled(c: Chan, ms: seq<Msg>)
    requires c.ready && forall i | 0 <= i < |ms| :: ms[i].Ok() && |ms[i].data| <= ACC_CAP - HEADER
    ensures Parsing(c, Frames(ms)) == Link(HandleAll(c, ms), [])
    decreases |ms|
  {
    if ms != [] {
      FrameParses(ms[0], Frames(ms[1..]));
      if Handle(c, ms[0]).ready {
        FramesHandled(Handle(c, ms[0]), ms[1..]);
      }
    }
  }

  /** What is handled is a prefix of the messages, all of them if the link stays up. */
  lemma {:induction false} HandledPrefix(c: Chan, ms: seq<Msg>)
    ensures exists k: nat ::
      (k <= |ms| && HandleAll(c, ms).handled == c.handled + ms[..k] && (HandleAll(c, ms).ready ==> k == |ms|))
    decreases |ms|
  {
    if ms == [] || !c.ready {
      assert HandleAll(c, ms).handled == c.handled + ms[..0];
    } else {
      HandledPrefix(Handle(c, ms[0]), ms[1..]);
      var d := HandleAll(c, ms);
      var k: nat :| k <= |ms[1..]| && d.handled == c.handled + [ms[0]] + ms[1..][..k] && (d.ready ==> k == |ms[1..]|);
      assert ms[..k + 1] == [ms[0]] + ms[1..][..k];
      assert d.handled == c.handled + ms[..k + 1];
    }
  }

  /** Sent frames, received in whatever pieces, are handled as sent. */
  lemma SentIsHandled(l: Link, ms: seq<Msg>, pieces: seq<seq<byte>>)
    requires l.chan.ready && l.acc == [] && Concat(pieces) == Frames(ms)
    requires forall i | 0 <= i < |ms| :: ms[i].Ok() && |ms[i].data| <= ACC_CAP - HEADER
    ensures FeedAll(l, pieces) == Link(HandleAll(l.chan, ms), [])
  {
    assert Parse(l.acc).Partial?;
    SplitIndependent(l, pieces);
    assert l.acc + Concat(pieces) == Frames(ms);
    FramesHandled(l.chan, ms);
  }

  // ------------------------------------------------------------ the directory channel

  /** How many bytes a read of at most n takes. */
  function Take(c: Chan, n: nat): (k: nat)
    ensures k <= n && k <= |c.unread| && (k > 0 <==> n > 0 && c.unread != [])
  {
    if |c.unread| < n then |c.unread| else n
  }

  function Taking(c: Chan, n: nat): Chan {
    c.(unread := c.unread[Take(c, n)..])
  }

  /** The use of the channel: messages that arrive and reads. */
  datatype Use = Arrives(msg: Msg) | Reads(n: nat)

  function Used(c: Chan, u: Use): Chan {
    match u case Arrives(m) => Handle(c, m) case Reads(n) => Taking(c, n)
  }

  /** What the directory sends in one use, and what a read returns. */
  function Payload(u: Use): seq<byte> {
    if u.Arrives? && u.msg.kind == 2 then u.msg.data else []
  }

  function Result(c: Chan, u: Use): seq<byte> {
    if u.Reads? then c.unread[..Take(c, u.n)] else []
  }

  function After(c: Chan, us: seq<Use>): Chan
    decreases |us|
  {
    if us == [] then c else After(Used(c, us[0]), us[1..])
  }

  function Returned(c: Chan, us: seq<Use>): seq<byte>
    decreases |us|
  {
    if us == [] then [] else Result(c, us[0]) + Returned(Used(c, us[0]), us[1..])
  }

  function Payloads(us: seq<Use>): seq<byte>
    decreases |us|
  {
    if us == [] then [] else Payload(us[0]) + Payloads(us[1..])
  }

  /** The messages that empty the channel: its opening, and those that end the link. */
  predicate Resets(c: Chan, m: Msg) {
    || (m.kind == 2 && |c.unread| + |m.data| > DIR_CAP)
    || (m.kind == 4 && c.tcp == Connecting && m.data == [0, 0, 0, 0])
    || (m.kind == 7 && |m.data| == 1)
    || !(1 <= m.kind <= 7)
  }

  predicate NoReset(c: Chan, us: seq<Use>)
    decreases |us|
  {
    us != [] ==>
      && (us[0].Arrives? ==> !Resets(c, us[0].msg))
      && NoReset(Used(c, us[0]), us[1..])
  }

  /** A message ends the link exactly when it resets the channel without opening it. */
  lemma EndsIff(c: Chan, m: Msg)
    requires c.ready
    ensures !Handle(c, m).ready <==> Resets(c, m) && m.kind != 4
  {
  }

  lemma UseConserves(c: Chan, u: Use)
    requires u.Arrives? ==> !Resets(c, u.msg)
    ensures c.unread + Payload(u) == Result(c, u) + Used(c, u).unread
  {
  }

  lemma Chained<T>(a: seq<T>, p: seq<T>, r: seq<T>, b: seq<T>, ps: seq<T>, rs: seq<T>, z: seq<T>)
    requires a + p == r + b && b + ps == rs + z
    ensures a + (p + ps) == (r + rs) + z
  {
    calc {
      a + (p + ps);
      (a + p) + ps;
      r + (b + ps);
      (r + rs) + z;
    }
  }

  /** Between resets reads return what the directory sent, in order, none lost and none twice,
      also after the channel was closed; what is not yet returned is waiting. */
  lemma {:induction false} ChannelConserves(c: Chan, us: seq<Use>)
    requires NoReset(c, us)
    ensures c.unread + Payloads(us) == Returned(c, us) + After(c, us).unread
    decreases |us|
  {
    hide Used, Payload, Result;
    if us != [] {
      var d, rest := Used(c, us[0]), us[1..];
      ChannelConserves(d, rest);
      UseConserves(c, us[0]);
      Chained(c.unread, Payload(us[0]), Result(c, us[0]), d.unread, Payloads(rest), Returned(d, rest), After(c, us).unread);
    } else {
      assert c.unread + [] == [] + c.unread;
    }
  }

  // ------------------------------------------------------- the state of the channel

  /** A status word, which answers a request to open. */
  predicate Status(u: Use) {
    u.Arrives? && u.msg.kind == 4 && |u.msg.data| == 4
  }

  /** A message that takes the channel down: the other end closes it, or the link ends. */
  predicate Drops(c: Chan, u: Use) {
    u.Arrives? && (u.msg.kind == 3 || (u.msg.kind != 4 && Resets(c, u.msg)))
  }

  predicate NoDrop(c: Chan, us: seq<Use>)
    decreases |us|
  {
    us != [] ==> !Drops(c, us[0]) && NoDrop(Used(c, us[0]), us[1..])
  }

  /** The first status word of the run, and what it says. */
  predicate FirstStatus(us: seq<Use>, k: nat) {
    k < |us| && Status(us[k]) && forall i: nat | i < k :: !Status(us[i])
  }

  predicate FirstStatusOk(us: seq<Use>) {
    exists k: nat | k < |us| :: FirstStatus(us, k) && Number(us[k].msg.data) == 0
  }

  lemma {:induction false} FirstStatusNext(us: seq<Use>)
    requires us != []
    ensures Status(us[0]) ==> (FirstStatusOk(us) <==> Number(us[0].msg.data) == 0)
    ensures !Status(us[0]) ==> (FirstStatusOk(us) <==> FirstStatusOk(us[1..]))
  {
    var rest := us[1..];
    assert forall i: nat | 0 < i < |us| :: us[i] == rest[i - 1];
    if Status(us[0]) {
      assert FirstStatus(us, 0);
    } else {
      if FirstStatusOk(us) {
        var k: nat :| k < |us| && FirstStatus(us, k) && Number(us[k].msg.data) == 0;
        assert FirstStatus(rest, k - 1) && rest[k - 1] == us[k];
      }
      if FirstStatusOk(rest) {
        var k: nat :| k < |rest| && FirstStatus(rest, k) && Number(rest[k].msg.data) == 0;
        assert us[k + 1] == rest[k];
        assert FirstStatus(us, k + 1);
      }
    }
  }

  lemma {:induction false} StaysDown(c: Chan, us: seq<Use>)
    requires c.tcp == Disconnected
    ensures After(c, us).tcp == Disconnected
    decreases |us|
  {
    if us != [] {
      StaysDown(Used(c, us[0]), us[1..]);
    }
  }

  /** An open channel stays open exactly until it is dropped. */
  lemma {:induction false} StaysOpen(c: Chan, us: seq<Use>)
    requires c.tcp == Connected
    ensures After(c, us).tcp == if NoDrop(c, us) then Connected else Disconnected
    decreases |us|
  {
    if us != [] {
      var d := Used(c, us[0]);
      if Drops(c, us[0]) {
        StaysDown(d, us[1..]);
      } else {
        StaysOpen(d, us[1..]);
      }
    }
  }

  /**
   A channel that is being opened is open after a run exactly when the first status word says so and
   nothing took it down before or since. It is still waiting exactly when neither came.
   */
  lemma {:induction false} OpensIff(c: Chan, us: seq<Use>)
    requires c.tcp == Connecting
    ensures After(c, us).tcp == Connected <==> FirstStatusOk(us) && NoDrop(c, us)
    ensures After(c, us).tcp == Connecting <==> NoDrop(c, us) && forall i: nat | i < |us| :: !Status(us[i])
    ensures After(c, us).tcp != Disconnecting
    decreases |us|
  {
    if us != [] {
      var d, rest := Used(c, us[0]), us[1..];
      FirstStatusNext(us);
      assert (forall i: nat | i < |us| :: !Status(us[i])) <==> !Status(us[0]) && forall i: nat | i < |rest| :: !Status(rest[i]) by {
        assert forall i: nat | 0 < i < |us| :: us[i] == rest[i - 1];
      }
      if Drops(c, us[0]) {
        StaysDown(d, rest);
      } else if Status(us[0]) {
        NumberZero(us[0].msg.data);
        if Number(us[0].msg.data) == 0 {
          StaysOpen(d, rest);
        } else {
          StaysDown(d, rest);
        }
      } else {
        OpensIff(d, rest);
      }
    }
  }
}
