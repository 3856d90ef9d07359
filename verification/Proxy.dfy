/**
 The receiving side of the EchoLink proxy client: fixed buffers that are filled by reads,
 emptied message by message and moved to the front in place.
 */
module Proxy {
  import opened Octets
  import opened ProxyStream

  class Client {
    var ready: bool
    var tcp: Tcp
    const rxAcc: array<byte>
    var rxLen: nat
    const dirRx: array<byte>
    var dirLen: nat
    var dirR: nat
    ghost var handled: seq<Msg>

    ghost predicate Valid()
      reads this
    {
      && rxAcc != dirRx && rxAcc.Length == ACC_CAP && dirRx.Length == DIR_CAP
      && rxLen <= ACC_CAP && dirR <= dirLen <= DIR_CAP
    }

    ghost function Acc(): seq<byte>
      requires Valid()
      reads this, rxAcc
    {
      rxAcc[..rxLen]
    }

    ghost function View(): Chan
      requires Valid()
      reads this, dirRx
    {
      Chan(ready, tcp, dirRx[dirR..dirLen], handled)
    }

    constructor ()
      ensures Valid() && fresh(rxAcc) && fresh(dirRx)
      ensures View() == Chan(true, Disconnected, [], []) && Acc() == []
    {
      rxAcc, dirRx := new byte[ACC_CAP], new byte[DIR_CAP];
      ready, tcp, rxLen, dirLen, dirR, handled := true, Disconnected, 0, 0, 0, [];
    }

    method Disconnect()
      requires Valid()
      modifies this
      ensures Valid() && View() == MarkDisconnected(old(View())) && Acc() == []
    {
      ready, tcp, rxLen, dirLen, dirR := false, Disconnected, 0, 0, 0;
    }

    /** Directory data: unread bytes move to the front first, and what does not fit ends the link. */
    method DirAppend(data: seq<byte>)
      requires Valid() && ready
      modifies this, dirRx
      ensures Valid() && View() == Append(old(View()), data)
      ensures rxLen == if ready then old(rxLen) else 0
    {
      if |data| == 0 {
        assert dirRx[dirR..dirLen] + data == dirRx[dirR..dirLen];
        return;
      }
      ghost var unread := dirRx[dirR..dirLen];
      var used := dirLen - dirR;
      if dirR > 0 && used > 0 {
        ToFront(dirRx, dirR, used);
        dirLen, dirR := used, 0;
      } else if dirR > 0 {
        dirLen, dirR := 0, 0;
      }
      assert dirRx[dirR..dirLen] == unread && dirR == 0;
      if |data| > DIR_CAP - dirLen {
        Disconnect();
        return;
      }
      CopyIn(dirRx, dirLen, data);
      dirLen := dirLen + |data|;
      assert dirRx[dirR..dirLen] == unread + data;
    }

    /** The switch over message types. */
    method HandleMsg(m: Msg)
      requires Valid() && ready
      modifies this, dirRx
      ensures Valid() && View() == Handle(old(View()), m)
      ensures rxLen == if ready then old(rxLen) else 0
    {
      handled := handled + [m];
      if m.kind == 2 {
        DirAppend(m.data);
      } else if m.kind == 3 {
        tcp := Disconnected;
      } else if m.kind == 4 {
        if |m.data| == 4 && tcp == Connecting {
          if m.data == [0, 0, 0, 0] {
            tcp, dirLen, dirR := Connected, 0, 0;
          } else {
            tcp := Disconnected;
          }
        }
      } else if m.kind == 7 {
        if |m.data| == 1 {
          Disconnect();
        }
      } else if m.kind != 1 && m.kind != 5 && m.kind != 6 {
        Disconnect();
      }
    }

    /** Every complete message in the buffer, up to one that ends the link. */
    method ParseAcc()
      requires Valid() && ready
      modifies this, rxAcc, dirRx
      ensures Valid() && Link(View(), Acc()) == Parsing(old(View()), old(Acc()))
    {
      hide Act, Parse, Handle;
      ghost var goal := Parsing(View(), Acc());
      var going := true;
      while going && rxLen >= HEADER
        invariant Valid()
        invariant ready ==> Parsing(View(), Acc()) == goal
        invariant !ready ==> Link(View(), Acc()) == goal
        invariant going ==> ready
        invariant ready && !going ==> Parse(Acc()).Partial?
        decreases going, rxLen
      {
        going := ParseOne();
      }
      if ready && going {
        Short(Acc());
      }
    }

    /** One turn of the loop. */
    method ParseOne() returns (going: bool)
      requires Valid() && ready && rxLen >= HEADER
      modifies this, rxAcc, dirRx
      ensures Valid()
      ensures match Parse(old(Acc()))
        case Partial => !going && View() == old(View()) && Acc() == old(Acc())
        case TooLarge => !going && View() == MarkDisconnected(old(View())) && Acc() == []
        case Got(m, rest) => going == ready && View() == Handle(old(View()), m) && Acc() == if ready then rest else []
      ensures going ==> rxLen < old(rxLen)
    {
      hide Act;
      ghost var acc := Acc();
      var n := Number(rxAcc[5..9]);
      assert rxAcc[5..9] == acc[5..9];
      if n > ACC_CAP - HEADER {
        Disconnect();
        return false;
      }
      var total := HEADER + n;
      if rxLen < total {
        return false;
      }
      var m := Msg(rxAcc[0], rxAcc[1..5], rxAcc[HEADER..total]);
      assert rxAcc[0] == acc[0] && rxAcc[1..5] == acc[1..5];
      assert m.data == acc[HEADER..total] by {
        assert forall i | HEADER <= i < total :: rxAcc[i] == acc[i];
      }
      assert Parse(acc) == Got(m, acc[total..]);
      HandleMsg(m);
      if !ready {
        return false;
      }
      Consume(total);
      going := true;
    }

    method Consume(total: nat)
      requires Valid() && total <= rxLen
      modifies this`rxLen, rxAcc
      ensures Valid() && Acc() == old(Acc())[total..]
    {
      rxLen := rxLen - total;
      if rxLen > 0 {
        ToFront(rxAcc, total, rxLen);
      }
    }

    /**
     Reads until the socket has nothing more, the kernel handing over at most sizes[i] bytes in
     the i-th read. A link that is up always has room, so the no-space exit is not taken. The
     result is that of the bytes taken in one piece; if the stream then turns out to have ended
     or failed, the link is down.
     */
    method Drain(socket: seq<byte>, sizes: seq<nat>, ended: bool) returns (taken: seq<byte>)
      requires Valid() && Settled(Link(View(), Acc()))
      modifies this, rxAcc, dirRx
      ensures Valid() && taken <= socket
      ensures var l := Feed(old(Link(View(), Acc())), taken);
        Link(View(), Acc()) == if ended && taken == socket && l.chan.ready then Link(MarkDisconnected(l.chan), []) else l
      ensures Settled(Link(View(), Acc()))
      ensures ready && (forall i | 0 <= i < |sizes| :: sizes[i] > 0) && |sizes| >= |socket| ==> taken == socket
    {
      hide Feed, Settled, Parse;
      taken := ReadAll(socket, sizes);
      if ended && taken == socket && ready {
        Disconnect();
        SettledDown(Link(View(), Acc()));
      }
    }

    /** The reads that return data. */
    method ReadAll(socket: seq<byte>, sizes: seq<nat>) returns (taken: seq<byte>)
      requires Valid() && Settled(Link(View(), Acc()))
      modifies this, rxAcc, dirRx
      ensures Valid() && taken <= socket
      ensures Link(View(), Acc()) == Feed(old(Link(View(), Acc())), taken)
      ensures Settled(Link(View(), Acc()))
      ensures ready && (forall i | 0 <= i < |sizes| :: sizes[i] > 0) && |sizes| >= |socket| ==> taken == socket
    {
      hide Parse, Parsing, Feed;
      ghost var start := Link(View(), Acc());
      FeedNothing(start);
      taken := [];
      var i := 0;
      while ready && i < |sizes| && taken != socket
        invariant Valid() && taken <= socket && i <= |sizes|
        invariant Settled(Link(View(), Acc()))
        invariant Link(View(), Acc()) == Feed(start, taken)
        invariant (forall j | 0 <= j < |sizes| :: sizes[j] > 0) ==> |taken| >= i || taken == socket || !ready
      {
        SettledRoom(Acc());
        var space := ACC_CAP - rxLen;
        assert space > 0;
        var n := Least(space, Least(sizes[i], |socket| - |taken|));
        var piece := socket[|taken|..|taken| + n];
        FeedTwice(start, taken, piece);
        ReadPiece(piece);
        taken, i := taken + piece, i + 1;
      }
    }

    /** One read and the parse that follows it. */
    method ReadPiece(piece: seq<byte>)
      requires Valid() && ready && rxLen + |piece| <= ACC_CAP
      modifies this, rxAcc, dirRx
      ensures Valid() && Link(View(), Acc()) == Feed(old(Link(View(), Acc())), piece)
      ensures Settled(Link(View(), Acc()))
    {
      hide Parse, Parsing;
      CopyIn(rxAcc, rxLen, piece);
      rxLen := rxLen + |piece|;
      ParseAcc();
    }

    /** A read of the directory channel once data is there: the oldest bytes, at most buf.Length. */
    method TakeDir(buf: array<byte>) returns (got: nat)
      requires Valid() && buf != dirRx && buf != rxAcc
      modifies this`dirR, this`dirLen, buf
      ensures Valid() && got == Take(old(View()), buf.Length)
      ensures buf[..got] == old(View()).unread[..got] && View() == Taking(old(View()), buf.Length)
    {
      var avail := dirLen - dirR;
      if avail == 0 || buf.Length == 0 {
        return 0;
      }
      ghost var unread := dirRx[dirR..dirLen];
      got := Least(avail, buf.Length);
      CopyOut(buf, dirRx, dirR, got);
      dirR := dirR + got;
      assert dirRx[dirR..dirLen] == unread[got..];
      if dirR >= dirLen {
        dirR, dirLen := 0, 0;
      }
    }
  }

  function Least(a: nat, b: nat): nat {
    if a < b then a else b
  }

  /** Fewer bytes than a header are no message. */
  lemma Short(acc: seq<byte>)
    ensures |acc| < HEADER ==> Parse(acc).Partial?
  {
  }

  lemma SettledRoom(acc: seq<byte>)
    ensures Parse(acc).Partial? ==> |acc| < ACC_CAP
  {
  }

  lemma SettledDown(l: Link)
    requires !l.chan.ready && l.acc == []
    ensures Settled(l)
  {
  }

  lemma FeedNothing(l: Link)
    requires Settled(l)
    ensures Feed(l, []) == l
  {
    assert l.acc + [] == l.acc;
  }

  lemma FeedTwice(l: Link, a: seq<byte>, b: seq<byte>)
    requires Settled(l)
    ensures Feed(Feed(l, a), b) == Feed(l, a + b)
  {
    if l.chan.ready {
      ParsingSplits(l.chan, l.acc + a, b);
      assert l.acc + (a + b) == l.acc + a + b;
    }
  }

  /** n bytes from position from move to the front of a. */
  method ToFront(a: array<byte>, from: nat, n: nat)
    requires from + n <= a.Length
    modifies a
    ensures a[..n] == old(a[from..from + n])
  {
    for i := 0 to n
      invariant forall j | 0 <= j < i :: a[j] == old(a[from + j])
      invariant forall j | i <= j < a.Length :: a[j] == old(a[j])
    {
      a[i] := a[from + i];
    }
  }

  method CopyOut(to: array<byte>, from: array<byte>, at: nat, n: nat)
    requires to != from && n <= to.Length && at + n <= from.Length
    modifies to
    ensures to[..n] == from[at..at + n]
  {
    for i := 0 to n
      invariant to[..i] == from[at..at + i]
    {
      to[i] := from[at + i];
    }
  }

  /** data is written at position at; what is before stays. */
  method CopyIn(a: array<byte>, at: nat, data: seq<byte>)
    requires at + |data| <= a.Length
    modifies a
    ensures a[..at + |data|] == old(a[..at]) + data
  {
    for i := 0 to |data|
      invariant a[..at + i] == old(a[..at]) + data[..i]
    {
      a[at + i] := data[i];
    }
    assert data[..|data|] == data;
  }
}
