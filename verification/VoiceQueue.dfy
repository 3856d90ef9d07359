/**
 The tagged record queue on each side of ModeConv: a byte ring holding one tag byte
 and one voice record after another, and a record counter kept beside it. Getting
 from the queue returns a tag record alone, or `group` records packed as voice.
 */
module VoiceQueue {
  import opened RingBuffer

  const TAG_HEADER: bv8 := 0x00
  const TAG_DATA: bv8 := 0x01
  const TAG_EOT: bv8 := 0x03
  const TAG_NODATA: bv8 := 0x04
  const RING_LENGTH := 5000

  datatype Record = Record(tag: bv8, data: seq<bv8>)

  // ------------------------------------------------------ abstract behaviour

  datatype Item = Nothing | Tagged(record: Record) | Voice(records: seq<Record>)

  /** Three records make a DMR burst, five a YSF payload. */
  predicate Group(g: nat) {
    g == 3 || g == 5
  }

  /** What one get returns for the queue q. */
  function Next(q: seq<Record>, g: nat): Item
    requires Group(g)
  {
    if q == [] then Nothing
    else if q[0].tag != TAG_DATA then Tagged(q[0])
    else if |q| >= g then Voice(q[..g])
    else Nothing
  }

  function Records(i: Item): seq<Record> {
    match i
    case Nothing => []
    case Tagged(r) => [r]
    case Voice(rs) => rs
  }

  // ------------------------------------------------- a counter ahead of the ring

  /** What a get leaves: the item it returns, the ring's records and the counter. */
  datatype Got = Got(item: Item, q: seq<Record>, n: nat)

  function Fewest(a: nat, b: nat): nat {
    if a < b then a else b
  }

  /**
   A get on a ring of records q under a counter n. An empty ring gives nothing and lowers the
   counter. A voice group is taken when the counter says that there is one; a ring that holds fewer
   records gives those it has, and the rest of the burst or payload is whatever was there before.
   */
  function Served(q: seq<Record>, n: nat, g: nat): (r: Got)
    requires Group(g) && |q| <= n
    ensures |r.q| <= r.n
  {
    if n == 0 then Got(Nothing, q, n)
    else if q == [] then Got(Nothing, q, n - 1)
    else if q[0].tag != TAG_DATA then Got(Tagged(q[0]), q[1..], n - 1)
    else if n < g then Got(Nothing, q, n)
    else Got(Voice(q[..Fewest(|q|, g)]), q[Fewest(|q|, g)..], n - g)
  }

  /** While counter and ring agree, gets are those of the queue, and they go on agreeing. */
  lemma AgreeingGet(q: seq<Record>, g: nat)
    requires Group(g)
    ensures var i := Next(q, g); Served(q, |q|, g) == Got(i, q[|Records(i)|..], |q| - |Records(i)|)
  {
  }

  /** What a get returns is what it removes; the counter never falls further behind the ring. */
  lemma GetConserves(q: seq<Record>, n: nat, g: nat)
    requires Group(g) && |q| <= n
    ensures var r := Served(q, n, g); Records(r.item) + r.q == q && r.n - |r.q| <= n - |q|
  {
  }

  /** Stale bytes are handed out as voice exactly when the oldest record is voice and the ring holds
      fewer records than the group that the counter promises. */
  lemma StaleVoiceIff(q: seq<Record>, n: nat, g: nat)
    requires Group(g) && |q| <= n
    ensures var i := Served(q, n, g).item;
      (i.Voice? && |i.records| < g) <==> (q != [] && q[0].tag == TAG_DATA && |q| < g <= n)
  {
  }

  /** The counter after k gets on an empty ring, which all return nothing. */
  function CountDown(n: nat, k: nat, g: nat): (m: nat)
    requires Group(g)
  {
    if k == 0 then n else CountDown(Served([], n, g).n, k - 1, g)
  }

  /** Ring and counter agree again after as many gets on the empty ring as the counter says, and not before. */
  lemma {:induction false} EmptyRingRecovers(n: nat, k: nat, g: nat)
    requires Group(g)
    ensures CountDown(n, k, g) == if k < n then n - k else 0
    decreases k
  {
    if k > 0 {
      EmptyRingRecovers(Served([], n, g).n, k - 1, g);
    }
  }

  /** The same get for a ring of voice records alone: how many are taken, and the counter left. */
  function VoiceTaken<T>(q: seq<T>, n: nat, g: nat): nat {
    if q == [] || n < g then 0 else Fewest(|q|, g)
  }

  function VoiceCount<T>(q: seq<T>, n: nat, g: nat): nat {
    if n == 0 then 0 else if q == [] then n - 1 else if n < g then n else n - g
  }

  lemma VoiceServed(q: seq<Record>, n: nat, g: nat)
    requires Group(g) && |q| <= n && AllVoice(q)
    ensures var k := VoiceTaken(q, n, g);
      k <= |q| && Served(q, n, g) == Got(if k == 0 then Nothing else Voice(q[..k]), q[k..], VoiceCount(q, n, g))
  {
  }

  /** All that repeated gets return until there is nothing to give. */
  function Drained(q: seq<Record>, g: nat): seq<Item>
    requires Group(g)
    decreases |q|
  {
    var i := Next(q, g);
    if i.Nothing? then [] else [i] + Drained(q[|Records(i)|..], g)
  }

  /** The records left behind when there is nothing to give. */
  function Leftover(q: seq<Record>, g: nat): seq<Record>
    requires Group(g)
    decreases |q|
  {
    var i := Next(q, g);
    if i.Nothing? then q else Leftover(q[|Records(i)|..], g)
  }

  function Flattened(items: seq<Item>): seq<Record> {
    if items == [] then [] else Records(items[0]) + Flattened(items[1..])
  }

  /** Nothing is lost, duplicated or reordered by draining. */
  lemma {:induction false} DrainConserves(q: seq<Record>, g: nat)
    requires Group(g)
    ensures Flattened(Drained(q, g)) + Leftover(q, g) == q
    decreases |q|
  {
    var i := Next(q, g);
    if !i.Nothing? {
      var n, d := |Records(i)|, Drained(q, g);
      var rest := q[n..];
      DrainConserves(rest, g);
      assert d[0] == i && d[1..] == Drained(rest, g);
      assert Records(d[0]) == q[..n];
      Rejoin(q, n, Flattened(d[1..]), Leftover(rest, g));
    }
  }

  lemma Rejoin(q: seq<Record>, n: nat, f: seq<Record>, l: seq<Record>)
    requires n <= |q| && f + l == q[n..]
    ensures q[..n] + f + l == q
  {
    assert q[..n] + f + l == q[..n] + (f + l);
  }

  /** Every voice item is made of voice records only. */
  predicate Clean(items: seq<Item>) {
    forall i: Item | i in items && i.Voice? :: AllVoice(i.records)
  }

  predicate AllVoice(q: seq<Record>) {
    forall k: nat | k < |q| :: q[k].tag == TAG_DATA
  }

  /** Length of the run of voice records that closes q. */
  function Tail(q: seq<Record>): (n: nat)
    ensures n <= |q|
    decreases |q|
  {
    if q == [] || q[|q| - 1].tag != TAG_DATA then 0 else 1 + Tail(q[..|q| - 1])
  }

  /** Every tag record follows a whole number of voice groups. */
  predicate TagsOnBoundary(q: seq<Record>, g: nat)
    requires Group(g)
  {
    forall k: nat | k < |q| && q[k].tag != TAG_DATA :: Tail(q[..k]) % g == 0
  }

  predicate OnBoundary(q: seq<Record>, g: nat)
    requires Group(g)
  {
    TagsOnBoundary(q, g) && Tail(q) % g == 0
  }

  lemma {:induction false} TailOfVoice(q: seq<Record>)
    requires AllVoice(q)
    ensures Tail(q) == |q|
    decreases |q|
  {
    if q != [] {
      TailOfVoice(q[..|q| - 1]);
    }
  }

  /** The closing run looks no further back than the last tag record. */
  lemma {:induction false} TailOfSum(p: seq<Record>, q: seq<Record>)
    ensures Tail(p + q) == if AllVoice(q) then Tail(p) + |q| else Tail(q)
    decreases |q|
  {
    if q == [] {
      assert p + q == p;
    } else {
      var n := |q| - 1;
      assert (p + q)[..|p + q| - 1] == p + q[..n];
      TailOfSum(p, q[..n]);
      if AllVoice(q) {
        TailOfVoice(q);
      } else if q[n].tag == TAG_DATA {
        assert !AllVoice(q[..n]);
      }
    }
  }

  /** Behind a prefix on its boundary, closing runs keep their length modulo the group. */
  lemma TailBehind(q: seq<Record>, n: nat, k: nat, g: nat)
    requires Group(g) && n + k <= |q| && Tail(q[..n]) % g == 0
    ensures Tail(q[..n + k]) % g == Tail(q[n..][..k]) % g
  {
    var p, s := q[..n], q[n..][..k];
    assert q[..n + k] == p + s;
    TailOfSum(p, s);
    if AllVoice(s) {
      TailOfVoice(s);
      ModSum(Tail(p), k, g);
    }
  }

  /** Removing a leading group of voice records, or one tag record, keeps the boundaries. */
  lemma DropKeepsBoundary(q: seq<Record>, n: nat, g: nat)
    requires Group(g) && n <= |q| && Tail(q[..n]) % g == 0 && TagsOnBoundary(q[..n], g)
    ensures OnBoundary(q, g) <==> OnBoundary(q[n..], g)
  {
    hide Tail;
    var p, s := q[..n], q[n..];
    TailBehind(q, n, |s|, g);
    assert q[..n + |s|] == q && s[..|s|] == s;
    forall k: nat | n <= k < |q| ensures q[k] == s[k - n] && Tail(q[..k]) % g == Tail(s[..k - n]) % g {
      TailBehind(q, n, k - n, g);
    }
    forall k: nat | k < n ensures q[k] == p[k] && q[..k] == p[..k] {
    }
    assert forall k: nat | k < |s| :: s[k] == q[n + k];
  }

  lemma ModSum(a: nat, b: nat, g: nat)
    requires Group(g) && a % g == 0
    ensures (a + b) % g == b % g
  {
  }

  /**
   Exactly when draining is safe: a queue is emptied without ever packing a tag
   record as voice if and only if every tag record, and the end, lies a whole
   number of groups behind the tag before it.
   */
  lemma {:induction false} DrainsCleanIff(q: seq<Record>, g: nat)
    requires Group(g)
    ensures (Clean(Drained(q, g)) && Leftover(q, g) == []) <==> OnBoundary(q, g)
    decreases |q|
  {
    if q == [] {
    } else if q[0].tag != TAG_DATA {
      assert q[..1] == [q[0]] && q[..1][..0] == [];
      assert Tail(q[..1]) == 0;
      DropKeepsBoundary(q, 1, g);
      DrainsCleanIff(q[1..], g);
      assert Drained(q, g) == [Tagged(q[0])] + Drained(q[1..], g);
    } else if |q| < g {
      ShortRun(q, g);
    } else if AllVoice(q[..g]) {
      TailOfVoice(q[..g]);
      DropKeepsBoundary(q, g, g);
      DrainsCleanIff(q[g..], g);
      assert Drained(q, g) == [Voice(q[..g])] + Drained(q[g..], g);
    } else {
      assert Voice(q[..g]) == Drained(q, g)[0];
      ShortRun(q, g);
    }
  }

  /** A run that starts the queue and stops short of a group breaks the boundary. */
  lemma ShortRun(q: seq<Record>, g: nat)
    requires Group(g) && q != [] && q[0].tag == TAG_DATA
    requires |q| < g || !AllVoice(q[..g])
    ensures !OnBoundary(q, g)
  {
    hide Tail;
    if AllVoice(q) {
      TailOfVoice(q);
    } else {
      var k := FirstTag(q);
      TailOfVoice(q[..k]);
      assert k < g;
    }
  }

  lemma {:induction false} FirstTag(q: seq<Record>) returns (k: nat)
    requires !AllVoice(q)
    ensures k < |q| && q[k].tag != TAG_DATA && AllVoice(q[..k])
    decreases |q|
  {
    if AllVoice(q[..|q| - 1]) {
      k := |q| - 1;
    } else {
      k := FirstTag(q[..|q| - 1]);
      assert q[..|q| - 1][..k] == q[..k];
    }
  }

  /** What putDMREOT and putYSFEOT add: silence up to a group boundary of the counter, then the EOT. */
  function WithEot(q: seq<Record>, g: nat, silence: seq<bv8>, eot: seq<bv8>): seq<Record>
    requires Group(g)
  {
    q + Fill(|q|, g, silence) + [Record(TAG_EOT, eot)]
  }

  /** The silence records an EOT puts behind n pending records. */
  function Fill(n: nat, g: nat, silence: seq<bv8>): (f: seq<Record>)
    requires Group(g)
    ensures |f| == g - n % g && AllVoice(f)
  {
    seq(g - n % g, _ => Record(TAG_DATA, silence))
  }

  /**
   Putting an EOT leaves a queue that drains cleanly exactly when the queue was on
   its boundaries and the records ahead of its closing voice run fill whole groups.
   A pending HEADER record alone breaks this.
   */
  lemma EotAlignedIff(q: seq<Record>, g: nat, silence: seq<bv8>, eot: seq<bv8>)
    requires Group(g)
    ensures var r := WithEot(q, g, silence, eot);
            (Clean(Drained(r, g)) && Leftover(r, g) == [])
            <==> TagsOnBoundary(q, g) && (|q| - Tail(q)) % g == 0
  {
    hide Tail, Clean, Drained, Leftover, Fill, TagsOnBoundary, AllVoice;
    var fill, t := Fill(|q|, g, silence), Record(TAG_EOT, eot);
    var r := WithEot(q, g, silence, eot);
    DrainsCleanIff(r, g);
    EndsInTag(r);
    TailOfSum(q, fill);
    FillAligns(Tail(q), |q|, g);
    BoundaryWithTag(q, fill, t, g);
  }

  lemma EndsInTag(q: seq<Record>)
    requires q != [] && q[|q| - 1].tag != TAG_DATA
    ensures Tail(q) == 0
  {
  }

  lemma BoundaryWithTag(q: seq<Record>, fill: seq<Record>, t: Record, g: nat)
    requires Group(g) && AllVoice(fill) && t.tag != TAG_DATA
    ensures TagsOnBoundary(q + fill + [t], g) <==> TagsOnBoundary(q, g) && Tail(q + fill) % g == 0
  {
    hide Tail;
    var r := q + fill + [t];
    var m := |q| + |fill|;
    assert r[..m] == q + fill && r[m] == t;
    forall k: nat | k < |q| ensures r[k] == q[k] && r[..k] == q[..k] {
    }
    forall k: nat | |q| <= k < m ensures r[k].tag == TAG_DATA {
      assert r[k] == fill[k - |q|];
    }
  }

  lemma FillAligns(tail: nat, len: nat, g: nat)
    requires Group(g) && tail <= len
    ensures (tail + (g - len % g)) % g == 0 <==> (len - tail) % g == 0
  {
  }

  /** With only voice pending, an EOT drains as whole voice groups and then itself. */
  lemma EotAfterVoice(q: seq<Record>, g: nat, silence: seq<bv8>, eot: seq<bv8>)
    requires Group(g) && AllVoice(q)
    ensures var r := WithEot(q, g, silence, eot);
            Clean(Drained(r, g)) && Leftover(r, g) == [] && Flattened(Drained(r, g)) == r
  {
    var r := WithEot(q, g, silence, eot);
    TailOfVoice(q);
    EotAlignedIff(q, g, silence, eot);
    DrainConserves(r, g);
  }

  /** One pending HEADER and nothing else: the EOT is packed into a voice group or left behind. */
  lemma EotBehindHeader(header: Record, q: seq<Record>, g: nat, silence: seq<bv8>, eot: seq<bv8>)
    requires Group(g) && header.tag == TAG_HEADER && AllVoice(q)
    ensures var r := WithEot([header] + q, g, silence, eot);
            !(Clean(Drained(r, g)) && Leftover(r, g) == [])
  {
    TailOfSum([header], q);
    TailOfVoice(q);
    EotAlignedIff([header] + q, g, silence, eot);
  }

  // ----------------------------------------------------------- the queue

  /** The bytes a queue of records occupies in the ring. */
  function Bytes(q: seq<Record>): seq<bv8>
    decreases |q|
  {
    if q == [] then [] else Bytes(q[..|q| - 1]) + [q[|q| - 1].tag] + q[|q| - 1].data
  }

  predicate Sized(q: seq<Record>, size: nat) {
    forall k: nat | k < |q| :: |q[k].data| == size
  }

  lemma {:induction false} BytesLength(q: seq<Record>, size: nat)
    requires Sized(q, size)
    ensures |Bytes(q)| == (size + 1) * |q|
    decreases |q|
  {
    if q != [] {
      BytesLength(q[..|q| - 1], size);
      assert (size + 1) * |q| == (size + 1) * (|q| - 1) + (size + 1);
    }
  }

  lemma {:induction false} BytesFromFront(q: seq<Record>)
    requires q != []
    ensures Bytes(q) == [q[0].tag] + q[0].data + Bytes(q[1..])
    decreases |q|
  {
    var n := |q| - 1;
    var last := [q[n].tag] + q[n].data;
    assert Bytes(q) == Bytes(q[..n]) + last;
    if n == 0 {
      assert q[..0] == [] && q[1..] == [];
    } else {
      var first, mid := [q[0].tag] + q[0].data, q[1..][..n - 1];
      BytesFromFront(q[..n]);
      assert q[..n][1..] == mid && q[..n][0] == q[0];
      assert Bytes(q[1..]) == Bytes(mid) + last by {
        assert q[1..][n - 1] == q[n];
      }
      assert first + Bytes(mid) + last == first + (Bytes(mid) + last);
    }
  }

  lemma SplitFront(c: seq<bv8>, r: Record, rest: seq<bv8>)
    requires c == [r.tag] + r.data + rest
    ensures c[..1] == [r.tag] && c[1..][..|r.data|] == r.data && c[1..][|r.data|..] == rest
  {
  }

  /** Records of this size that fit in the ring together: 499 of nine bytes, 357 of thirteen. */
  function Limit(size: nat): nat {
    (RING_LENGTH - 1) / (size + 1)
  }

  lemma BytesAppend(q: seq<Record>, r: Record, size: nat)
    requires Sized(q, size) && |r.data| == size
    ensures Bytes(q + [r]) == Bytes(q) + [r.tag] + r.data && Sized(q + [r], size)
  {
    assert (q + [r])[..|q + [r]| - 1] == q;
  }

  /** A queue that the ring holds has room for a tag byte, and for a record exactly below the limit. */
  lemma Room(q: seq<Record>, size: nat)
    requires Sized(q, size) && (size == 9 || size == 13) && |Bytes(q)| < RING_LENGTH
    ensures |Bytes(q)| + 1 < RING_LENGTH
    ensures |Bytes(q)| + 1 + size < RING_LENGTH <==> |q| < Limit(size)
  {
    hide Bytes;
    BytesLength(q, size);
  }

  /** The ring's records after one more put: the ring is emptied by a record that does not fit. */
  function Joined<T>(q: seq<T>, r: T, size: nat): seq<T> {
    if |q| < Limit(size) then q + [r] else []
  }

  function JoinedAll<T>(q: seq<T>, rs: seq<T>, size: nat): seq<T> {
    if rs == [] then q else Joined(JoinedAll(q, rs[..|rs| - 1], size), rs[|rs| - 1], size)
  }

  lemma JoinsNone<T>(q: seq<T>, size: nat)
    ensures JoinedAll(q, [], size) == q
  {
  }

  lemma JoinsLast<T>(q: seq<T>, rs: seq<T>, r: T, size: nat)
    ensures JoinedAll(q, rs + [r], size) == Joined(JoinedAll(q, rs, size), r, size)
  {
    assert (rs + [r])[..|rs|] == rs;
  }

  lemma JoinsThree<T>(q: seq<T>, a: T, b: T, c: T, size: nat)
    ensures JoinedAll(q, [a, b, c], size) == Joined(Joined(Joined(q, a, size), b, size), c, size)
  {
    hide Joined, JoinedAll;
    JoinsNone(q, size);
    JoinsLast(q, [], a, size);
    JoinsLast(q, [a], b, size);
    JoinsLast(q, [a, b], c, size);
    assert [] + [a] == [a] && [a] + [b] == [a, b] && [a, b] + [c] == [a, b, c];
  }

  lemma JoinsFive<T>(q: seq<T>, a: T, b: T, c: T, d: T, e: T, size: nat)
    ensures JoinedAll(q, [a, b, c, d, e], size)
         == Joined(Joined(Joined(Joined(Joined(q, a, size), b, size), c, size), d, size), e, size)
  {
    hide Joined, JoinedAll;
    JoinsThree(q, a, b, c, size);
    JoinsLast(q, [a, b, c], d, size);
    JoinsLast(q, [a, b, c, d], e, size);
    assert [a, b, c] + [d] == [a, b, c, d] && [a, b, c, d] + [e] == [a, b, c, d, e];
  }

  /** Records that fit together join in order; ring and counter then still agree, and only then. */
  lemma {:induction false} JoinsIffFits<T>(q: seq<T>, rs: seq<T>, size: nat)
    requires |q| <= Limit(size)
    ensures |q| + |rs| <= Limit(size) ==> JoinedAll(q, rs, size) == q + rs
    ensures |JoinedAll(q, rs, size)| <= Limit(size)
    ensures |JoinedAll(q, rs, size)| == |q| + |rs| <==> |q| + |rs| <= Limit(size)
    ensures |JoinedAll(q, rs, size)| <= |q| + |rs|
    decreases |rs|
  {
    hide Limit;
    if rs != [] {
      var n := |rs| - 1;
      JoinsIffFits(q, rs[..n], size);
      assert rs == rs[..n] + [rs[n]];
      assert q + rs == q + rs[..n] + [rs[n]];
    } else {
      assert q + [] == q;
    }
  }

  lemma NoRecords(size: nat)
    ensures Bytes([]) == [] && Sized([], size)
  {
  }

  /** The tag and the record data that a get hands out for an item. */
  predicate Delivered(item: Item, tag: bv8, data: seq<seq<bv8>>) {
    match item
    case Nothing => tag == TAG_NODATA && data == []
    case Tagged(r) => tag == r.tag && data == [r.data]
    case Voice(rs) => tag == TAG_DATA && |data| == |rs| && forall k: nat | k < |rs| :: data[k] == rs[k].data
  }

  class Lane {
    const ring: Ring<bv8>
    const size: nat
    const group: nat
    var n: nat
    ghost var queue: seq<Record>

    ghost predicate Shape()
      reads this, ring
    {
      ring.Valid() && ring.length == RING_LENGTH && Group(group) && (size == 9 || size == 13)
    }

    /** The ring holds whole records, and no more than the counter says. */
    ghost predicate Sane()
      reads this, ring, ring.buffer
    {
      Shape() && |queue| <= n && Sized(queue, size) && ring.Contents() == Bytes(queue)
    }

    /** Ring and counter describe the same queue of records. */
    ghost predicate Valid()
      reads this, ring, ring.buffer
    {
      Sane() && n == |queue|
    }

    constructor (size: nat, group: nat)
      requires Group(group) && (size == 9 || size == 13)
      ensures Valid() && queue == [] && this.size == size && this.group == group
      ensures fresh(ring) && fresh(ring.buffer)
    {
      ring := new Ring<bv8>(RING_LENGTH, 0);
      this.size, this.group, n, queue := size, group, 0, [];
    }

    /**
     Tag byte and data go into the ring and the counter moves on, whether or not they fitted.
     Past the limit the ring is emptied, under a counter that says otherwise.
     */
    method Put(tag: bv8, data: seq<bv8>)
      requires Sane() && |data| == size
      modifies this`n, this`queue, ring, ring.buffer
      ensures Sane() && n == old(n) + 1
      ensures queue == Joined(old(queue), Record(tag, data), size)
      ensures Valid() <==> old(Valid()) && old(|queue|) < Limit(size)
    {
      hide Bytes, Sized, Limit;
      ghost var q := queue + [Record(tag, data)];
      Room(queue, size);
      BytesAppend(queue, Record(tag, data), size);
      var fit1 := ring.AddData([tag]);
      var fit2 := ring.AddData(data);
      n := n + 1;
      queue := if fit2 then q else [];
      NoRecords(size);
    }

    /** Silence up to a group boundary of the counter, then the EOT. */
    method PutEot(silence: seq<bv8>, eot: seq<bv8>)
      requires Sane() && |silence| == |eot| == size
      modifies this`n, this`queue, ring, ring.buffer
      ensures Sane() && n == old(n) + group - old(n) % group + 1
      ensures queue == JoinedAll(old(queue), Fill(old(n), group, silence) + [Record(TAG_EOT, eot)], size)
    {
      hide Bytes, Sized, Limit, Joined;
      var fill := group - n % group;
      ghost var q, f, g := queue, Fill(n, group, silence), Fill(n, group, silence) + [Record(TAG_EOT, eot)];
      for i := 0 to fill
        invariant Sane() && queue == JoinedAll(q, f[..i], size) && n == old(n) + i
      {
        assert f[..i + 1][..i] == f[..i];
        Put(TAG_DATA, silence);
      }
      assert f[..fill] == f && g[..fill] == f;
      Put(TAG_EOT, eot);
    }

    /** Takes the oldest record out of the ring, if there is one; the counter falls in any case. */
    method Take() returns (ok: bool, tag: bv8, data: seq<bv8>)
      requires Sane() && n > 0
      modifies this`n, this`queue, ring
      ensures Sane() && n == old(n) - 1 && ok == (old(queue) != [])
      ensures ok ==> Record(tag, data) == old(queue)[0] && queue == old(queue)[1..]
      ensures !ok ==> queue == []
    {
      hide Bytes;
      if queue != [] {
        BytesFromFront(queue);
        SplitFront(ring.Contents(), queue[0], Bytes(queue[1..]));
      }
      EmptyIff(queue, size);
      var ok1, t := ring.GetData(1);
      var ok2, d := ring.GetData(size);
      n := n - 1;
      ok := ok1;
      if ok1 {
        queue := queue[1..];
        tag, data := t[0], d;
      } else {
        tag, data := TAG_NODATA, [];
      }
    }

    /** The tag of the oldest record; an empty ring leaves the caller's NODATA. */
    method HeadTag() returns (tag: bv8)
      requires Sane()
      ensures tag == if queue == [] then TAG_NODATA else queue[0].tag
    {
      hide Bytes, Sized;
      EmptyIff(queue, size);
      if queue != [] {
        BytesFromFront(queue);
      }
      var ok, t := ring.Peek(1);
      tag := if ok then t[0] else TAG_NODATA;
    }

    /** getDMR and getYSF up to packing: one tag record, a voice group or what there is of it, or nothing. */
    method Get() returns (tag: bv8, data: seq<seq<bv8>>)
      requires Sane()
      modifies this`n, this`queue, ring
      ensures Sane() && Got(Served(old(queue), old(n), group).item, queue, n) == Served(old(queue), old(n), group)
      ensures Delivered(Served(old(queue), old(n), group).item, tag, data)
    {
      hide Bytes, Sized;
      data := [];
      if n >= 1 {
        var t := HeadTag();
        if t != TAG_DATA {
          var ok, u, d := Take();
          return t, if ok then [d] else [];
        }
      }
      if n >= group {
        data := TakeGroup();
        tag := TAG_DATA;
      } else {
        tag := TAG_NODATA;
      }
    }

    /** The reads of a voice group. */
    method TakeGroup() returns (data: seq<seq<bv8>>)
      requires Sane() && n >= group
      modifies this`n, this`queue, ring
      ensures Sane() && n == old(n) - group
      ensures |data| == Fewest(old(|queue|), group) && queue == old(queue)[|data|..]
      ensures forall k: nat | k < |data| :: data[k] == old(queue)[k].data
    {
      hide Bytes, Sized;
      data := [];
      for i := 0 to group
        invariant Sane() && n == old(n) - i
        invariant |data| == Fewest(old(|queue|), i) && queue == old(queue)[|data|..]
        invariant forall k: nat | k < |data| :: data[k] == old(queue)[k].data
      {
        var ok, t, d := Take();
        if ok {
          data := data + [d];
        }
      }
    }
  }

  lemma EmptyIff(q: seq<Record>, size: nat)
    requires Sized(q, size)
    ensures q == [] <==> Bytes(q) == []
    ensures q != [] ==> |Bytes(q)| >= size + 1
  {
    hide Bytes;
    BytesLength(q, size);
    if q == [] {
      NoRecords(size);
    } else {
      BytesFromFront(q);
      assert |q| >= 1 && (size + 1) * |q| >= size + 1;
    }
  }
}
