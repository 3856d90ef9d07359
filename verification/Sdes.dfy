/**
 The RTCP packets of an EchoLink station: a receiver report followed by a source description
 (section 6.5 of RFC 3550, with version 3), how they are built and how received ones are read.
 */
module Sdes {
  import opened Octets

  const RR: byte := 201
  const SDES: byte := 202
  const CNAME: byte := 1
  const NAME: byte := 2
  const EMAIL: byte := 3
  const PHONE: byte := 4
  const LOC: byte := 5
  const TOOL: byte := 6
  const END: byte := 0

  type Text = seq<byte>

  const CallsignText: Text := [67, 65, 76, 76, 83, 73, 71, 78]
  const ToolText: Text := [121, 115, 102, 50, 100, 109, 114, 99, 111, 110]
  const OpenText: Text := [79, 80, 69, 78]

  // ------------------------------------------------------------------- building

  /** An item of a source description. */
  datatype Item = Item(kind: byte, text: Text) {
    predicate Ok() {
      kind != END && |text| < 256
    }
  }

  predicate AllOk(items: seq<Item>) {
    forall i | 0 <= i < |items| :: items[i].Ok()
  }

  function Wire(items: seq<Item>): (b: seq<byte>)
    requires AllOk(items)
  {
    if items == [] then []
    else
      assert items[0].Ok();
      [items[0].kind, |items[0].text| as byte] + items[0].text + Wire(items[1..])
  }

  function Padding(n: nat): (p: nat)
    ensures p < 4 && (n + p) % 4 == 0
  {
    (4 - n % 4) % 4
  }

  function Pad(p: nat): (b: seq<byte>)
    requires p < 4
    ensures |b| == p
  {
    if p == 0 then [] else seq(p - 1, _ => 0) + [p as byte]
  }

  /** The items with their end mark, as long as the padding makes them. */
  function Body(items: seq<Item>): (b: seq<byte>)
    requires AllOk(items)
    ensures |b| % 4 == 0
  {
    var w := Wire(items) + [END];
    w + Pad(Padding(|w|))
  }

  /** The receiver report. */
  function Report(nid: seq<byte>): seq<byte> {
    [0xC0, RR, 0, 1] + nid
  }

  /** The source description; the padding bit says whether there is padding. */
  function Description(nid: seq<byte>, items: seq<Item>): (b: seq<byte>)
    requires |nid| == 4 && AllOk(items)
    requires |Body(items)| < 65536
  {
    var body := Body(items);
    var words := 1 + |body| / 4;
    [if Padding(|Wire(items)| + 1) > 0 then 0xE1 else 0xC1, SDES, (words / 256) as byte, (words % 256) as byte] + nid + body
  }

  function Compound(nid: seq<byte>, items: seq<Item>): (b: seq<byte>)
    requires |nid| == 4 && AllOk(items)
    requires |Body(items)| < 65536
    ensures |b| % 4 == 0
  {
    Report(nid) + Description(nid, items)
  }

  // -------------------------------------------------------------------- reading

  predicate Printable(c: byte) {
    32 <= c <= 126
  }

  /** The printable characters, at most n of them. */
  function Filtered(t: Text, n: nat): (r: Text)
    ensures |r| <= n
  {
    if t == [] || n == 0 then []
    else if Printable(t[0]) then [t[0]] + Filtered(t[1..], n - 1)
    else Filtered(t[1..], n)
  }

  function Trimmed(t: Text): (r: Text)
    ensures r <= t && (r != [] ==> r[|r| - 1] != 32)
  {
    if t != [] && t[|t| - 1] == 32 then Trimmed(t[..|t| - 1]) else t
  }

  /** What is kept of an item in a field of cap bytes. */
  function Clean(t: Text, cap: nat): Text
    requires cap > 0
  {
    Trimmed(Filtered(t, cap - 1))
  }

  /** Printable text without a trailing space that fits is kept as it is. */
  lemma {:induction false} FilteredSame(t: Text, n: nat)
    requires |t| <= n && forall i | 0 <= i < |t| :: Printable(t[i])
    ensures Filtered(t, n) == t
    decreases n
  {
    if t != [] {
      assert Printable(t[0]);
      FilteredSame(t[1..], n - 1);
    }
  }

  predicate Plain(t: Text) {
    (forall i | 0 <= i < |t| :: Printable(t[i])) && (t != [] ==> t[|t| - 1] != 32)
  }

  lemma CleanSame(t: Text, cap: nat)
    requires |t| < cap && Plain(t)
    ensures Clean(t, cap) == t
  {
    FilteredSame(t, cap - 1);
  }

  /** The fields a source description sets. */
  datatype Found = Found(cname: Text, name: Text, loc: Text)

  const Nothing := Found([], [], [])

  function Noted(f: Found, i: Item): Found {
    if i.kind == CNAME then f.(cname := Clean(i.text, 64))
    else if i.kind == NAME then f.(name := Clean(i.text, 64))
    else if i.kind == LOC then f.(loc := Clean(i.text, 32))
    else f
  }

  function NotedAll(f: Found, items: seq<Item>): Found
    decreases |items|
  {
    if items == [] then f else NotedAll(Noted(f, items[0]), items[1..])
  }

  datatype Scan = Bad | Good(o: nat, found: Found)

  /** To the next multiple of four, or the end. */
  function Align(o: nat, plen: nat): nat
    requires o <= plen
  {
    if o + Padding(o) <= plen then o + Padding(o) else plen
  }

  /** The items of one chunk from offset o. */
  function Items(pkt: seq<byte>, o: nat, f: Found): (s: Scan)
    requires o <= |pkt|
    ensures s.Good? ==> o <= s.o <= |pkt|
    decreases |pkt| - o
  {
    if o + 1 > |pkt| then Good(o, f)
    else if pkt[o] == END then Good(Align(o + 1, |pkt|), f)
    else
      var n := if o + 1 < |pkt| then pkt[o + 1] as nat else 0;
      if o + 2 + n > |pkt| then Bad
      else Items(pkt, o + 2 + n, Noted(f, Item(pkt[o], pkt[o + 2..o + 2 + n])))
  }

  function Chunks(pkt: seq<byte>, o: nat, count: nat, f: Found): Scan
    requires o <= |pkt|
    decreases count
  {
    if count == 0 || o + 4 > |pkt| then Good(o, f)
    else match Items(pkt, o + 4, f)
      case Bad => Bad
      case Good(p, g) => Chunks(pkt, p, count - 1, g)
  }

  function Upper(c: byte): byte {
    if 97 <= c <= 122 then c - 32 else c
  }

  predicate SaysOpen(t: Text) {
    |t| == 4 && Upper(t[0]) == 79 && Upper(t[1]) == 80 && Upper(t[2]) == 69 && Upper(t[3]) == 78
  }

  /** What a source description amounts to: nothing, a request to open, or the station's names. */
  datatype Reading = Ignored | Open | Station(cname: Text, name: Text)

  function Read(pkt: seq<byte>): Reading {
    if |pkt| < 8 then Ignored
    else match Chunks(pkt, 4, pkt[0] as nat % 32, Nothing)
      case Bad => Ignored
      case Good(_, f) => if SaysOpen(f.loc) then Open else Station(f.cname, f.name)
  }

  /** A compound packet: what is read of its source descriptions, and where the walk ends. */
  datatype Walk = Walk(readings: seq<Reading>, end: nat)

  function Handle(data: seq<byte>, o: nat): (w: Walk)
    requires o <= |data|
    ensures o <= w.end <= |data|
    decreases |data| - o
  {
    if o + 4 > |data| then Walk([], o)
    else
      var plen := (data[o + 2] as nat * 256 + data[o + 3] as nat + 1) * 4;
      if o + plen > |data| then Walk([], o)
      else
        var rest := Handle(data, o + plen);
        Walk(Readings(data, o, plen) + rest.readings, rest.end)
  }

  // ------------------------------------------------- what is built is what is read

  /** Where an item stands first, the rest stands behind it. */
  lemma FirstItem(t: seq<byte>, items: seq<Item>)
    requires AllOk(items) && items != [] && Wire(items) + [END] <= t
    ensures var n := |items[0].text|;
      && |t| > 2 + n && t[0] == items[0].kind && items[0].Ok() && t[1] == n as byte && t[2..2 + n] == items[0].text
      && Wire(items[1..]) + [END] <= t[2 + n..] && |Wire(items)| == 2 + n + |Wire(items[1..])|
  {
    var i, rest := items[0], Wire(items[1..]);
    var h := [i.kind, |i.text| as byte] + i.text;
    assert Wire(items) == h + rest;
    var w := h + rest + [END];
    assert t[..|w|] == w;
    assert t[2..2 + |i.text|] == w[2..2 + |i.text|] == i.text;
    assert t[0] == w[0] && t[1] == w[1];
    assert t[|h|..][..|rest| + 1] == w[|h|..] == rest + [END];
  }

  /** Reading the items from where they stand notes every one of them. */
  lemma {:induction false} ItemsNoted(pkt: seq<byte>, o: nat, items: seq<Item>, f: Found)
    requires AllOk(items) && o <= |pkt| && Wire(items) + [END] <= pkt[o..]
    ensures Items(pkt, o, f) == Good(Align(o + |Wire(items)| + 1, |pkt|), NotedAll(f, items))
    decreases |items|
  {
    hide Noted, Align, Padding, Items, Wire;
    var t := pkt[o..];
    if items != [] {
      FirstItem(t, items);
      var i, n := items[0], |items[0].text|;
      assert pkt[o] == t[0] && pkt[o + 1] == t[1] && pkt[o + 2..o + 2 + n] == t[2..2 + n];
      assert i == Item(i.kind, i.text);
      ItemsTurn(pkt, o, f);
      assert t[2 + n..] == pkt[o + 2 + n..];
      ItemsNoted(pkt, o + 2 + n, items[1..], Noted(f, i));
    } else {
      WireNone();
      assert t[0] == pkt[o];
      ItemsTurn(pkt, o, f);
    }
  }

  lemma WireNone()
    ensures AllOk([]) && Wire([]) == []
  {
  }

  /** One turn over the items. */
  lemma ItemsTurn(pkt: seq<byte>, o: nat, f: Found)
    requires o < |pkt|
    ensures pkt[o] == END ==> Items(pkt, o, f) == Good(Align(o + 1, |pkt|), f)
    ensures pkt[o] != END && o + 1 < |pkt| && o + 2 + pkt[o + 1] as nat <= |pkt| ==>
      Items(pkt, o, f) ==
        Items(pkt, o + 2 + pkt[o + 1] as nat, Noted(f, Item(pkt[o], pkt[o + 2..o + 2 + pkt[o + 1] as nat])))
  {
    hide Noted, Align;
  }

  lemma DescriptionParts(nid: seq<byte>, items: seq<Item>)
    requires |nid| == 4 && AllOk(items) && |Body(items)| < 65536
    ensures var pkt := Description(nid, items);
      |pkt| == 8 + |Body(items)| && pkt[0] as nat % 32 == 1 && pkt[8..] == Body(items)
  {
    hide Wire, Pad, Padding, Body;
  }

  /** One description is read to the fields its items set. */
  lemma DescriptionRead(nid: seq<byte>, items: seq<Item>)
    requires |nid| == 4 && AllOk(items)
    requires |Body(items)| < 65536
    ensures var f := NotedAll(Nothing, items);
      Read(Description(nid, items)) == if SaysOpen(f.loc) then Open else Station(f.cname, f.name)
  {
    hide Items, NotedAll, SaysOpen, Align, Wire, Description;
    var pkt := Description(nid, items);
    DescriptionParts(nid, items);
    assert Wire(items) + [END] <= Body(items);
    ItemsNoted(pkt, 8, items, Nothing);
  }

  lemma WordsBack(words: nat)
    requires words < 65536
    ensures (words / 256) as byte as nat * 256 + (words % 256) as byte as nat == words
  {
  }

  /** The compound packet is walked to its exact end, and its one description is read. */
  lemma CompoundWalked(nid: seq<byte>, items: seq<Item>)
    requires |nid| == 4 && AllOk(items)
    requires |Body(items)| < 65536
    ensures Handle(Compound(nid, items), 0) == Walk([Read(Description(nid, items))], |Compound(nid, items)|)
  {
    var data, d := Compound(nid, items), Description(nid, items);
    assert data[8..] == d && |Report(nid)| == 8;
    WordsBack(1 + |Body(items)| / 4);
    assert data[8] == d[0] && data[9] == d[1] && data[10] == d[2] && data[11] == d[3];
    assert data[8..8 + |d|] == d;
    assert Handle(data, 8 + |d|) == Walk([], 8 + |d|);
    assert Handle(data, 8) == Walk([Read(d)], |data|);
    assert data[0] == 0xC0 && data[1] == RR && data[2] == 0 && data[3] == 1;
  }

  lemma {:induction false} WholeBody()
    ensures AllOk([Item(1, [67])]) && |Wire([Item(1, [67])])| == 3
    ensures Body([Item(1, [67])]) == [1, 1, 67, 0]
  {
    hide Wire;
    WireOfOne(Item(1, [67]));
    assert Wire([Item(1, [67])]) + [END] == [1, 1, 67, 0];
    assert Padding(4) == 0 && Pad(0) == [];
  }

  lemma {:induction false} PaddedBody()
    ensures AllOk([Item(2, [65, 66])]) && |Wire([Item(2, [65, 66])])| == 4
    ensures Body([Item(2, [65, 66])]) == [2, 2, 65, 66, 0, 0, 0, 3]
  {
    hide Wire;
    WireOfOne(Item(2, [65, 66]));
    assert Wire([Item(2, [65, 66])]) + [END] == [2, 2, 65, 66, 0];
    assert Padding(5) == 3 && Pad(3) == [0, 0, 3];
  }

  /** A packet byte by byte, of one name that fills its words. */
  lemma {:induction false} WholePacket()
    ensures AllOk([Item(1, [67])]) && |Body([Item(1, [67])])| < 65536
    ensures Compound([10, 20, 30, 40], [Item(1, [67])]) ==
      [0xC0, 201, 0, 1, 10, 20, 30, 40, 0xC1, 202, 0, 2, 10, 20, 30, 40, 1, 1, 67, 0]
  {
    hide Body, Wire;
    WholeBody();
    assert Description([10, 20, 30, 40], [Item(1, [67])]) == [0xC1, 202, 0, 2] + [10, 20, 30, 40] + [1, 1, 67, 0];
  }

  /** And one that is padded. */
  lemma {:induction false} PaddedPacket()
    ensures AllOk([Item(2, [65, 66])]) && |Body([Item(2, [65, 66])])| < 65536
    ensures Compound([10, 20, 30, 40], [Item(2, [65, 66])]) ==
      [0xC0, 201, 0, 1, 10, 20, 30, 40, 0xE1, 202, 0, 3, 10, 20, 30, 40, 2, 2, 65, 66, 0, 0, 0, 3]
  {
    hide Body, Wire;
    PaddedBody();
    assert Description([10, 20, 30, 40], [Item(2, [65, 66])]) ==
           [0xE1, 202, 0, 3] + [10, 20, 30, 40] + [2, 2, 65, 66, 0, 0, 0, 3];
  }

  lemma {:induction false} WireOfOne(i: Item)
    requires i.Ok()
    ensures AllOk([i]) && Wire([i]) == [i.kind, |i.text| as byte] + i.text
  {
    WireNone();
    assert [i][1..] == [];
  }

  // --------------------------------------------------------------- the two packets

  /** A station: the literal callsign text in CNAME and EMAIL, its name in NAME. */
  function StationItems(name: Text, phone: Text): seq<Item> {
    [Item(CNAME, CallsignText), Item(NAME, name), Item(EMAIL, CallsignText), Item(PHONE, phone), Item(TOOL, ToolText)]
  }

  /** A request that a directory server relays: the caller in CNAME, the peer in EMAIL. */
  function OpenItems(callsign: Text, ip: Text): seq<Item> {
    [Item(CNAME, callsign), Item(LOC, OpenText), Item(EMAIL, ip)]
  }

  lemma WireStation(name: Text, phone: Text)
    requires |name| < 256 && |phone| < 256
    ensures AllOk(StationItems(name, phone))
    ensures Wire(StationItems(name, phone)) ==
      [CNAME, 8] + CallsignText + [NAME, |name| as byte] + name + [EMAIL, 8] + CallsignText
      + [PHONE, |phone| as byte] + phone + [TOOL, 10] + ToolText
  {
    var items := StationItems(name, phone);
    assert items[1..][1..] == items[2..] && items[2..][1..] == items[3..] && items[3..][1..] == items[4..];
    assert Wire(items[4..][1..]) == [];
    assert Wire(items[4..]) == [TOOL, 10] + ToolText;
    assert Wire(items[3..]) == [PHONE, |phone| as byte] + phone + Wire(items[4..]);
    assert Wire(items[2..]) == [EMAIL, 8] + CallsignText + Wire(items[3..]);
    assert Wire(items[1..]) == [NAME, |name| as byte] + name + Wire(items[2..]);
  }

  lemma WireOpen(callsign: Text, ip: Text)
    requires |callsign| < 256 && |ip| < 256
    ensures AllOk(OpenItems(callsign, ip))
    ensures Wire(OpenItems(callsign, ip)) ==
      [CNAME, |callsign| as byte] + callsign + [LOC, 4] + OpenText + [EMAIL, |ip| as byte] + ip
  {
    var items := OpenItems(callsign, ip);
    assert items[1..][1..] == items[2..];
    assert Wire(items[2..][1..]) == [];
    assert Wire(items[2..]) == [EMAIL, |ip| as byte] + ip;
    assert Wire(items[1..]) == [LOC, 4] + OpenText + Wire(items[2..]);
  }

  lemma NotedStep(f: Found, items: seq<Item>, k: nat)
    requires k < |items|
    ensures NotedAll(f, items[k..]) == NotedAll(Noted(f, items[k]), items[k + 1..])
  {
    assert items[k..][1..] == items[k + 1..];
  }

  lemma NotedThree(f: Found, items: seq<Item>)
    requires |items| == 3
    ensures NotedAll(f, items) == Noted(Noted(Noted(f, items[0]), items[1]), items[2])
  {
    hide Noted, NotedAll;
    assert items[0..] == items;
    NotedStep(f, items, 0);
    var g := Noted(f, items[0]);
    NotedStep(g, items, 1);
    NotedStep(Noted(g, items[1]), items, 2);
    NotedNone(Noted(Noted(g, items[1]), items[2]), items[3..]);
  }

  lemma NotedNone(f: Found, items: seq<Item>)
    ensures items == [] ==> NotedAll(f, items) == f
  {
  }

  lemma NotedFive(f: Found, items: seq<Item>)
    requires |items| == 5
    ensures NotedAll(f, items) ==
      Noted(Noted(Noted(Noted(Noted(f, items[0]), items[1]), items[2]), items[3]), items[4])
  {
    hide Noted, NotedAll;
    assert items[0..] == items;
    NotedStep(f, items, 0);
    var g := Noted(f, items[0]);
    NotedStep(g, items, 1);
    var h := Noted(g, items[1]);
    NotedStep(h, items, 2);
    var i := Noted(h, items[2]);
    NotedStep(i, items, 3);
    NotedStep(Noted(i, items[3]), items, 4);
    NotedNone(Noted(Noted(i, items[3]), items[4]), items[5..]);
  }

  /** The station packet is read back as the station it describes. */
  lemma StationReadBack(nid: seq<byte>, name: Text, phone: Text)
    requires |nid| == 4 && |name| < 64 && |phone| < 64 && Plain(name)
    ensures AllOk(StationItems(name, phone)) && |Body(StationItems(name, phone))| < 65536
    ensures var b := Compound(nid, StationItems(name, phone));
      |b| % 4 == 0 && Handle(b, 0) == Walk([Station(CallsignText, name)], |b|)
  {
    hide Handle, Read, Clean;
    var items := StationItems(name, phone);
    WireStation(name, phone);
    CompoundWalked(nid, items);
    DescriptionRead(nid, items);
    CleanSame(name, 64);
    CleanSame(CallsignText, 64);
    NotedFive(Nothing, items);
  }

  /** A request to open is always read as one, whatever the callsign and the address. */
  lemma OpenRecognised(nid: seq<byte>, callsign: Text, ip: Text)
    requires |nid| == 4 && |callsign| < 256 && |ip| < 256
    ensures AllOk(OpenItems(callsign, ip)) && |Body(OpenItems(callsign, ip))| < 65536
    ensures var b := Compound(nid, OpenItems(callsign, ip)); |b| % 4 == 0 && Handle(b, 0) == Walk([Open], |b|)
  {
    hide Handle, Read, Clean;
    var items := OpenItems(callsign, ip);
    WireOpen(callsign, ip);
    CompoundWalked(nid, items);
    DescriptionRead(nid, items);
    CleanSame(OpenText, 32);
    NotedThree(Nothing, items);
  }

  // ----------------------------------------------------------------- the loops

  datatype Built = TooSmall | Packet(bytes: seq<byte>)

  /**
   Padding, padding bit and length, written into a description whose items end at its end. It
   starts at a multiple of four in its packet, so its own length tells the padding.
   */
  method FinishSdes(packet: seq<byte>) returns (out: seq<byte>)
    requires 8 <= |packet| < 65536 && packet[0] == 0xC1
    ensures var p := Padding(|packet|); var words := (|packet| + p) / 4 - 1;
      out == [if p > 0 then 0xE1 else 0xC1, packet[1], (words / 256) as byte, (words % 256) as byte] + packet[4..] + Pad(p)
  {
    var pad := (4 - |packet| % 4) % 4;
    out := packet;
    if pad > 0 {
      out := out[0 := 0xE1];
      ghost var marked := out;
      for i := 0 to pad - 1
        invariant out == marked + seq(i, _ => 0)
      {
        out := out + [0];
      }
      out := out + [pad as byte];
      assert out == marked + Pad(pad);
    }
    var words := |out| / 4 - 1;
    out := out[2 := (words / 256) as byte][3 := (words % 256) as byte];
  }

  /** Receiver report and description of this station. */
  method BuildSdes(name: Text, phone: Text, nid: seq<byte>, outlen: nat) returns (r: Built)
    requires |nid| == 4 && |name| < 256 && |phone| < 256   // fields of 32 and 16 bytes
    ensures r.TooSmall? <==> outlen < 128 || 56 + |name| + |phone| > outlen
    ensures r.Packet? ==>
      (AllOk(StationItems(name, phone)) && |Body(StationItems(name, phone))| < 65536
       && r.bytes == Compound(nid, StationItems(name, phone)))
  {
    hide Wire, Body, Description;
    var need := 8 + 8 + (2 + 8) + (2 + |name|) + (2 + 8) + (2 + |phone|) + (2 + 10) + 1 + 3;
    if outlen < 128 || need > outlen {
      return TooSmall;
    }
    var out := [0xC0, RR, 0, 1] + nid;
    var desc := [0xC1, SDES, 0, 0] + nid;
    var items := [CNAME, 8] + CallsignText + [NAME, |name| as byte] + name + [EMAIL, 8] + CallsignText
                 + [PHONE, |phone| as byte] + phone + [TOOL, 10] + ToolText;
    desc := desc + items + [END];
    WireStation(name, phone);
    var done := FinishSdes(desc);
    Finished(nid, StationItems(name, phone), desc, done);
    r := Packet(out + done);
  }

  /** Receiver report and request to open. */
  method BuildFirewallOpen(callsign: Text, ip: Text, nid: seq<byte>, outlen: nat) returns (r: Built)
    requires |nid| == 4 && |callsign| < 256 && |ip| < 256   // fields of 16 bytes
    ensures r.TooSmall? <==> outlen < 128 || callsign == [] || ip == [] || 30 + |callsign| + |ip| > outlen
    ensures r.Packet? ==>
      (AllOk(OpenItems(callsign, ip)) && |Body(OpenItems(callsign, ip))| < 65536
       && r.bytes == Compound(nid, OpenItems(callsign, ip)))
  {
    hide Wire, Body, Description;
    if ip == [] || outlen < 128 || callsign == [] {
      return TooSmall;
    }
    var need := 8 + 8 + (2 + |callsign|) + (2 + 4) + (2 + |ip|) + 1 + 3;
    if need > outlen {
      return TooSmall;
    }
    var out := [0xC0, RR, 0, 1] + nid;
    var desc := [0xC1, SDES, 0, 0] + nid;
    var items := [CNAME, |callsign| as byte] + callsign + [LOC, 4] + OpenText + [EMAIL, |ip| as byte] + ip;
    desc := desc + items + [END];
    WireOpen(callsign, ip);
    var done := FinishSdes(desc);
    Finished(nid, OpenItems(callsign, ip), desc, done);
    r := Packet(out + done);
  }

  lemma Finished(nid: seq<byte>, items: seq<Item>, desc: seq<byte>, done: seq<byte>)
    requires |nid| == 4 && AllOk(items) && |Wire(items)| < 1000
    requires desc == [0xC1, SDES, 0, 0] + nid + Wire(items) + [END]
    requires var p := Padding(|desc|); var words := (|desc| + p) / 4 - 1;
      done == [if p > 0 then 0xE1 else 0xC1, SDES, (words / 256) as byte, (words % 256) as byte] + desc[4..] + Pad(p)
    ensures |Body(items)| < 65536 && done == Description(nid, items)
  {
    hide Wire, Pad, Padding;
    var w := Wire(items);
    assert |desc| == 8 + |w| + 1;
    PaddingShift(|w| + 1);
    var p := Padding(|w| + 1);
    assert Body(items) == w + [END] + Pad(p);
    assert desc[4..] == nid + w + [END];
    assert 1 + |Body(items)| / 4 == (|desc| + p) / 4 - 1;
    assert nid + w + [END] + Pad(p) == nid + Body(items);
  }

  lemma PaddingShift(n: nat)
    ensures Padding(8 + n) == Padding(n)
  {
  }

  /** An item's text as it is kept. */
  method CopyItem(data: Text, cap: nat) returns (dst: Text)
    requires cap > 0
    ensures dst == Clean(data, cap)
  {
    dst := [];
    var i := 0;
    while i < |data| && |dst| + 1 < cap
      invariant i <= |data| && |dst| < cap
      invariant dst + Filtered(data[i..], cap - 1 - |dst|) == Filtered(data, cap - 1)
    {
      var c := data[i];
      assert data[i..][1..] == data[i + 1..];
      if 32 <= c <= 126 {
        ghost var rest := Filtered(data[i + 1..], cap - 2 - |dst|);
        assert dst + ([c] + rest) == dst + [c] + rest;
        dst := dst + [c];
      }
      i := i + 1;
    }
    assert dst == Filtered(data, cap - 1);
    while |dst| > 0 && dst[|dst| - 1] == 32
      invariant Trimmed(dst) == Clean(data, cap)
    {
      dst := dst[..|dst| - 1];
    }
  }

  /** One chunk's items, with a moving offset. */
  method ParseItems(pkt: seq<byte>, start: nat, f: Found) returns (s: Scan)
    requires start <= |pkt|
    ensures s == Items(pkt, start, f)
  {
    hide Clean, Padding;
    var o, found := start, f;
    while o + 1 <= |pkt|
      invariant o <= |pkt|
      invariant Items(pkt, o, found) == Items(pkt, start, f)
      decreases |pkt| - o
    {
      var kind := pkt[o];
      var n := if o + 1 < |pkt| then pkt[o + 1] as nat else 0;
      if kind == END {
        o := SkipPadding(o + 1, |pkt|);
        return Good(o, found);
      }
      if o + 2 + n > |pkt| {
        return Bad;
      }
      var text := pkt[o + 2..o + 2 + n];
      if kind == CNAME {
        var t := CopyItem(text, 64);
        found := found.(cname := t);
      } else if kind == NAME {
        var t := CopyItem(text, 64);
        found := found.(name := t);
      } else if kind == LOC {
        var t := CopyItem(text, 32);
        found := found.(loc := t);
      }
      o := o + 2 + n;
    }
    s := Good(o, found);
  }

  method SkipPadding(start: nat, plen: nat) returns (o: nat)
    requires start <= plen
    ensures o == Align(start, plen)
  {
    o := start;
    while o % 4 != 0 && o < plen
      invariant start <= o <= plen && o <= start + Padding(start)
      decreases plen - o
    {
      o := o + 1;
    }
  }

  /** A source description; every offset stays inside it whatever it holds. */
  method ParseSdes(pkt: seq<byte>) returns (r: Reading)
    ensures r == Read(pkt)
  {
    hide Items;
    if |pkt| < 8 {
      return Ignored;
    }
    var count: nat := pkt[0] as nat % 32;
    var found, o := Nothing, 4;
    while count > 0 && o + 4 <= |pkt|
      invariant 0 <= o <= |pkt|
      invariant Chunks(pkt, o, count, found) == Chunks(pkt, 4, pkt[0] as nat % 32, Nothing)
      decreases count
    {
      var s := ParseItems(pkt, o + 4, found);
      if s.Bad? {
        return Ignored;
      }
      o, found, count := s.o, s.found, count - 1;
    }
    r := if SaysOpen(found.loc) then Open else Station(found.cname, found.name);
  }

  /** A compound packet, packet by packet. */
  method HandleRtcp(data: seq<byte>) returns (readings: seq<Reading>, o: nat)
    ensures Walk(readings, o) == Handle(data, 0)
  {
    hide Read, Handle;
    readings, o := [], 0;
    assert [] + Handle(data, 0).readings == Handle(data, 0).readings;
    while o + 4 <= |data|
      invariant o <= |data|
      invariant var w := Handle(data, o); Walk(readings + w.readings, w.end) == Handle(data, 0)
      decreases |data| - o
    {
      var plen := (data[o + 2] as nat * 256 + data[o + 3] as nat + 1) * 4;
      HandleTurn(data, o, plen);
      if o + plen > |data| {
        break;
      }
      ghost var rest, before := Handle(data, o + plen).readings, readings;
      assert before + (Readings(data, o, plen) + rest) == before + Readings(data, o, plen) + rest;
      if data[o + 1] == SDES {
        var r := ParseSdes(data[o..o + plen]);
        readings := readings + [r];
      }
      o := o + plen;
    }
    HandleEnd(data, o);
    assert readings + [] == readings;
  }

  /** One turn of the walk. */
  lemma HandleTurn(data: seq<byte>, o: nat, plen: nat)
    requires o + 4 <= |data| && plen == (data[o + 2] as nat * 256 + data[o + 3] as nat + 1) * 4
    ensures o + plen > |data| ==> Handle(data, o) == Walk([], o)
    ensures o + plen <= |data| ==> Handle(data, o).end == Handle(data, o + plen).end
    ensures o + plen <= |data| ==> Handle(data, o).readings == Readings(data, o, plen) + Handle(data, o + plen).readings
  {
  }

  /** What is read of the packet of plen bytes at o. */
  function Readings(data: seq<byte>, o: nat, plen: nat): seq<Reading>
    requires o + plen <= |data| && plen >= 4
  {
    if data[o + 1] == SDES then [Read(data[o..o + plen])] else []
  }

  lemma HandleEnd(data: seq<byte>, o: nat)
    requires o <= |data|
    ensures o + 4 > |data| ==> Handle(data, o) == Walk([], o)
  {
  }
}
