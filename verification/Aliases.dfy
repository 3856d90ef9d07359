/**
 The alias index: DMR id to callsign, and callsign to its primary DMR id, in two
 linear-probing tables of one shared power-of-two capacity that grow together.
 */
module Aliases {
  import opened Probing

  const MIN_CAP: nat := 1024
  const KEY_CHARS: nat := 10
  const WORD: nat := 0x1_0000_0000

  // ------------------------------------------------------------------- hashing

  function HashId(id: int): (h: nat)
    ensures h < WORD
  {
    id * 2654435761 % WORD
  }

  /** A byte of a C string as the unsigned value the hash adds. */
  function HashFrom(h: nat, s: string): (r: nat)
    requires h < WORD
    ensures r < WORD
    decreases |s|
  {
    if s == "" then h else HashFrom((h * 33 + s[0] as nat) % WORD, s[1..])
  }

  function HashKey(s: string): (h: nat)
    ensures h < WORD
  {
    HashFrom(5381, s)
  }

  /** The multiplicative hash of ids and the hash of keys, times 33 from 5381. */
  lemma {:induction false} HashesSpelled()
    ensures HashId(1) == 2654435761 && HashKey("A") == 5381 * 33 + 65 && HashKey("AB") == (5381 * 33 + 65) * 33 + 66
  {
    assert "AB"[1..] == "B" && "B"[1..] == "" && "A"[1..] == "";
    assert HashFrom(5381, "AB") == HashFrom(177638, "B") == HashFrom(177638 * 33 + 66, "");
  }

  // ---------------------------------------------------------------------- keys

  predicate Space(c: char) {
    c == ' ' || '\t' <= c <= '\r'
  }

  function Upper(c: char): char {
    if 'a' <= c <= 'z' then c - 32 as char else c
  }

  predicate Suffix(c: char) {
    c == '-' || c == '/'
  }

  function SkipSpace(s: string): (r: string)
    ensures |r| <= |s|
    ensures r != "" ==> !Space(r[0])
    ensures s == "" || !Space(s[0]) ==> r == s
  {
    if s != "" && Space(s[0]) then SkipSpace(s[1..]) else s
  }

  /** Upper-case text up to a suffix mark, at most n characters. */
  function Body(s: string, n: nat): (r: string)
    ensures |r| <= n
    ensures forall i | 0 <= i < |r| :: !Suffix(r[i]) && Upper(r[i]) == r[i]
  {
    if s == "" || n == 0 || Suffix(s[0]) then "" else [Upper(s[0])] + Body(s[1..], n - 1)
  }

  function DropSpace(s: string): (r: string)
    ensures r <= s
    ensures r != "" ==> !Space(r[|r| - 1])
    ensures s == "" || !Space(s[|s| - 1]) ==> r == s
  {
    if s != "" && Space(s[|s| - 1]) then DropSpace(s[..|s| - 1]) else s
  }

  /** The key a callsign is filed under. */
  function Key(s: string): (r: string)
    ensures |r| <= 15 && Upright(r)
  {
    DropSpace(Body(SkipSpace(s), 15))
  }

  lemma {:induction false} BodyFixed(s: string, n: nat)
    requires |s| <= n
    requires forall i | 0 <= i < |s| :: !Suffix(s[i]) && Upper(s[i]) == s[i]
    ensures Body(s, n) == s
    decreases n
  {
    if s != "" {
      assert !Suffix(s[0]) && Upper(s[0]) == s[0];
      BodyFixed(s[1..], n - 1);
    }
  }

  lemma BodyHead(s: string, n: nat)
    requires Body(s, n) != ""
    ensures s != "" && Body(s, n)[0] == Upper(s[0])
  {
  }

  /** A key files under itself, so a stored key looks itself up. */
  lemma KeyIdempotent(s: string)
    ensures Key(Key(s)) == Key(s)
  {
    var b := Body(SkipSpace(s), 15);
    var k := Key(s);
    if k != "" {
      BodyHead(SkipSpace(s), 15);
      assert k[0] == b[0];
      BodyFixed(k, 15);
    }
  }

  // What a key does not depend on.

  lemma {:induction false} SkipBefore(b: string, t: string)
    requires t != "" && !Space(t[0])
    ensures SkipSpace(b + t) == SkipSpace(b) + t
  {
    if b == "" {
      assert b + t == t;
    } else if Space(b[0]) {
      SkipBefore(b[1..], t);
      assert (b + t)[1..] == b[1..] + t;
    }
  }

  lemma {:induction false} BodyStops(b: string, t: string, n: nat)
    requires t != "" && Suffix(t[0])
    ensures Body(b + t, n) == Body(b, n)
    decreases n
  {
    if b == "" {
      assert b + t == t;
    } else if n > 0 && !Suffix(b[0]) {
      BodyStops(b[1..], t, n - 1);
      assert (b + t)[1..] == b[1..] + t;
    }
  }

  /** A suffix mark and what follows it do not count, wherever it stands. */
  lemma {:induction false} KeyWithoutSuffix(b: string, m: char, r: string)
    requires m == '-' || m == '/'
    ensures Key(b + [m] + r) == Key(b)
  {
    var t := [m] + r;
    assert b + [m] + r == b + t;
    SkipBefore(b, t);
    BodyStops(SkipSpace(b), t, 15);
  }

  /** The same text but for the case of its letters. */
  predicate SameLetters(s: string, t: string) {
    |s| == |t| && forall i | 0 <= i < |s| :: SameLetter(s[i], t[i])
  }

  predicate SameLetter(c: char, d: char) {
    c == d || ('a' <= c <= 'z' && d as int == c as int - 32) || ('a' <= d <= 'z' && c as int == d as int - 32)
  }

  lemma {:induction false} SameSkip(s: string, t: string)
    requires SameLetters(s, t)
    ensures SameLetters(SkipSpace(s), SkipSpace(t))
  {
    if s != "" {
      assert SameLetter(s[0], t[0]);
      SameSkip(s[1..], t[1..]);
    }
  }

  lemma {:induction false} SameBody(s: string, t: string, n: nat)
    requires SameLetters(s, t)
    ensures Body(s, n) == Body(t, n)
    decreases n
  {
    if s != "" && n > 0 {
      assert SameLetter(s[0], t[0]) && SameLetters(s[1..], t[1..]);
      SameBody(s[1..], t[1..], n - 1);
    }
  }

  /** Nor does the case of letters. */
  lemma {:induction false} KeyIgnoresCase(s: string, t: string)
    requires SameLetters(s, t)
    ensures Key(s) == Key(t)
  {
    SameSkip(s, t);
    SameBody(SkipSpace(s), SkipSpace(t), 15);
  }

  lemma {:induction false} BodyThenSpace(s: string, n: nat)
    ensures Body(s + " ", n) == Body(s, n) || Body(s + " ", n) == Body(s, n) + " "
    decreases n
  {
    if s == "" {
      assert s + " " == " " && " "[1..] == "";
    } else if n > 0 && !Suffix(s[0]) {
      BodyThenSpace(s[1..], n - 1);
      assert (s + " ")[1..] == s[1..] + " ";
      assert Body(s, n) == [Upper(s[0])] + Body(s[1..], n - 1);
      assert Body(s + " ", n) == [Upper(s[0])] + Body(s[1..] + " ", n - 1);
      assert [Upper(s[0])] + (Body(s[1..], n - 1) + " ") == Body(s, n) + " ";
    }
  }

  lemma {:induction false} SkipThenSpace(s: string)
    ensures SkipSpace(s + " ") == if SkipSpace(s) == "" then "" else SkipSpace(s) + " "
  {
    if s == "" {
      assert s + " " == " " && " "[1..] == "";
    } else if Space(s[0]) {
      SkipThenSpace(s[1..]);
      assert (s + " ")[1..] == s[1..] + " ";
    }
  }

  /** Nor do spaces on either side. */
  lemma {:induction false} KeyIgnoresPadding(s: string)
    ensures Key(" " + s) == Key(s) == Key(s + " ")
  {
    assert (" " + s)[1..] == s;
    var b := SkipSpace(s);
    SkipThenSpace(s);
    BodyThenSpace(b, 15);
    assert (Body(b, 15) + " ")[..|Body(b, 15)|] == Body(b, 15);
  }

  /** Text of at most fifteen characters with nothing to take away is its own key. */
  lemma {:induction false} KeyWhole(s: string)
    requires |s| <= 15 && forall i | 0 <= i < |s| :: !Suffix(s[i]) && !Space(s[i]) && !('a' <= s[i] <= 'z')
    ensures Key(s) == s
  {
    BodyFixed(s, 15);
  }

  method Skip(src: string) returns (p: nat)
    ensures p <= |src| && src[p..] == SkipSpace(src)
  {
    p := 0;
    while p < |src| && Space(src[p])
      invariant p <= |src|
      invariant SkipSpace(src[p..]) == SkipSpace(src)
    {
      assert src[p..][1..] == src[p + 1..];
      p := p + 1;
    }
  }

  method CopyUpper(src: string) returns (key: string)
    ensures key == Body(src, 15)
  {
    key := "";
    var p := 0;
    while p < |src| && |key| + 1 < 16 && !Suffix(src[p])
      invariant p == |key| <= |src| && |key| <= 15
      invariant key + Body(src[p..], 15 - |key|) == Body(src, 15)
    {
      ghost var rest := Body(src[p + 1..], 14 - |key|);
      assert src[p..][1..] == src[p + 1..];
      assert Body(src[p..], 15 - |key|) == [Upper(src[p])] + rest;
      assert key + ([Upper(src[p])] + rest) == key + [Upper(src[p])] + rest;
      key, p := key + [Upper(src[p])], p + 1;
    }
  }

  method Trim(src: string) returns (key: string)
    ensures key == DropSpace(src)
  {
    key := src;
    while |key| > 0 && Space(key[|key| - 1])
      invariant DropSpace(key) == DropSpace(src)
    {
      key := key[..|key| - 1];
    }
  }

  method NormalizeKey(src: string) returns (key: string)
    ensures key == Key(src)
  {
    var p := Skip(src);
    key := CopyUpper(src[p..]);
    key := Trim(key);
  }

  // --------------------------------------------------------------- capacities

  /** The capacities next_pow2 can return. */
  predicate Capacity(c: nat)
    decreases c
  {
    c == MIN_CAP || (c > MIN_CAP && c % 2 == 0 && Capacity(c / 2))
  }

  /** The least capacity that is at least n. */
  method NextPow2(n: nat) returns (c: nat)
    ensures Capacity(c) && n <= c
    ensures forall d: nat | Capacity(d) && n <= d :: c <= d
  {
    c := MIN_CAP;
    if n < MIN_CAP {
      forall d: nat | Capacity(d) ensures c <= d {}
      return;
    }
    while c < n
      invariant Capacity(c)
      invariant forall d: nat | Capacity(d) && n <= d :: c <= d
      decreases n - c
    {
      forall d: nat | Capacity(d) && n <= d ensures 2 * c <= d {
        CapacitiesDouble(c, d);
      }
      c := 2 * c;
    }
  }

  lemma {:induction false} CapacitiesDouble(c: nat, d: nat)
    requires Capacity(c) && Capacity(d) && c < d
    ensures 2 * c <= d
    decreases c
  {
    if c > MIN_CAP {
      CapacitiesDouble(c / 2, d / 2);
    } else {
      CapacityLeast(d / 2);
    }
  }

  lemma CapacityLeast(c: nat)
    requires Capacity(c)
    ensures MIN_CAP <= c
  {
  }

  lemma DoubleCapacity(c: nat)
    requires Capacity(c)
    ensures Capacity(2 * c)
  {
    CapacityLeast(c);
  }

  /** True when another id would fill 70 per cent of the table. */
  predicate MustGrow(count: nat, cap: nat) {
    cap == 0 || (count + 1) * 10 >= cap * 7
  }

  // ------------------------------------------------------- the maps the index is

  /** What the tables bind, as long as no key was cut short: see Tables. */
  datatype Maps = Maps(byId: map<int, string>, byCs: map<string, int>)

  /** A record of a file, and whether memory for a larger table can be had when it is filed. */
  datatype Entry = Entry(id: int, text: string, alloc: bool)

  predicate Usable(e: Entry) {
    e.id > 0 && e.text != "" && Key(e.text) != ""
  }

  /** The callsign table, slot by slot. */
  type Callsigns = seq<Slot<string, int>>

  /**
   What the records filed so far have left: their ids and callsigns, the capacity of the two tables, the
   callsign table, and whether a callsign longer than a slot was filed. Until then the callsign table
   binds what byCs does (see Consistent); from then on only its slots count.
   */
  datatype Tables = Tables(maps: Maps, cap: nat, cs: Callsigns, cut: bool)

  const NoTables := Tables(Maps(map[], map[]), 0, [], false)

  /** The capacity a put of an id leaves. */
  function Grown(count: nat, cap: nat): nat {
    if !MustGrow(count, cap) then cap else if cap == 0 then MIN_CAP else 2 * cap
  }

  lemma GrownRoom(count: nat, cap: nat)
    ensures Grown(count, cap) >= cap && Grown(count, cap) > 0
    ensures Grown(count, cap) > cap <==> MustGrow(count, cap)
  {
  }

  /** The part of a key that a slot holds. */
  function Cut(key: string): (r: string)
    ensures |r| <= KEY_CHARS && r <= key
  {
    if |key| <= KEY_CHARS then key else key[..KEY_CHARS]
  }

  /** The id of the record finds room. */
  predicate Lands(t: Tables, e: Entry) {
    e.alloc || !MustGrow(|t.maps.byId|, t.cap)
  }

  function NewCap(t: Tables, e: Entry): nat {
    if e.alloc then Grown(|t.maps.byId|, t.cap) else t.cap
  }

  /** The callsign table in the tables of capacity cap. */
  ghost function Regrown(cs: Callsigns, cap: nat): (r: Callsigns)
    ensures |r| == if cap > |cs| then cap else |cs|
  {
    if cap > |cs| then Moved(cs, HashKey, |cs|, cap) else cs
  }

  /** The callsign table after a put of key k: the first slot that is free takes what fits of it, the
      first that holds it takes the id if the record is preferred. */
  ghost function Stored(cs: Callsigns, k: string, id: int, prefer: bool): (r: Callsigns)
    ensures |r| == |cs|
  {
    if !HasStop(cs, k) then cs
    else
      var p := StopAt(cs, k, HashKey(k));
      if cs[p].Empty? then cs[p := Full(Cut(k), id)] else if prefer then cs[p := Full(k, id)] else cs
  }

  /** What one record does: if there is room the id takes the new callsign, and in any case the callsign
      takes the new id when it has none or the record comes from the local overlay. */
  ghost function Filed(t: Tables, e: Entry, prefer: bool): Tables {
    if !Usable(e) then t
    else
      var k, m, cap := Key(e.text), t.maps, NewCap(t, e);
      Tables(Maps(if Lands(t, e) then m.byId[e.id := Cut(k)] else m.byId,
                  if cap > 0 && (prefer || k !in m.byCs) then m.byCs[k := e.id] else m.byCs),
             cap, Stored(Regrown(t.cs, cap), k, e.id, prefer), t.cut || (cap > 0 && |k| > KEY_CHARS))
  }

  ghost function FiledAll(t: Tables, es: seq<Entry>, prefer: bool): Tables {
    if es == [] then t else Filed(FiledAll(t, es[..|es| - 1], prefer), es[|es| - 1], prefer)
  }

  /** The put of the record's callsign ends: there is no table yet, or some slot of the one it is looked
      for in is free or holds it. */
  ghost predicate Ends(t: Tables, e: Entry) {
    !Usable(e) || NewCap(t, e) == 0 || HasStop(Regrown(t.cs, NewCap(t, e)), Key(e.text))
  }

  ghost predicate HasKey(cs: Callsigns, k: string) {
    exists p: nat :: p < |cs| && cs[p].Full? && cs[p].key == k
  }

  /** There is room for key k in a callsign table that will have cap slots: fewer are in use, or one holds it. */
  ghost predicate RoomFor(cs: Callsigns, k: string, cap: nat) {
    Used(cs, |cs|) < cap || HasKey(cs, k)
  }

  /** What can be checked of the tables before the record is filed: there will be no table, or there is room
      for its callsign. EndsIff shows that this is when its put ends. */
  ghost predicate Room(t: Tables, e: Entry) {
    !Usable(e) || NewCap(t, e) == 0 || RoomFor(t.cs, Key(e.text), NewCap(t, e))
  }

  lemma StopIff(cs: Callsigns, k: string)
    ensures HasStop(cs, k) <==> RoomFor(cs, k, |cs|)
  {
    UsedAll(cs, |cs|);
    if HasKey(cs, k) {
      var p: nat :| p < |cs| && cs[p].Full? && cs[p].key == k;
      assert Stops(cs, k, p);
    } else if Used(cs, |cs|) < |cs| {
      var p: nat :| p < |cs| && !cs[p].Full?;
      assert Stops(cs, k, p);
    }
  }

  /** A put finds its slot after growth exactly when there was room before it. */
  lemma RegrownStopIff(cs: Callsigns, k: string, cap: nat)
    requires |cs| <= cap
    ensures HasStop(Regrown(cs, cap), k) <==> RoomFor(cs, k, cap)
  {
    hide HasStop, HasKey, Moved, HashKey;
    StopIff(Regrown(cs, cap), k);
  }

  /** The put of a record's callsign ends if and only if there is room for it. */
  lemma EndsIff(t: Tables, e: Entry)
    requires |t.cs| == t.cap
    ensures Ends(t, e) <==> Room(t, e)
  {
    hide HasStop, Regrown, RoomFor, Key;
    GrownRoom(|t.maps.byId|, t.cap);
    RegrownStopIff(t.cs, Key(e.text), NewCap(t, e));
  }

  /** As long as no key was cut short that is: the callsign has an id, or there are fewer callsigns than
      the tables will have slots. */
  lemma RoomIff(t: Tables, e: Entry)
    requires Consistent(t) && !t.cut && Usable(e)
    ensures var c := NewCap(t, e); Room(t, e) <==> c == 0 || Key(e.text) in t.maps.byCs || |t.maps.byCs| < c
  {
    hide Represents, HasStop, StopAt, HasKey, KeysFit, HashKey, Key, Used;
    GrownRoom(|t.maps.byId|, t.cap);
    StopIff(t.cs, Key(e.text));
    FoundIsBound(t.cs, HashKey, t.maps.byCs, Key(e.text));
    FullTable(t.cs, t.maps.byCs);
  }

  lemma FullTable(cs: Callsigns, m: map<string, int>)
    requires Represents(cs, HashKey, m)
    ensures |m| <= |cs|
  {
    FullIff(cs, m);
  }

  /** In upper case already. */
  predicate Upright(s: string) {
    forall i | 0 <= i < |s| :: Upper(s[i]) == s[i]
  }

  /** Ids are positive; keys are not empty and fit a slot. */
  ghost predicate Sound(m: Maps) {
    && "" !in m.byCs
    && (forall id | id in m.byId :: id > 0 && |m.byId[id]| <= KEY_CHARS && Upright(m.byId[id]))
  }

  ghost predicate KeysFit(cs: Callsigns) {
    forall p: nat | p < |cs| && cs[p].Full? :: 0 < |cs[p].key| <= KEY_CHARS
  }

  /** The ids stay below 70 per cent of the capacity. */
  ghost predicate Bounded(t: Tables) {
    if t.cap == 0 then |t.maps.byId| == 0 else Capacity(t.cap) && |t.maps.byId| * 10 < t.cap * 7
  }

  /** As long as no key was cut short, the callsign table stores the map. */
  ghost predicate Consistent(t: Tables) {
    |t.cs| == t.cap && KeysFit(t.cs) && (!t.cut ==> Represents(t.cs, HashKey, t.maps.byCs))
  }

  /** There is room for every callsign of the file when its turn comes. DistinctIdsLoad and BalancedLoads
      show it of ordinary files from their records alone. */
  ghost predicate Loadable(t: Tables, es: seq<Entry>, prefer: bool) {
    forall i | 0 <= i < |es| :: Room(FiledAll(t, es[..i], prefer), es[i])
  }

  /** The id that a lookup of key k finds in the callsign table, 0 when it finds none. */
  ghost function Primary(cs: Callsigns, k: string): int {
    if k != "" && HasStop(cs, k) && cs[StopAt(cs, k, HashKey(k))].Full? then cs[StopAt(cs, k, HashKey(k))].val else 0
  }

  lemma RoomKept(t: Tables, e: Entry)
    requires Room(t, e) && Usable(e) && |t.cs| == t.cap && NewCap(t, e) > 0
    ensures RoomFor(Regrown(t.cs, NewCap(t, e)), Key(e.text), NewCap(t, e))
  {
    hide RoomFor, HasStop, Regrown, Key;
    GrownRoom(|t.maps.byId|, t.cap);
    RegrownStopIff(t.cs, Key(e.text), NewCap(t, e));
    StopIff(Regrown(t.cs, NewCap(t, e)), Key(e.text));
  }

  lemma StoredSame(cs: Callsigns, m: map<string, int>, k: string, id: int, prefer: bool)
    requires Represents(cs, HashKey, m) && |k| <= KEY_CHARS && (cs == [] || HasStop(cs, k))
    ensures Represents(Stored(cs, k, id, prefer), HashKey,
                       if cs != [] && (prefer || k !in m) then m[k := id] else m)
  {
    hide Represents, StopAt, HashKey;
    if HasStop(cs, k) {
      FoundIsBound(cs, HashKey, m, k);
      StoreRepresents(cs, HashKey, m, k, id);
    }
  }

  lemma StoredFits(cs: Callsigns, k: string, id: int, prefer: bool)
    requires KeysFit(cs) && k != ""
    ensures KeysFit(Stored(cs, k, id, prefer))
  {
    hide HashKey;
  }

  lemma {:induction false} MovedFits(cs: Callsigns, n: nat, cap: nat)
    requires KeysFit(cs) && n <= |cs| < cap
    ensures KeysFit(Moved(cs, HashKey, n, cap))
    decreases n
  {
    hide HashKey;
    if n > 0 {
      MovedFits(cs, n - 1, cap);
    }
  }

  /** Filing a record keeps the callsign table and the map together. */
  lemma FiledKeeps(t: Tables, e: Entry, prefer: bool)
    requires Consistent(t) && Room(t, e)
    ensures Consistent(Filed(t, e, prefer))
  {
    hide Represents, KeysFit, HasStop, RoomFor, Moved, Stored, HashKey, Key;
    EndsIff(t, e);
    if Usable(e) {
      var k, cap := Key(e.text), NewCap(t, e);
      GrownRoom(|t.maps.byId|, t.cap);
      if cap > |t.cs| {
        MovedFits(t.cs, |t.cs|, cap);
        if !t.cut {
          MovedSame(t.cs, HashKey, cap, t.maps.byCs);
        }
      }
      var cs := Regrown(t.cs, cap);
      StoredFits(cs, k, e.id, prefer);
      if !t.cut && cap == 0 {
        StoredNowhere(cs, k, e.id, prefer);
      } else if !t.cut && |k| <= KEY_CHARS {
        StoredSame(cs, t.maps.byCs, k, e.id, prefer);
      }
    }
  }

  lemma StoredNowhere(cs: Callsigns, k: string, id: int, prefer: bool)
    requires cs == []
    ensures Stored(cs, k, id, prefer) == cs
  {
  }

  lemma {:induction false} AllKeep(t: Tables, es: seq<Entry>, prefer: bool)
    requires Consistent(t) && Loadable(t, es, prefer)
    ensures Consistent(FiledAll(t, es, prefer))
  {
    hide Consistent, Filed, Room;
    if es != [] {
      var front := es[..|es| - 1];
      forall i | 0 <= i < |front| ensures Room(FiledAll(t, front[..i], prefer), front[i]) {
        assert front[..i] == es[..i];
      }
      AllKeep(t, front, prefer);
      FiledKeeps(FiledAll(t, front, prefer), es[|es| - 1], prefer);
    }
  }

  /** With no key cut short, a lookup finds what the map binds. */
  lemma PrimaryIsBound(t: Tables, k: string)
    requires Consistent(t) && !t.cut && "" !in t.maps.byCs
    ensures Primary(t.cs, k) == if k in t.maps.byCs then t.maps.byCs[k] else 0
  {
    hide Represents, StopAt, HashKey, KeysFit;
    FoundIsBound(t.cs, HashKey, t.maps.byCs, k);
  }

  class Index {
    var idTab: array<Slot<int, string>>
    var csTab: array<Slot<string, int>>
    var cap: nat
    var count: nat
    ghost var maps: Maps
    ghost var cut: bool

    ghost predicate Valid()
      reads this, idTab, csTab
    {
      && idTab as object != csTab
      && idTab.Length == cap
      && count == |maps.byId| && Sound(maps) && Bounded(Now())
      && Represents(idTab[..], HashId, maps.byId)
      && Consistent(Now())
    }

    ghost function Now(): Tables
      reads this, csTab
    {
      Tables(maps, cap, csTab[..], cut)
    }

    constructor ()
      ensures Valid() && fresh(idTab) && fresh(csTab)
      ensures Now() == NoTables
    {
      idTab, csTab := new Slot<int, string>[0], new Slot<string, int>[0];
      cap, count := 0, 0;
      maps, cut := Maps(map[], map[]), false;
    }

    /** Both tables move to the larger capacity, slot by slot; neither map changes. */
    method Grow(newCap: nat)
      requires Valid() && Capacity(newCap) && cap < newCap
      modifies this
      ensures Valid() && cap == newCap && fresh(idTab) && fresh(csTab)
      ensures Now() == old(Now()).(cap := newCap, cs := Regrown(old(csTab[..]), newCap)) && count == old(count)
    {
      hide Represents, KeysFit, Moved, Capacity, HashKey, HashId;
      var nid := new Slot<int, string>[newCap](_ => Empty);
      var ncs := new Slot<string, int>[newCap](_ => Empty);
      Rehash(idTab, nid, HashId);
      Rehash(csTab, ncs, HashKey);
      MovedSame(idTab[..], HashId, newCap, maps.byId);
      MovedFits(csTab[..], csTab.Length, newCap);
      if !cut {
        MovedSame(csTab[..], HashKey, newCap, maps.byCs);
      }
      idTab, csTab, cap := nid, ncs, newCap;
    }

    /** Room for one more id below the load limit, unless an allocation fails. */
    method EnsureCap(alloc: bool) returns (ok: bool)
      requires Valid()
      modifies this
      ensures Valid() && count == old(count)
      ensures ok <==> alloc || !MustGrow(old(count), old(cap))
      ensures ok ==> !MustGrow(count, cap)
      ensures var c := if alloc then Grown(old(count), old(cap)) else old(cap);
        Now() == old(Now()).(cap := c, cs := Regrown(old(csTab[..]), c))
      ensures if cap > old(cap) then fresh(idTab) && fresh(csTab) else idTab == old(idTab) && csTab == old(csTab)
    {
      hide Represents, KeysFit, Moved;
      if cap == 0 {
        if alloc {
          Grow(MIN_CAP);
        }
        return alloc;
      }
      if (count + 1) * 10 < cap * 7 {
        return true;
      }
      var c := NextPow2(cap + 1);
      CapacitiesDouble(cap, c);
      DoubleCapacity(cap);
      if alloc {
        Grow(c);
      }
      ok := alloc;
    }

    /** Binds id to what a slot holds of key, if there is room; the count is that of the ids. */
    method PutId(id: int, key: string, alloc: bool) returns (added: bool)
      requires Valid() && id > 0 && Upright(key)
      modifies this, idTab
      ensures Valid() && (fresh(idTab) || idTab == old(idTab)) && (fresh(csTab) || csTab == old(csTab))
      ensures var c := if alloc then Grown(old(count), old(cap)) else old(cap);
        var lands := alloc || !MustGrow(old(count), old(cap));
        && added == (lands && id !in old(maps.byId))
        && Now() == Tables(if lands then old(maps).(byId := old(maps.byId)[id := Cut(key)]) else old(maps), c,
                           Regrown(old(csTab[..]), c), old(cut))
    {
      hide Represents, Consistent, Moved;
      var ok := EnsureCap(alloc);
      if !ok {
        return false;
      }
      IdStops();
      var h, n := Probe(idTab, HashId, id);
      added := WriteId(h, n, id, Cut(key));
    }

    /** The load limit leaves a free slot for every id. */
    ghost method IdStops()
      requires Valid() && !MustGrow(count, cap)
      ensures forall id: int :: HasStop(idTab[..], id)
    {
      hide Represents, HasStop, StopAt;
      forall id: int ensures HasStop(idTab[..], id) {
        FoundIsBound(idTab[..], HashId, maps.byId, id);
      }
    }

    method WriteId(h: nat, ghost n: nat, id: int, key: string) returns (added: bool)
      requires Valid() && !MustGrow(count, cap) && id > 0 && |key| <= KEY_CHARS && Upright(key)
      requires h < cap && h == At(cap, HashId(id), n)
      requires Passed(idTab[..], id, HashId(id), n) && Stops(idTab[..], id, h)
      modifies this`count, this`maps, idTab
      ensures Valid() && added == (id !in old(maps.byId))
      ensures Now() == old(Now()).(maps := old(maps).(byId := old(maps.byId)[id := key]))
    {
      hide Represents, Passed, HashId, At, Stops, Capacity, KeysFit;
      ghost var t, c := idTab[..], csTab[..];
      PutRepresents(t, HashId, maps.byId, id, key, n);
      FoundIff(t, HashId, maps.byId, id, n);
      added := idTab[h].Empty?;
      idTab[h] := Full(id, key);
      if added {
        count := count + 1;
      }
      assert idTab[..] == t[h := Full(id, key)] && csTab[..] == c;
      maps := maps.(byId := maps.byId[id := key]);
    }

    /** Binds key to id if it has no id yet, or in any case when the record is preferred. A key longer
        than a slot is cut when it is stored, and not when it is looked for. */
    method PutCs(id: int, key: string, prefer: bool)
      requires Valid() && key != "" && (cap == 0 || RoomFor(csTab[..], key, cap))
      modifies this`maps, this`cut, csTab
      ensures Valid()
      ensures Now() == Tables(if cap > 0 && (prefer || key !in old(maps.byCs))
                              then old(maps).(byCs := old(maps.byCs)[key := id]) else old(maps),
                              cap, Stored(old(csTab[..]), key, id, prefer), old(cut) || (cap > 0 && |key| > KEY_CHARS))
    {
      hide Represents, HashKey, Capacity, KeysFit, Stored, HasStop, RoomFor, StopAt, Passed, Stops;
      if cap == 0 {
        return;
      }
      StopIff(csTab[..], key);
      ghost var before := Now();
      WriteCs(id, key, prefer);
      StoredFits(before.cs, key, id, prefer);
      if !cut && |key| <= KEY_CHARS {
        StoredSame(before.cs, maps.byCs, key, id, prefer);
      }
      if prefer || key !in maps.byCs {
        maps := maps.(byCs := maps.byCs[key := id]);
      }
      cut := cut || |key| > KEY_CHARS;
    }

    /** The first slot that is free takes what fits of the key, the first that holds it takes the id of
        a preferred record. */
    method WriteCs(id: int, key: string, prefer: bool)
      requires HasStop(csTab[..], key) && idTab as object != csTab
      modifies csTab
      ensures csTab[..] == Stored(old(csTab[..]), key, id, prefer) && idTab[..] == old(idTab[..])
    {
      hide HashKey, HasStop, StopAt, Passed;
      ghost var t, d := csTab[..], idTab[..];
      var h, n := Probe(csTab, HashKey, key);
      assert Stops(t, key, h);
      if csTab[h].Empty? {
        csTab[h] := Full(Cut(key), id);
      } else if prefer {
        csTab[h] := Full(key, id);
      }
      assert idTab[..] == d;
    }

    /** A record of the subscriber file: the first id of a callsign stays its primary id. */
    method Insert(e: Entry)
      requires Valid() && Room(Now(), e)
      modifies this, idTab, csTab
      ensures Valid() && (fresh(idTab) || idTab == old(idTab)) && (fresh(csTab) || csTab == old(csTab))
      ensures Now() == Filed(old(Now()), e, false)
    {
      hide Represents, Capacity, HasStop, RoomFor, KeysFit, Stored, Regrown;
      if e.id <= 0 || e.text == "" {
        return;
      }
      var key := NormalizeKey(e.text);
      if key == "" {
        return;
      }
      var added := PutId(e.id, key, e.alloc);
      if cap > 0 {
        RoomKept(old(Now()), e);
      }
      PutCs(e.id, key, false);
    }

    /** A record of the local overlay: its id becomes the primary id of its callsign. */
    method Upsert(e: Entry)
      requires Valid() && Room(Now(), e)
      modifies this, idTab, csTab
      ensures Valid() && (fresh(idTab) || idTab == old(idTab)) && (fresh(csTab) || csTab == old(csTab))
      ensures Now() == Filed(old(Now()), e, true)
    {
      hide Represents, Capacity, HasStop, RoomFor, KeysFit, Stored, Regrown;
      if e.id <= 0 || e.text == "" {
        return;
      }
      var key := NormalizeKey(e.text);
      if key == "" {
        return;
      }
      var added := PutId(e.id, key, e.alloc);
      if cap > 0 {
        RoomKept(old(Now()), e);
      }
      PutCs(e.id, key, true);
    }

    /** The records of one file in order, across every growth of the tables. */
    method Load(es: seq<Entry>, overlay: bool)
      requires Valid() && Loadable(Now(), es, overlay)
      modifies this, idTab, csTab
      ensures Valid()
      ensures Now() == FiledAll(old(Now()), es, overlay)
    {
      hide Represents, Capacity, Key, Consistent, Filed, Room;
      for i := 0 to |es|
        invariant Valid()
        invariant fresh(idTab) || idTab == old(idTab)
        invariant fresh(csTab) || csTab == old(csTab)
        invariant Now() == FiledAll(old(Now()), es[..i], overlay)
      {
        assert es[..i + 1][..i] == es[..i];
        assert FiledAll(old(Now()), es[..i + 1], overlay) == Filed(Now(), es[i], overlay);
        if overlay {
          Upsert(es[i]);
        } else {
          Insert(es[i]);
        }
      }
      assert es[..|es|] == es;
    }

    /** The primary id of a callsign, 0 when it has none. */
    method LookupId(callsign: string) returns (id: int)
      requires Valid()
      ensures id == Primary(csTab[..], Key(callsign))
      ensures !cut ==> id == if Key(callsign) in maps.byCs then maps.byCs[Key(callsign)] else 0
    {
      hide Represents, StopAt, KeysFit;
      if !cut {
        PrimaryIsBound(Now(), Key(callsign));
      }
      if cap == 0 || callsign == "" {
        return 0;
      }
      var key := NormalizeKey(callsign);
      if key == "" {
        return 0;
      }
      var found, v := Find(csTab, HashKey, key);
      id := if found then v else 0;
    }

    /** The callsign of an id, padded with spaces to ten characters. */
    method LookupCallsign(dmrid: int, out: array<char>) returns (found: bool)
      requires Valid() && out.Length == KEY_CHARS
      requires out as object != this && out as object != idTab && out as object != csTab
      modifies out
      ensures found <==> dmrid in maps.byId
      ensures found ==> out[..] == Padded(maps.byId[dmrid])
      ensures !found ==> out[..] == if cap == 0 || dmrid <= 0 then old(out[..]) else Padded("")
    {
      hide Represents, StopAt, Consistent;
      FoundIsBound(idTab[..], HashId, maps.byId, dmrid);
      if cap == 0 || dmrid <= 0 {
        return false;
      }
      var f, v := Find(idTab, HashId, dmrid);
      found := f;
      FillPadded(out, if found then v else "");
    }
  }

  /** A callsign field: the text, then spaces. */
  function Padded(s: string): (r: string)
    requires |s| <= KEY_CHARS
    ensures |r| == KEY_CHARS
  {
    s + seq(KEY_CHARS - |s|, _ => ' ')
  }

  method FillPadded(out: array<char>, s: string)
    requires out.Length == KEY_CHARS && |s| <= KEY_CHARS && Upright(s)
    modifies out
    ensures out[..] == Padded(s)
  {
    for i := 0 to KEY_CHARS
      invariant forall j | 0 <= j < i :: out[j] == ' '
    {
      out[i] := ' ';
    }
    for i := 0 to |s|
      invariant forall j | 0 <= j < KEY_CHARS :: out[j] == if j < i then s[j] else ' '
    {
      out[i] := Upper(s[i]);
    }
  }

  // ------------------------------------------------- what a whole file amounts to

  predicate Names(e: Entry, id: int) {
    Usable(e) && e.id == id
  }

  predicate Carries(e: Entry, k: string) {
    Usable(e) && Key(e.text) == k
  }

  /** An id has the callsign of the last record that names it, if that found room. */
  lemma {:induction false} IdHasLastCallsign(t: Tables, es: seq<Entry>, prefer: bool, j: nat)
    requires j < |es| && Usable(es[j]) && Lands(FiledAll(t, es[..j], prefer), es[j])
    requires forall i | j < i < |es| :: !Names(es[i], es[j].id)
    ensures es[j].id in FiledAll(t, es, prefer).maps.byId
    ensures FiledAll(t, es, prefer).maps.byId[es[j].id] == Cut(Key(es[j].text))
  {
    hide Key, Regrown, Stored, Lands;
    if j < |es| - 1 {
      assert !Names(es[|es| - 1], es[j].id);
      assert es[..|es| - 1][..j] == es[..j];
      IdHasLastCallsign(t, es[..|es| - 1], prefer, j);
    }
  }

  /** An id that no record names keeps what it had. */
  lemma {:induction false} UnnamedId(t: Tables, es: seq<Entry>, prefer: bool, id: int)
    requires forall i | 0 <= i < |es| :: !Names(es[i], id)
    ensures id in FiledAll(t, es, prefer).maps.byId <==> id in t.maps.byId
    ensures id in t.maps.byId ==> FiledAll(t, es, prefer).maps.byId[id] == t.maps.byId[id]
  {
    hide Key, Regrown, Stored, Lands;
    if es != [] {
      UnnamedId(t, es[..|es| - 1], prefer, id);
      assert !Names(es[|es| - 1], id);
    }
  }

  /** A callsign has the id it had before the subscriber file, or that of the first
      record that carries it, if there is a table by then. */
  lemma {:induction false} CallsignHasFirstId(t: Tables, es: seq<Entry>, j: nat)
    requires j < |es| && Usable(es[j]) && NewCap(FiledAll(t, es[..j], false), es[j]) > 0
    requires forall i | 0 <= i < j :: !Carries(es[i], Key(es[j].text))
    ensures var k := Key(es[j].text); var w := FiledAll(t, es, false);
      k in w.maps.byCs && w.maps.byCs[k] == if k in t.maps.byCs then t.maps.byCs[k] else es[j].id
  {
    hide Key, Regrown, Stored, NewCap;
    var front := es[..|es| - 1];
    if j < |es| - 1 {
      assert front[..j] == es[..j];
      CallsignHasFirstId(t, front, j);
    } else {
      UncarriedCallsign(t, front, false, Key(es[j].text));
    }
  }

  /** A callsign the local overlay carries has the id of the last record that carries it. */
  lemma {:induction false} OverlayWins(t: Tables, es: seq<Entry>, j: nat)
    requires j < |es| && Usable(es[j]) && NewCap(FiledAll(t, es[..j], true), es[j]) > 0
    requires forall i | j < i < |es| :: !Carries(es[i], Key(es[j].text))
    ensures var k := Key(es[j].text); var w := FiledAll(t, es, true); k in w.maps.byCs && w.maps.byCs[k] == es[j].id
  {
    hide Key, Regrown, Stored, NewCap;
    if j < |es| - 1 {
      assert !Carries(es[|es| - 1], Key(es[j].text));
      assert es[..|es| - 1][..j] == es[..j];
      OverlayWins(t, es[..|es| - 1], j);
    }
  }

  /** A callsign that no record carries keeps what it had. */
  lemma {:induction false} UncarriedCallsign(t: Tables, es: seq<Entry>, prefer: bool, k: string)
    requires forall i | 0 <= i < |es| :: !Carries(es[i], k)
    ensures k in FiledAll(t, es, prefer).maps.byCs <==> k in t.maps.byCs
    ensures k in t.maps.byCs ==> FiledAll(t, es, prefer).maps.byCs[k] == t.maps.byCs[k]
  {
    hide Key, Regrown, Stored, NewCap;
    if es != [] {
      UncarriedCallsign(t, es[..|es| - 1], prefer, k);
      assert !Carries(es[|es| - 1], k);
    }
  }

  /** A file without a callsign longer than a slot: lookups find what the map binds. */
  lemma {:induction false} LookupsFollowMap(t: Tables, es: seq<Entry>, prefer: bool, k: string)
    requires Consistent(t) && !t.cut && "" !in t.maps.byCs && Loadable(t, es, prefer)
    requires forall i | 0 <= i < |es| :: |Key(es[i].text)| <= KEY_CHARS
    ensures var w := FiledAll(t, es, prefer); Primary(w.cs, k) == if k in w.maps.byCs then w.maps.byCs[k] else 0
  {
    hide Consistent, Loadable, Key, Filed, Primary;
    NotCut(t, es, prefer);
    AllKeep(t, es, prefer);
    PrimaryIsBound(FiledAll(t, es, prefer), k);
  }

  lemma {:induction false} NotCut(t: Tables, es: seq<Entry>, prefer: bool)
    requires !t.cut && "" !in t.maps.byCs && forall i | 0 <= i < |es| :: |Key(es[i].text)| <= KEY_CHARS
    ensures !FiledAll(t, es, prefer).cut && "" !in FiledAll(t, es, prefer).maps.byCs
  {
    hide Key, Regrown, Stored, NewCap;
    if es != [] {
      NotCut(t, es[..|es| - 1], prefer);
    }
  }

  // ------------------------------------------------------------ which files load

  function IdsOf(es: seq<Entry>): set<int> {
    set i | 0 <= i < |es| && Usable(es[i]) :: es[i].id
  }

  function KeysOf(es: seq<Entry>): set<string> {
    set i | 0 <= i < |es| && Usable(es[i]) :: Key(es[i].text)
  }

  predicate Allocates(es: seq<Entry>) {
    forall i | 0 <= i < |es| :: es[i].alloc
  }

  /** With memory to be had, the ids and callsigns are those there were and those of the records. */
  lemma {:induction false} FiledKeys(t: Tables, es: seq<Entry>, prefer: bool)
    requires Allocates(es)
    ensures FiledAll(t, es, prefer).maps.byId.Keys == t.maps.byId.Keys + IdsOf(es)
    ensures FiledAll(t, es, prefer).maps.byCs.Keys == t.maps.byCs.Keys + KeysOf(es)
  {
    hide Key, Usable, Filed, IdsOf, KeysOf;
    if es == [] {
      NoRecords();
    } else {
      var front, e := es[..|es| - 1], es[|es| - 1];
      FiledKeys(t, front, prefer);
      OneMore(front, e);
      assert es == front + [e];
      KeysFiled(FiledAll(t, front, prefer), e, prefer);
    }
  }

  lemma NoRecords()
    ensures IdsOf([]) == {} && KeysOf([]) == {}
  {
  }

  lemma KeysFiled(t: Tables, e: Entry, prefer: bool)
    requires e.alloc
    ensures var u := Filed(t, e, prefer);
      && u.maps.byId.Keys == t.maps.byId.Keys + (if Usable(e) then {e.id} else {})
      && u.maps.byCs.Keys == t.maps.byCs.Keys + if Usable(e) then {Key(e.text)} else {}
  {
    hide Key, Regrown, Stored, MustGrow, Grown, Cut, Usable;
    GrownRoom(|t.maps.byId|, t.cap);
    if Usable(e) {
      KeysMore(t.maps.byId, e.id, Cut(Key(e.text)));
      KeysMore(t.maps.byCs, Key(e.text), e.id);
    }
  }

  lemma KeysMore<K, V>(m: map<K, V>, k: K, v: V)
    ensures m[k := v].Keys == m.Keys + {k}
    ensures k in m ==> m.Keys + {k} == m.Keys
  {
  }

  lemma OneMore(es: seq<Entry>, e: Entry)
    ensures IdsOf(es + [e]) == IdsOf(es) + if Usable(e) then {e.id} else {}
    ensures KeysOf(es + [e]) == KeysOf(es) + if Usable(e) then {Key(e.text)} else {}
  {
    hide Usable, Key;
    var fs := es + [e];
    forall i | 0 <= i < |fs| && Usable(fs[i]) ensures fs[i].id in IdsOf(es) || fs[i] == e {
      assert i < |es| ==> fs[i] == es[i];
    }
    forall i | 0 <= i < |es| ensures fs[i] == es[i] {
    }
    assert fs[|es|] == e;
    assert forall x :: x in IdsOf(es) ==> x in IdsOf(fs);
    assert forall x :: x in KeysOf(es) ==> x in KeysOf(fs);
  }

  /** Growth keeps the ids below 70 per cent of the capacity, and leaves room for one more. */
  lemma FiledBounded(t: Tables, e: Entry, prefer: bool)
    requires Bounded(t)
    ensures Bounded(Filed(t, e, prefer))
    ensures e.alloc ==> |t.maps.byId| < NewCap(t, e)
  {
    hide Key, Regrown, Stored, Capacity;
    if t.cap > 0 {
      DoubleCapacity(t.cap);
      CapacityLeast(t.cap);
    } else {
      FirstCapacity();
    }
    OneMoreId(t.maps.byId, e.id, Cut(Key(e.text)));
  }

  lemma FirstCapacity()
    ensures Capacity(MIN_CAP)
  {
  }

  lemma OneMoreId(m: map<int, string>, id: int, v: string)
    ensures |m[id := v]| == |m| + if id in m then 0 else 1
  {
    var w := m[id := v];
    assert w.Keys == m.Keys + {id};
    assert |w| == |w.Keys| && |m| == |m.Keys|;
  }

  /** The records name different ids, none of them known. */
  ghost predicate Distinct(t: Tables, es: seq<Entry>) {
    forall i | 0 <= i < |es| && Usable(es[i]) :: es[i].id !in t.maps.byId && es[i].id !in IdsOf(es[..i])
  }

  /** Tables in good order that use no more slots for callsigns than they have ids. */
  ghost predicate Packed(t: Tables) {
    Consistent(t) && Bounded(t) && Used(t.cs, |t.cs|) <= |t.maps.byId|
  }

  /**
   Any file whose records name different new ids, with callsigns of any length: each record takes at most
   one slot and brings an id, and growth stays ahead of the ids, so every put ends.
   */
  lemma {:induction false} DistinctIdsLoad(t: Tables, es: seq<Entry>, prefer: bool)
    requires Packed(t) && Allocates(es) && Distinct(t, es)
    ensures Loadable(t, es, prefer) && Packed(FiledAll(t, es, prefer))
  {
    hide Key, FiledAll, Filed, Packed, Loadable, Room, Distinct, IdsOf, Usable;
    FiledLast(t, es, prefer);
    if es == [] {
      LoadableNone(t, prefer);
    } else {
      var front, e := es[..|es| - 1], es[|es| - 1];
      assert es == front + [e];
      DistinctFront(t, front, e);
      DistinctIdsLoad(t, front, prefer);
      FiledKeys(t, front, prefer);
      PackedStep(FiledAll(t, front, prefer), e, prefer);
      LoadableMore(t, front, e, prefer);
    }
  }

  lemma DistinctFront(t: Tables, front: seq<Entry>, e: Entry)
    requires Distinct(t, front + [e])
    ensures Distinct(t, front) && (Usable(e) ==> e.id !in t.maps.byId.Keys + IdsOf(front))
  {
    hide Usable, IdsOf;
    var es := front + [e];
    assert es[..|front|] == front && es[|front|] == e;
    forall i | 0 <= i < |front| && Usable(front[i])
      ensures front[i].id !in t.maps.byId && front[i].id !in IdsOf(front[..i])
    {
      assert es[..i] == front[..i] && es[i] == front[i];
    }
  }

  lemma PackedStep(t: Tables, e: Entry, prefer: bool)
    requires Packed(t) && e.alloc && (Usable(e) ==> e.id !in t.maps.byId.Keys)
    ensures Room(t, e) && Packed(Filed(t, e, prefer))
  {
    hide Key, Filed, Bounded, KeysFit, Room, Used, Usable;
    RoomWithinIds(t, e);
    SlotPerId(t, e, prefer);
    FiledKeeps(t, e, prefer);
    FiledBounded(t, e, prefer);
  }

  lemma RoomWithinIds(t: Tables, e: Entry)
    requires Bounded(t) && e.alloc && Used(t.cs, |t.cs|) <= |t.maps.byId|
    ensures Room(t, e)
  {
    hide Key, Used, HasKey;
    FiledBounded(t, e, false);
  }

  /** A record takes at most one more slot, and one with a new id brings the id for it. */
  lemma SlotPerId(t: Tables, e: Entry, prefer: bool)
    requires |t.cs| == t.cap && e.alloc && (Usable(e) ==> e.id !in t.maps.byId)
    requires Used(t.cs, |t.cs|) <= |t.maps.byId|
    ensures var u := Filed(t, e, prefer); Used(u.cs, |u.cs|) <= |u.maps.byId|
  {
    hide Key, Used, Moved, HashKey, HasStop;
    if Usable(e) {
      GrownRoom(|t.maps.byId|, t.cap);
      StoredUsed(Regrown(t.cs, NewCap(t, e)), Key(e.text), e.id, prefer);
      OneMoreId(t.maps.byId, e.id, Cut(Key(e.text)));
    }
  }

  lemma StoredUsed(cs: Callsigns, k: string, id: int, prefer: bool)
    ensures Used(Stored(cs, k, id, prefer), |cs|) <= Used(cs, |cs|) + 1
  {
    hide Used, HashKey, HasStop, StopAt;
    if HasStop(cs, k) {
      var p := StopAt(cs, k, HashKey(k));
      UsedPut(cs, p, Full(Cut(k), id), |cs|);
      UsedPut(cs, p, Full(k, id), |cs|);
    }
  }

  /** Callsigns never outnumber ids, each counted once, while the file is loaded. */
  ghost predicate Balanced(t: Tables, es: seq<Entry>) {
    forall i | 0 <= i < |es| :: |t.maps.byCs.Keys + KeysOf(es[..i])| <= |t.maps.byId.Keys + IdsOf(es[..i])|
  }

  predicate Short(es: seq<Entry>) {
    forall i | 0 <= i < |es| :: |Key(es[i].text)| <= KEY_CHARS
  }

  /** Tables in good order that bind what the maps do. */
  ghost predicate Mapped(t: Tables) {
    Consistent(t) && Bounded(t) && !t.cut && "" !in t.maps.byCs
  }

  /** Every file in which no callsign is longer than a slot and callsigns never outnumber ids is loaded to
      its end, and leaves the tables in good order. */
  lemma {:induction false} BalancedLoads(t: Tables, es: seq<Entry>, prefer: bool)
    requires Mapped(t) && Allocates(es) && Short(es) && Balanced(t, es)
    ensures Loadable(t, es, prefer) && Mapped(FiledAll(t, es, prefer))
  {
    hide Key, FiledAll, Filed, Mapped, Loadable, Room, Balanced, IdsOf, KeysOf;
    FiledLast(t, es, prefer);
    if es == [] {
      LoadableNone(t, prefer);
    } else {
      var front, e := es[..|es| - 1], es[|es| - 1];
      assert es == front + [e];
      BalancedFront(t, front, e);
      BalancedLoads(t, front, prefer);
      FiledKeys(t, front, prefer);
      MappedStep(FiledAll(t, front, prefer), e, prefer);
      LoadableMore(t, front, e, prefer);
    }
  }

  lemma BalancedFront(t: Tables, front: seq<Entry>, e: Entry)
    requires Balanced(t, front + [e])
    ensures Balanced(t, front) && |t.maps.byCs.Keys + KeysOf(front)| <= |t.maps.byId.Keys + IdsOf(front)|
  {
    hide IdsOf, KeysOf;
    var es := front + [e];
    assert es[..|front|] == front;
    forall i | 0 <= i < |front|
      ensures |t.maps.byCs.Keys + KeysOf(front[..i])| <= |t.maps.byId.Keys + IdsOf(front[..i])|
    {
      assert es[..i] == front[..i];
    }
  }

  lemma MappedStep(t: Tables, e: Entry, prefer: bool)
    requires Mapped(t) && e.alloc && |Key(e.text)| <= KEY_CHARS && |t.maps.byCs.Keys| <= |t.maps.byId.Keys|
    ensures Room(t, e) && Mapped(Filed(t, e, prefer))
  {
    hide Key, Bounded, Consistent, Room, NewCap, Regrown, Stored, Lands;
    assert |t.maps.byCs| == |t.maps.byCs.Keys| && |t.maps.byId| == |t.maps.byId.Keys|;
    FiledBounded(t, e, prefer);
    RoomForBalanced(t, e);
    FiledKeeps(t, e, prefer);
  }

  lemma RoomForBalanced(t: Tables, e: Entry)
    requires Consistent(t) && !t.cut && |t.maps.byCs| < NewCap(t, e)
    ensures Room(t, e)
  {
    hide Key, NewCap, RoomFor, Consistent;
    if Usable(e) {
      RoomIff(t, e);
    }
  }

  /** What a lookup finds after such a file: the id of the first record that carries the callsign, and
      nothing when none does. */
  lemma FirstCarrierFound(es: seq<Entry>, k: string)
    requires Allocates(es) && Short(es) && Balanced(NoTables, es)
    ensures var id := Primary(FiledAll(NoTables, es, false).cs, k);
      if forall i | 0 <= i < |es| :: !Carries(es[i], k) then id == 0
      else exists j :: 0 <= j < |es| && Carries(es[j], k) && id == es[j].id && forall i | 0 <= i < j :: !Carries(es[i], k)
  {
    hide Key, FiledAll, Primary, Carries, Consistent, Loadable, NewCap;
    NoTablesMapped();
    BalancedLoads(NoTables, es, false);
    LookupsFollowMap(NoTables, es, false, k);
    if forall i | 0 <= i < |es| :: !Carries(es[i], k) {
      UncarriedCallsign(NoTables, es, false, k);
    } else {
      var j := FirstCarrier(es, k);
      CarriesKey(es[j], k);
      FiledRoom(FiledAll(NoTables, es[..j], false), es[j]);
      CallsignHasFirstId(NoTables, es, j);
    }
  }

  lemma NoTablesMapped()
    ensures Mapped(NoTables)
  {
  }

  lemma CarriesKey(e: Entry, k: string)
    ensures Carries(e, k) <==> Usable(e) && Key(e.text) == k
  {
  }

  lemma FiledRoom(t: Tables, e: Entry)
    ensures e.alloc ==> NewCap(t, e) > 0
  {
    GrownRoom(|t.maps.byId|, t.cap);
  }

  lemma {:induction false} FirstCarrier(es: seq<Entry>, k: string) returns (j: nat)
    requires !forall i | 0 <= i < |es| :: !Carries(es[i], k)
    ensures j < |es| && Carries(es[j], k) && forall i | 0 <= i < j :: !Carries(es[i], k)
    decreases |es|
  {
    hide Carries;
    var front := es[..|es| - 1];
    if forall i | 0 <= i < |front| :: !Carries(front[i], k) {
      j := |es| - 1;
      assert forall i | 0 <= i < j :: es[i] == front[i];
    } else {
      j := FirstCarrier(front, k);
      assert forall i | 0 <= i <= j :: es[i] == front[i];
    }
  }

  // --------------------------------------------------- callsigns longer than a slot

  /** A put key can be found again exactly when it has no more than ten characters. */
  lemma CutKeyFoundIff(cs: Callsigns, k: string, id: int)
    requires KeysFit(cs) && HasStop(cs, k) && k != ""
    ensures var u := Stored(cs, k, id, true); (exists p: nat :: p < |u| && u[p].Full? && u[p].key == k) <==> |k| <= KEY_CHARS
  {
    hide HashKey;
    var u, p := Stored(cs, k, id, true), StopAt(cs, k, HashKey(k));
    StoredFits(cs, k, id, true);
    if |k| <= KEY_CHARS {
      assert u[p].Full? && u[p].key == k;
    }
  }

  /** So each put of a longer one takes a new slot, as long as one is free. */
  lemma LongTakesSlot(cs: Callsigns, k: string, id: int, prefer: bool)
    requires KeysFit(cs) && |k| > KEY_CHARS
    ensures HasStop(cs, k) <==> Used(cs, |cs|) < |cs|
    ensures HasStop(cs, k) ==> Used(Stored(cs, k, id, prefer), |cs|) == Used(cs, |cs|) + 1
  {
    hide HashKey, HasStop;
    AbsentStopsIff(cs, k);
    if HasStop(cs, k) {
      var p := StopAt(cs, k, HashKey(k));
      assert Stops(cs, k, p);
      UsedPut(cs, p, Full(Cut(k), id), |cs|);
    }
  }

  /** One record over and over. */
  function Again(e: Entry, n: nat): (es: seq<Entry>)
    ensures |es| == n
  {
    seq(n, _ => e)
  }

  /** The tables have their first capacity, one id, and n slots that hold what fits of one callsign. */
  ghost predicate Filled(t: Tables, e: Entry, n: nat) {
    && (if n == 0 then t == NoTables else t.cap == MIN_CAP && t.maps.byId.Keys == {e.id} && |t.maps.byId| == 1)
    && Consistent(t) && Used(t.cs, |t.cs|) == n
    && (forall p: nat | p < |t.cs| && t.cs[p].Full? :: t.cs[p].key == Cut(Key(e.text)))
  }

  /** n records with one long callsign take n slots, and one id. */
  lemma {:induction false} LongsFill(e: Entry, n: nat, prefer: bool)
    requires Usable(e) && e.alloc && |Key(e.text)| > KEY_CHARS && n <= MIN_CAP
    ensures Filled(FiledAll(NoTables, Again(e, n), prefer), e, n)
    ensures Loadable(NoTables, Again(e, n), prefer)
  {
    hide Key, FiledAll, Filled, Loadable;
    FiledLast(NoTables, [], prefer);
    if n == 0 {
      NoneFilled(e);
      LoadableNone(NoTables, prefer);
    } else {
      var es, front := Again(e, n), Again(e, n - 1);
      LongsFill(e, n - 1, prefer);
      assert es[..n - 1] == front && es[n - 1] == e;
      FiledLast(NoTables, es, prefer);
      LongNext(FiledAll(NoTables, front, prefer), e, n, prefer);
      LoadableMore(NoTables, front, e, prefer);
      assert es == front + [e];
    }
  }

  lemma NoneFilled(e: Entry)
    ensures Filled(NoTables, e, 0)
  {
  }

  lemma NoTablesConsistent()
    ensures Consistent(NoTables)
  {
  }

  lemma LoadableNone(t: Tables, prefer: bool)
    ensures Loadable(t, [], prefer)
  {
  }

  lemma LoadableMore(t: Tables, es: seq<Entry>, e: Entry, prefer: bool)
    requires Loadable(t, es, prefer) && Room(FiledAll(t, es, prefer), e)
    ensures Loadable(t, es + [e], prefer)
  {
    hide Room, FiledAll;
    forall i | 0 <= i < |es| + 1 ensures Room(FiledAll(t, (es + [e])[..i], prefer), (es + [e])[i]) {
      assert (es + [e])[..i] == es[..i];
    }
  }

  lemma LongNext(t: Tables, e: Entry, n: nat, prefer: bool)
    requires Usable(e) && e.alloc && |Key(e.text)| > KEY_CHARS && 0 < n <= MIN_CAP
    requires Filled(t, e, n - 1)
    ensures Room(t, e) && Filled(Filed(t, e, prefer), e, n)
  {
    hide Key, HasStop, HashKey, Stored, Used;
    var cs, k := Regrown(t.cs, MIN_CAP), Key(e.text);
    if n == 1 {
      MovedNone(cs);
    }
    LongTakesSlot(cs, k, e.id, prefer);
    FiledKeeps(t, e, prefer);
    OneId(t.maps.byId, e.id, Cut(k), n);
    StoredKeys(cs, k, e.id, prefer);
  }

  lemma MovedNone(cs: Callsigns)
    requires cs == Regrown([], MIN_CAP)
    ensures |cs| == MIN_CAP && Used(cs, |cs|) == 0 && KeysFit(cs) && forall p: nat | p < |cs| :: cs[p].Empty?
  {
  }

  /** A put of a long key writes nothing else. */
  lemma StoredKeys(cs: Callsigns, k: string, id: int, prefer: bool)
    requires KeysFit(cs) && |k| > KEY_CHARS && forall p: nat | p < |cs| && cs[p].Full? :: cs[p].key == Cut(k)
    ensures var u := Stored(cs, k, id, prefer); forall p: nat | p < |u| && u[p].Full? :: u[p].key == Cut(k)
  {
    hide HashKey;
  }

  /** After 1024 of them no other callsign, nor that one itself, ever finds its slot. */
  lemma LongTooOften(prefer: bool, e: Entry, f: Entry)
    requires Usable(e) && e.alloc && |Key(e.text)| > KEY_CHARS && Usable(f) && Key(f.text) != Cut(Key(e.text))
    ensures Loadable(NoTables, Again(e, MIN_CAP), prefer)
    ensures !Ends(FiledAll(NoTables, Again(e, MIN_CAP), prefer), f)
  {
    hide Key, FiledAll, Loadable, HasStop, Used;
    LongsFill(e, MIN_CAP, prefer);
    AbsentStopsIff(FiledAll(NoTables, Again(e, MIN_CAP), prefer).cs, Key(f.text));
  }

  // ---------------------------------------------------------- a full callsign table

  function Digit(d: nat): char
    requires d < 32
  {
    if d < 26 then 'A' + d as char else '0' + (d - 26) as char
  }

  /** 1024 different two-letter callsigns. */
  function Sign(n: nat): string
    requires n < 1024
  {
    [Digit(n / 32), Digit(n % 32)]
  }

  lemma SignKey(n: nat)
    requires n < 1024
    ensures Key(Sign(n)) == Sign(n)
  {
    var s := Sign(n);
    assert !Space(s[0]) && !Space(s[1]) && !Suffix(s[0]) && !Suffix(s[1]);
    BodyFixed(s, 15);
  }

  lemma SignsDiffer(m: nat, n: nat)
    requires m < n < 1024
    ensures Sign(m) != Sign(n)
  {
    DigitsDiffer(m / 32, n / 32);
    DigitsDiffer(n / 32, m / 32);
    DigitsDiffer(m % 32, n % 32);
    DigitsDiffer(n % 32, m % 32);
    assert m == 32 * (m / 32) + m % 32 && n == 32 * (n / 32) + n % 32;
  }

  lemma DigitsDiffer(a: nat, b: nat)
    requires a < 32 && b < 32
    ensures Digit(a) == Digit(b) ==> a == b
  {
  }

  /** One id that keeps changing its callsign. */
  function Renamings(n: nat): (es: seq<Entry>)
    requires n <= 1024
    ensures |es| == n
  {
    seq(n, i requires 0 <= i < n => Entry(1, Sign(i), true))
  }

  /** After n renamings of one id the tables still have their first capacity and the callsign table
      holds n keys; every put so far ended. */
  lemma {:induction false} RenamingsFill(n: nat, prefer: bool)
    requires n <= 1024
    ensures var t := FiledAll(NoTables, Renamings(n), prefer);
      && (if n == 0 then t == NoTables else t.cap == MIN_CAP && t.maps.byId.Keys == {1} && |t.maps.byId| == 1)
      && t.maps.byCs.Keys == Signs(n)
      && |t.maps.byCs| == n && Consistent(t) && !t.cut
    ensures Loadable(NoTables, Renamings(n), prefer)
  {
    hide Key, Sign, Signs, FiledAll, Consistent, Loadable;
    FiledLast(NoTables, [], prefer);
    NewSign(n);
    if n == 0 {
      NoTablesConsistent();
      LoadableNone(NoTables, prefer);
    } else {
      var es, front := Renamings(n), Renamings(n - 1);
      RenamingsFill(n - 1, prefer);
      assert es[..n - 1] == front;
      FiledLast(NoTables, es, prefer);
      RenamingNext(FiledAll(NoTables, front, prefer), es[n - 1], n, prefer);
      LoadableMore(NoTables, front, es[n - 1], prefer);
      assert es == front + [es[n - 1]];
    }
  }

  ghost function Signs(n: nat): set<string>
    requires n <= 1024
  {
    set i | 0 <= i < n :: Sign(i)
  }

  lemma NewSign(n: nat)
    requires n <= 1024
    ensures n == 0 ==> Signs(n) == {}
    ensures n > 0 ==> var k := Sign(n - 1);
      Key(k) == k && |k| == 2 && k !in Signs(n - 1) && Signs(n) == Signs(n - 1) + {k}
  {
    hide Key, Sign;
    if n > 0 {
      SignKey(n - 1);
      SignShort(n - 1);
      forall i | 0 <= i < n - 1 ensures Sign(i) != Sign(n - 1) {
        SignsDiffer(i, n - 1);
      }
    }
  }

  lemma RenamingNext(t: Tables, e: Entry, n: nat, prefer: bool)
    requires Usable(e) && e.alloc && e.id == 1 && |Key(e.text)| <= KEY_CHARS && 0 < n <= 1024
    requires if n == 1 then t == NoTables else t.cap == MIN_CAP && t.maps.byId.Keys == {1} && |t.maps.byId| == 1
    requires |t.maps.byCs| == n - 1 && Consistent(t) && !t.cut && Key(e.text) !in t.maps.byCs
    ensures Room(t, e)
    ensures var u := Filed(t, e, prefer);
      && u.cap == MIN_CAP && u.maps.byId.Keys == {1} && |u.maps.byId| == 1 && Consistent(u) && !u.cut
      && u.maps.byCs.Keys == t.maps.byCs.Keys + {Key(e.text)} && |u.maps.byCs| == n
  {
    hide Key, HasStop, HashKey, Stored, Represents, KeysFit, RoomFor;
    RoomIff(t, e);
    FiledKeeps(t, e, prefer);
    OneId(t.maps.byId, 1, Cut(Key(e.text)), n);
  }

  lemma FiledLast(t: Tables, es: seq<Entry>, prefer: bool)
    ensures FiledAll(t, [], prefer) == t
    ensures es != [] ==> FiledAll(t, es, prefer) == Filed(FiledAll(t, es[..|es| - 1], prefer), es[|es| - 1], prefer)
  {
  }

  lemma SignShort(n: nat)
    requires n < 1024
    ensures |Sign(n)| == 2
  {
  }

  lemma OneId(m: map<int, string>, id: int, v: string, n: nat)
    requires if n == 1 then m == map[] else m.Keys == {id}
    ensures m[id := v].Keys == {id} && |m[id := v]| == 1
  {
    var w := m[id := v];
    assert w.Keys == {id};
    assert |w| == |w.Keys|;
  }

  /** The next new callsign then never finds its slot: a put that does not end, from ordinary records. */
  lemma RenamedTooOften(prefer: bool, e: Entry)
    requires Usable(e) && forall i | 0 <= i < 1024 :: Key(e.text) != Sign(i)
    ensures Loadable(NoTables, Renamings(1024), prefer)
    ensures !Ends(FiledAll(NoTables, Renamings(1024), prefer), e)
  {
    hide Key, Sign, FiledAll, Loadable, Represents, HasStop, KeysFit;
    RenamingsFill(1024, prefer);
    assert Key(e.text) !in Signs(1024);
    var t := FiledAll(NoTables, Renamings(1024), prefer);
    FoundIsBound(t.cs, HashKey, t.maps.byCs, Key(e.text));
  }
}
