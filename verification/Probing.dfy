/**
 Open addressing with linear probing, as the two alias tables use it: a slot holds
 nothing or one key with its value, and a key is looked for from its hash slot on.
 */
module Probing {

  datatype Slot<K, V> = Empty | Full(key: K, val: V)

  /** The slot probed n steps after the hash slot. */
  function At(cap: nat, h: nat, n: nat): (p: nat)
    requires cap > 0
    ensures p < cap
  {
    (h + n) % cap
  }

  /** Steps from hash slot h to slot p. */
  function Steps(cap: nat, h: nat, p: nat): (n: nat)
    requires p < cap
    ensures n < cap
  {
    var s := h % cap;
    if s <= p then p - s else p + cap - s
  }

  lemma AtSteps(cap: nat, h: nat, p: nat)
    requires p < cap
    ensures At(cap, h, Steps(cap, h, p)) == p
  {
    var s, q := h % cap, h / cap;
    assert h == q * cap + s;
    var n := Steps(cap, h, p);
    if s <= p {
      Wrap(h + n, q, p, cap);
    } else {
      assert (q + 1) * cap == q * cap + cap;
      Wrap(h + n, q + 1, p, cap);
    }
  }

  lemma Wrap(x: nat, q: nat, r: nat, cap: nat)
    requires r < cap && x == q * cap + r
    ensures x % cap == r
  {
    var d: int := q - x / cap;
    assert d * cap == x % cap - r;
    Multiple(d, cap);
  }

  lemma Multiple(d: int, cap: int)
    requires cap >= 0
    ensures d >= 1 ==> d * cap >= cap
    ensures d <= -1 ==> d * cap <= -cap
  {
  }

  // -------------------------------------------------------- what a table means

  /** Every stored key can be reached from its hash slot without crossing an empty slot. */
  ghost predicate Reachable<K(!new), V>(t: seq<Slot<K, V>>, hash: K -> nat) {
    forall p: nat, n: nat | p < |t| && t[p].Full? && n < Steps(|t|, hash(t[p].key), p) ::
      t[At(|t|, hash(t[p].key), n)].Full?
  }

  ghost predicate Unique<K, V>(t: seq<Slot<K, V>>) {
    forall p: nat, q: nat | p < q < |t| && t[p].Full? && t[q].Full? :: t[p].key != t[q].key
  }

  /** The table stores exactly the entries of the map m. */
  ghost predicate Holds<K, V>(t: seq<Slot<K, V>>, m: map<K, V>) {
    && (forall p: nat | p < |t| && t[p].Full? :: t[p].key in m && m[t[p].key] == t[p].val)
    && (forall k: K | k in m :: exists p: nat :: p < |t| && t[p] == Full(k, m[k]))
  }

  ghost predicate Represents<K(!new), V>(t: seq<Slot<K, V>>, hash: K -> nat, m: map<K, V>) {
    Reachable(t, hash) && Unique(t) && Holds(t, m)
  }

  /** Slot p ends a probe for k: it is free or holds k. */
  predicate Stops<K(==), V>(t: seq<Slot<K, V>>, k: K, p: nat)
    requires p < |t|
  {
    t[p].Empty? || t[p].key == k
  }

  /** The first n slots probed for k from h all hold other keys. */
  ghost predicate Passed<K, V>(t: seq<Slot<K, V>>, k: K, h: nat, n: nat)
    requires |t| > 0
  {
    forall j: nat | j < n :: !Stops(t, k, At(|t|, h, j))
  }

  /** Some slot ends a probe for k. */
  ghost predicate HasStop<K, V>(t: seq<Slot<K, V>>, k: K) {
    exists p: nat :: p < |t| && Stops(t, k, p)
  }

  /** The steps from slot h to the first slot of s. */
  ghost function FirstStep(cap: nat, h: nat, s: set<nat>, n: nat, last: nat): (m: nat)
    requires cap > 0 && n <= last && At(cap, h, last) in s
    ensures n <= m <= last && At(cap, h, m) in s && forall j: nat | n <= j < m :: At(cap, h, j) !in s
    decreases last - n
  {
    if At(cap, h, n) in s then n else FirstStep(cap, h, s, n + 1, last)
  }

  /** The slot of s that a probe from slot h meets first. */
  ghost function FirstOf(cap: nat, h: nat, s: set<nat>): (p: nat)
    requires exists q: nat :: q < cap && q in s
    ensures p < cap && p in s
    ensures exists n: nat :: At(cap, h, n) == p && forall j: nat | j < n :: At(cap, h, j) !in s
  {
    var q: nat :| q < cap && q in s;
    AtSteps(cap, h, q);
    At(cap, h, FirstStep(cap, h, s, 0, Steps(cap, h, q)))
  }

  lemma FirstOfIs(cap: nat, h: nat, s: set<nat>, n: nat)
    requires cap > 0 && At(cap, h, n) in s && forall j: nat | j < n :: At(cap, h, j) !in s
    ensures FirstOf(cap, h, s) == At(cap, h, n)
  {
  }

  /** The slots that end a probe for k. */
  ghost function StopSet<K, V>(t: seq<Slot<K, V>>, k: K): set<nat> {
    set p: nat | p < |t| && Stops(t, k, p)
  }

  /** The slot where a probe for k from h ends. */
  ghost function StopAt<K, V>(t: seq<Slot<K, V>>, k: K, h: nat): (p: nat)
    requires HasStop(t, k)
    ensures p < |t| && Stops(t, k, p)
    ensures exists n: nat :: At(|t|, h, n) == p && Passed(t, k, h, n)
  {
    var q: nat :| q < |t| && Stops(t, k, q);
    assert q in StopSet(t, k);
    FirstOf(|t|, h, StopSet(t, k))
  }

  lemma StopAtIs<K, V>(t: seq<Slot<K, V>>, k: K, h: nat, n: nat)
    requires |t| > 0 && Passed(t, k, h, n) && Stops(t, k, At(|t|, h, n))
    ensures HasStop(t, k) && StopAt(t, k, h) == At(|t|, h, n)
  {
    FirstOfIs(|t|, h, StopSet(t, k), n);
  }

  /** If k is stored, a probe that has not stopped has not gone past it. */
  lemma StoredAhead<K(!new), V>(t: seq<Slot<K, V>>, hash: K -> nat, k: K, n: nat, p: nat)
    requires |t| > 0 && Reachable(t, hash) && Passed(t, k, hash(k), n)
    requires p < |t| && t[p].Full? && t[p].key == k
    ensures n <= Steps(|t|, hash(k), p)
  {
    var s := Steps(|t|, hash(k), p);
    AtSteps(|t|, hash(k), p);
  }

  /** Nor has it met a free slot. */
  lemma StoredMeansFull<K(!new), V>(t: seq<Slot<K, V>>, hash: K -> nat, k: K, n: nat, p: nat)
    requires |t| > 0 && Reachable(t, hash) && Passed(t, k, hash(k), n)
    requires p < |t| && t[p].Full? && t[p].key == k
    ensures t[At(|t|, hash(k), n)].Full?
  {
    StoredAhead(t, hash, k, n, p);
    AtSteps(|t|, hash(k), p);
  }

  /** A probe that stops at a free slot proves that k is not stored. */
  lemma FreeMeansAbsent<K(!new), V>(t: seq<Slot<K, V>>, hash: K -> nat, m: map<K, V>, k: K, n: nat)
    requires |t| > 0 && Represents(t, hash, m) && Passed(t, k, hash(k), n)
    requires t[At(|t|, hash(k), n)].Empty?
    ensures k !in m
  {
    if k in m {
      var p: nat :| p < |t| && t[p] == Full(k, m[k]);
      StoredMeansFull(t, hash, k, n, p);
    }
  }

  /** A stored key is met after fewer steps than there are slots. */
  lemma StoredStops<K(!new), V>(t: seq<Slot<K, V>>, hash: K -> nat, m: map<K, V>, k: K)
    requires |t| > 0 && Represents(t, hash, m) && k in m
    ensures exists n: nat :: n < |t| && Stops(t, k, At(|t|, hash(k), n))
  {
    var p: nat :| p < |t| && t[p] == Full(k, m[k]);
    AtSteps(|t|, hash(k), p);
    assert Stops(t, k, At(|t|, hash(k), Steps(|t|, hash(k), p)));
  }

  // ------------------------------------------------------------------ counting

  /** The keys in the first n slots. */
  ghost function Keys<K, V>(t: seq<Slot<K, V>>, n: nat): set<K>
    requires n <= |t|
  {
    if n == 0 then {} else if t[n - 1].Full? then Keys(t, n - 1) + {t[n - 1].key} else Keys(t, n - 1)
  }

  lemma {:induction false} KeysAre<K, V>(t: seq<Slot<K, V>>, n: nat, k: K)
    requires n <= |t|
    ensures k in Keys(t, n) <==> exists p: nat :: p < n && t[p].Full? && t[p].key == k
    decreases n
  {
    if n > 0 {
      KeysAre(t, n - 1, k);
      if t[n - 1].Full? && t[n - 1].key == k {
        assert n - 1 < n && t[n - 1].Full? && t[n - 1].key == k;
      }
    }
  }

  lemma {:induction false} KeysCount<K, V>(t: seq<Slot<K, V>>, n: nat)
    requires n <= |t| && Unique(t)
    ensures |Keys(t, n)| <= n
    ensures |Keys(t, n)| == n <==> forall p: nat | p < n :: t[p].Full?
    decreases n
  {
    if n > 0 {
      KeysCount(t, n - 1);
      if t[n - 1].Full? {
        KeysAre(t, n - 1, t[n - 1].key);
      }
    }
  }

  /** A table is full exactly when it holds as many entries as it has slots. */
  lemma FullIff<K, V>(t: seq<Slot<K, V>>, m: map<K, V>)
    requires Unique(t) && Holds(t, m)
    ensures |m| <= |t|
    ensures |m| == |t| <==> forall p: nat | p < |t| :: t[p].Full?
  {
    KeysCount(t, |t|);
    forall k: K | k in m.Keys ensures k in Keys(t, |t|) {
      KeysAre(t, |t|, k);
      var p: nat :| p < |t| && t[p] == Full(k, m[k]);
    }
    forall k: K | k in Keys(t, |t|) ensures k in m.Keys {
      KeysAre(t, |t|, k);
    }
    assert Keys(t, |t|) == m.Keys;
  }

  /**
   Exactly when a probe for k ends: some slot it meets is free or holds k if and
   only if k is stored or the table is not full.
   */
  lemma ProbeEndsIff<K(!new), V>(t: seq<Slot<K, V>>, hash: K -> nat, m: map<K, V>, k: K)
    requires |t| > 0 && Represents(t, hash, m)
    ensures (exists n: nat :: Stops(t, k, At(|t|, hash(k), n))) <==> k in m || |m| < |t|
    ensures (k in m || |m| < |t|) ==> exists n: nat :: n < |t| && Stops(t, k, At(|t|, hash(k), n))
  {
    FullIff(t, m);
    if k in m {
      StoredStops(t, hash, m, k);
    } else if |m| < |t| {
      var p: nat :| p < |t| && t[p].Empty?;
      AtSteps(|t|, hash(k), p);
      assert Stops(t, k, At(|t|, hash(k), Steps(|t|, hash(k), p)));
    } else {
      forall n: nat ensures !Stops(t, k, At(|t|, hash(k), n)) {
        var p := At(|t|, hash(k), n);
        assert t[p].Full?;
      }
    }
  }

  /** How many of the first n slots are in use. */
  ghost function Used<K, V>(t: seq<Slot<K, V>>, n: nat): (u: nat)
    requires n <= |t|
    ensures u <= n
  {
    if n == 0 then 0 else Used(t, n - 1) + if t[n - 1].Full? then 1 else 0
  }

  lemma {:induction false} UsedAll<K, V>(t: seq<Slot<K, V>>, n: nat)
    requires n <= |t|
    ensures Used(t, n) == n <==> forall p: nat | p < n :: t[p].Full?
    decreases n
  {
    if n > 0 {
      UsedAll(t, n - 1);
    }
  }

  lemma {:induction false} UsedPut<K, V>(t: seq<Slot<K, V>>, p: nat, e: Slot<K, V>, n: nat)
    requires p < |t| && n <= |t| && e.Full?
    ensures Used(t[p := e], n) == Used(t, n) + if p < n && t[p].Empty? then 1 else 0
    decreases n
  {
    if n > 0 {
      UsedPut(t, p, e, n - 1);
    }
  }

  /** A key that is in no slot finds its place exactly as long as a slot is free. */
  lemma AbsentStopsIff<K, V>(t: seq<Slot<K, V>>, k: K)
    requires forall p: nat | p < |t| && t[p].Full? :: t[p].key != k
    ensures HasStop(t, k) <==> Used(t, |t|) < |t|
  {
    UsedAll(t, |t|);
    if Used(t, |t|) < |t| {
      var p: nat :| p < |t| && !t[p].Full?;
      assert Stops(t, k, p);
    }
  }

  /** Where the probe for k stopped tells whether k is stored, and with what. */
  lemma FoundIff<K(!new), V>(t: seq<Slot<K, V>>, hash: K -> nat, m: map<K, V>, k: K, n: nat)
    requires |t| > 0 && Represents(t, hash, m)
    requires Passed(t, k, hash(k), n) && Stops(t, k, At(|t|, hash(k), n))
    ensures t[At(|t|, hash(k), n)].Full? <==> k in m
  {
    if t[At(|t|, hash(k), n)].Empty? {
      FreeMeansAbsent(t, hash, m, k, n);
    }
  }

  // ------------------------------------------------------------------- writing

  /** Writing k where its probe stopped stores m with k bound to v, and nothing else. */
  lemma PutRepresents<K(!new), V>(t: seq<Slot<K, V>>, hash: K -> nat, m: map<K, V>, k: K, v: V, n: nat)
    requires |t| > 0 && Represents(t, hash, m)
    requires Passed(t, k, hash(k), n) && Stops(t, k, At(|t|, hash(k), n))
    ensures Represents(t[At(|t|, hash(k), n) := Full(k, v)], hash, m[k := v])
  {
    var p := At(|t|, hash(k), n);
    var u := t[p := Full(k, v)];
    var w := m[k := v];
    PutKeepsUnique(t, hash, m, k, v, n);
    PutKeepsReachable(t, hash, k, v, n);
    forall q: nat | q < |u| && u[q].Full?
      ensures u[q].key in w && w[u[q].key] == u[q].val
    {
      assert q != p ==> u[q] == t[q] && u[p].key == k;
    }
    forall x: K | x in w
      ensures exists q: nat :: q < |u| && u[q] == Full(x, w[x])
    {
      if x == k {
        assert u[p] == Full(x, v);
      } else {
        var q: nat :| q < |t| && t[q] == Full(x, m[x]);
        assert q != p;
        assert u[q] == Full(x, w[x]);
      }
    }
  }

  lemma StoreRepresents<K(!new), V>(t: seq<Slot<K, V>>, hash: K -> nat, m: map<K, V>, k: K, v: V)
    requires Represents(t, hash, m) && HasStop(t, k)
    ensures Represents(t[StopAt(t, k, hash(k)) := Full(k, v)], hash, m[k := v])
  {
    hide Reachable, Unique, StopAt, HasStop, Passed, At;
    var p := StopAt(t, k, hash(k));
    assert Stops(t, k, p);
    var n: nat :| At(|t|, hash(k), n) == p && Passed(t, k, hash(k), n);
    PutRepresents(t, hash, m, k, v, n);
  }

  lemma PutKeepsUnique<K(!new), V>(t: seq<Slot<K, V>>, hash: K -> nat, m: map<K, V>, k: K, v: V, n: nat)
    requires |t| > 0 && Represents(t, hash, m)
    requires Passed(t, k, hash(k), n) && Stops(t, k, At(|t|, hash(k), n))
    ensures Unique(t[At(|t|, hash(k), n) := Full(k, v)])
  {
    var p := At(|t|, hash(k), n);
    if t[p].Empty? {
      FreeMeansAbsent(t, hash, m, k, n);
    }
  }

  lemma PutKeepsReachable<K(!new), V>(t: seq<Slot<K, V>>, hash: K -> nat, k: K, v: V, n: nat)
    requires |t| > 0 && Reachable(t, hash)
    requires Passed(t, k, hash(k), n) && Stops(t, k, At(|t|, hash(k), n))
    ensures Reachable(t[At(|t|, hash(k), n) := Full(k, v)], hash)
  {
    var p := At(|t|, hash(k), n);
    var u := t[p := Full(k, v)];
    forall q: nat, j: nat | q < |u| && u[q].Full? && j < Steps(|u|, hash(u[q].key), q)
      ensures u[At(|u|, hash(u[q].key), j)].Full?
    {
      if q == p {
        StepsLeast(|t|, hash(k), n);
        assert !Stops(t, k, At(|t|, hash(k), j));
      } else {
        assert t[At(|t|, hash(t[q].key), j)].Full?;
      }
    }
  }

  /** The number of steps to a slot is the least one that gets there. */
  lemma StepsLeast(cap: nat, h: nat, n: nat)
    requires cap > 0
    ensures Steps(cap, h, At(cap, h, n)) <= n
  {
    var s, q := h % cap, h / cap;
    assert h == q * cap + s;
    if n < cap {
      if s + n < cap {
        Wrap(h + n, q, s + n, cap);
      } else {
        assert (q + 1) * cap == q * cap + cap;
        Wrap(h + n, q + 1, s + n - cap, cap);
      }
    }
  }

  /** The bindings of the first n slots. */
  ghost function Entries<K, V>(t: seq<Slot<K, V>>, n: nat): map<K, V>
    requires n <= |t|
  {
    if n == 0 then map[]
    else if t[n - 1].Full? then Entries(t, n - 1)[t[n - 1].key := t[n - 1].val]
    else Entries(t, n - 1)
  }

  lemma {:induction false} EntriesAre<K, V>(t: seq<Slot<K, V>>, n: nat)
    requires n <= |t| && Unique(t)
    ensures Entries(t, n).Keys == Keys(t, n)
    ensures forall p: nat | p < n && t[p].Full? :: t[p].key in Entries(t, n) && Entries(t, n)[t[p].key] == t[p].val
    ensures |Entries(t, n)| <= n
    ensures n < |t| && t[n].Full? ==> t[n].key !in Entries(t, n)
    decreases n
  {
    if n > 0 {
      EntriesAre(t, n - 1);
    }
    KeysCount(t, n);
    assert |Entries(t, n).Keys| == |Entries(t, n)|;
    if n < |t| && t[n].Full? {
      KeysAre(t, n, t[n].key);
    }
  }

  lemma AllEntries<K, V>(t: seq<Slot<K, V>>, m: map<K, V>)
    requires Unique(t) && Holds(t, m)
    ensures Entries(t, |t|) == m
  {
    EntriesAre(t, |t|);
    forall k: K | k in m ensures k in Entries(t, |t|) {
      var p: nat :| p < |t| && t[p] == Full(k, m[k]);
    }
    forall k: K | k in Entries(t, |t|) ensures k in m {
      KeysAre(t, |t|, k);
    }
    assert m.Keys == Entries(t, |t|).Keys;
    forall k: K | k in m ensures Entries(t, |t|)[k] == m[k] {
      var p: nat :| p < |t| && t[p] == Full(k, m[k]);
    }
  }

  // ------------------------------------------------------------- the probe loops

  lemma AtNext(cap: nat, h: nat, n: nat)
    requires cap > 0
    ensures At(cap, h, n + 1) == (At(cap, h, n) + 1) % cap
  {
    var s, q := (h + n) % cap, (h + n) / cap;
    assert h + n == q * cap + s;
    if s + 1 < cap {
      Wrap(h + n + 1, q, s + 1, cap);
      Wrap(s + 1, 0, s + 1, cap);
    } else {
      assert (q + 1) * cap == q * cap + cap;
      Wrap(h + n + 1, q + 1, 0, cap);
      Wrap(s + 1, 1, 0, cap);
    }
  }

  /** The unbounded probe of a put: it stops at the first slot that is free or holds the key. */
  method Probe<K(!new, ==), V(0)>(a: array<Slot<K, V>>, hash: K -> nat, k: K) returns (h: nat, ghost n: nat)
    requires HasStop(a[..], k)
    ensures h < a.Length && h == At(a.Length, hash(k), n) == StopAt(a[..], k, hash(k))
    ensures Passed(a[..], k, hash(k), n) && Stops(a[..], k, h)
  {
    ghost var t := a[..];
    ghost var p: nat :| p < a.Length && Stops(t, k, p);
    ghost var last := Steps(a.Length, hash(k), p);
    AtSteps(a.Length, hash(k), p);
    h, n := hash(k) % a.Length, 0;
    while a[h].Full? && a[h].key != k
      invariant h < a.Length && h == At(a.Length, hash(k), n) && n <= last
      invariant Passed(t, k, hash(k), n)
      decreases last - n
    {
      AtNext(a.Length, hash(k), n);
      h, n := (h + 1) % a.Length, n + 1;
    }
    StopAtIs(t, k, hash(k), n);
  }

  /** The bounded probe of a lookup: what the first slot that is free or holds the key has. */
  method Find<K(!new, ==), V(0)>(a: array<Slot<K, V>>, hash: K -> nat, k: K) returns (found: bool, v: V)
    requires a.Length > 0
    ensures found <==> HasStop(a[..], k) && a[StopAt(a[..], k, hash(k))].Full?
    ensures found ==> v == a[StopAt(a[..], k, hash(k))].val
  {
    var h := hash(k) % a.Length;
    var probes := 0;
    while probes < a.Length
      invariant h < a.Length && probes <= a.Length && h == At(a.Length, hash(k), probes)
      invariant Passed(a[..], k, hash(k), probes)
    {
      if a[h].Empty? {
        StopAtIs(a[..], k, hash(k), probes);
        found := false;
        v := *;
        return;
      }
      if a[h].key == k {
        StopAtIs(a[..], k, hash(k), probes);
        return true, a[h].val;
      }
      AtNext(a.Length, hash(k), probes);
      h, probes := (h + 1) % a.Length, probes + 1;
    }
    if HasStop(a[..], k) {
      var p: nat :| p < a.Length && Stops(a[..], k, p);
      AtSteps(a.Length, hash(k), p);
    }
    found := false;
    v := *;
  }

  /** A table that stores a map gives a probe what the map binds. */
  lemma FoundIsBound<K(!new), V>(t: seq<Slot<K, V>>, hash: K -> nat, m: map<K, V>, k: K)
    requires Represents(t, hash, m)
    ensures HasStop(t, k) <==> k in m || |m| < |t|
    ensures HasStop(t, k) && t[StopAt(t, k, hash(k))].Full? <==> k in m
    ensures k in m ==> t[StopAt(t, k, hash(k))].val == m[k]
  {
    hide Reachable, Unique, StopAt, HasStop, Stops, At;
    if t == [] {
      NoneHeld(t, m);
      NoStop(t, k);
    } else {
      ProbeEndsIff(t, hash, m, k);
      StopsSomewhere(t, k, hash(k));
      if HasStop(t, k) {
        StopIsBound(t, hash, m, k);
      }
    }
  }

  lemma NoStop<K, V>(t: seq<Slot<K, V>>, k: K)
    requires t == []
    ensures !HasStop(t, k)
  {
  }

  lemma StopIsBound<K(!new), V>(t: seq<Slot<K, V>>, hash: K -> nat, m: map<K, V>, k: K)
    requires |t| > 0 && Represents(t, hash, m) && HasStop(t, k)
    ensures t[StopAt(t, k, hash(k))].Full? <==> k in m
    ensures k in m ==> t[StopAt(t, k, hash(k))].val == m[k]
  {
    hide Reachable, Unique, StopAt, HasStop, At;
    var p := StopAt(t, k, hash(k));
    assert Stops(t, k, p);
    var n: nat :| At(|t|, hash(k), n) == p && Passed(t, k, hash(k), n);
    FoundIff(t, hash, m, k, n);
  }

  lemma NoneHeld<K, V>(t: seq<Slot<K, V>>, m: map<K, V>)
    requires t == [] && Holds(t, m)
    ensures m == map[]
  {
    assert m.Keys == {};
    assert |m| == |m.Keys|;
  }

  lemma StopsSomewhere<K, V>(t: seq<Slot<K, V>>, k: K, h: nat)
    requires |t| > 0
    ensures HasStop(t, k) <==> exists n: nat :: Stops(t, k, At(|t|, h, n))
  {
    if HasStop(t, k) {
      var p: nat :| p < |t| && Stops(t, k, p);
      AtSteps(|t|, h, p);
      assert Stops(t, k, At(|t|, h, Steps(|t|, h, p)));
    }
  }

  // ------------------------------------------------------------------ rehashing

  ghost function FreeSet<K, V>(t: seq<Slot<K, V>>): set<nat> {
    set p: nat | p < |t| && t[p].Empty?
  }

  /** The first free slot from slot h on. */
  ghost function FreeAt<K, V>(t: seq<Slot<K, V>>, h: nat): (p: nat)
    requires Used(t, |t|) < |t|
    ensures p < |t| && t[p].Empty?
    ensures exists n: nat :: At(|t|, h, n) == p && forall j: nat | j < n :: t[At(|t|, h, j)].Full?
  {
    UsedAll(t, |t|);
    var q: nat :| q < |t| && !t[q].Full?;
    assert q in FreeSet(t);
    FirstOf(|t|, h, FreeSet(t))
  }

  lemma FreeAtIs<K, V>(t: seq<Slot<K, V>>, h: nat, n: nat)
    requires |t| > 0 && t[At(|t|, h, n)].Empty? && forall j: nat | j < n :: t[At(|t|, h, j)].Full?
    ensures Used(t, |t|) < |t| && FreeAt(t, h) == At(|t|, h, n)
  {
    UsedAll(t, |t|);
    FirstOfIs(|t|, h, FreeSet(t), n);
  }

  ghost function Free<K, V>(n: nat): (t: seq<Slot<K, V>>)
    ensures |t| == n && Used(t, n) == 0
  {
    var t := seq(n, _ => Empty);
    NoneUsed(t, n);
    t
  }

  lemma {:induction false} NoneUsed<K, V>(t: seq<Slot<K, V>>, n: nat)
    requires n <= |t| && forall p: nat | p < |t| :: t[p].Empty?
    ensures Used(t, n) == 0
    decreases n
  {
    if n > 0 {
      NoneUsed(t, n - 1);
    }
  }

  /** The larger table after the first n slots of t have moved: each entry in turn takes the first
      free slot from the hash slot of its key. */
  ghost function Moved<K, V>(t: seq<Slot<K, V>>, hash: K -> nat, n: nat, cap: nat): (u: seq<Slot<K, V>>)
    requires n <= |t| < cap
    ensures |u| == cap && Used(u, cap) == Used(t, n)
    decreases n
  {
    if n == 0 then Free(cap)
    else
      var u := Moved(t, hash, n - 1, cap);
      if t[n - 1].Empty? then u
      else
        var p := FreeAt(u, hash(t[n - 1].key));
        UsedPut(u, p, t[n - 1], cap);
        u[p := t[n - 1]]
  }

  /** Moved, the entries of a table without repeated keys are what they were. */
  lemma {:induction false} MovedRepresents<K(!new), V>(t: seq<Slot<K, V>>, hash: K -> nat, n: nat, cap: nat)
    requires n <= |t| < cap && Unique(t)
    ensures Represents(Moved(t, hash, n, cap), hash, Entries(t, n))
    decreases n
  {
    hide Represents, Unique, Used, FreeAt;
    if n == 0 {
      FreeRepresents<K, V>(cap, hash);
    } else {
      MovedRepresents(t, hash, n - 1, cap);
      EntriesAre(t, n - 1);
      if t[n - 1].Full? {
        PlaceRepresents(Moved(t, hash, n - 1, cap), hash, Entries(t, n - 1), t[n - 1].key, t[n - 1].val);
      }
    }
  }

  lemma PlaceRepresents<K(!new), V>(u: seq<Slot<K, V>>, hash: K -> nat, m: map<K, V>, k: K, v: V)
    requires Represents(u, hash, m) && k !in m && Used(u, |u|) < |u|
    ensures Represents(u[FreeAt(u, hash(k)) := Full(k, v)], hash, m[k := v])
  {
    hide Reachable, Unique, Used, FreeAt, At;
    var p := FreeAt(u, hash(k));
    assert u[p].Empty?;
    var j: nat :| At(|u|, hash(k), j) == p && forall i: nat | i < j :: u[At(|u|, hash(k), i)].Full?;
    PutRepresents(u, hash, m, k, v, j);
  }

  lemma FreeRepresents<K(!new), V>(cap: nat, hash: K -> nat)
    ensures Represents<K, V>(Free(cap), hash, map[])
  {
  }

  lemma MovedSame<K(!new), V>(t: seq<Slot<K, V>>, hash: K -> nat, cap: nat, m: map<K, V>)
    requires |t| < cap && Represents(t, hash, m)
    ensures Represents(Moved(t, hash, |t|, cap), hash, m)
  {
    hide Reachable, Used, Moved;
    MovedRepresents(t, hash, |t|, cap);
    AllEntries(t, m);
  }

  /** Every entry of a moves into the empty array b, the repeated keys of cut callsigns too. */
  method Rehash<K(!new, ==), V(0)>(a: array<Slot<K, V>>, b: array<Slot<K, V>>, hash: K -> nat)
    requires a != b && a.Length < b.Length
    requires forall p: nat | p < b.Length :: b[p].Empty?
    modifies b
    ensures b[..] == Moved(a[..], hash, a.Length, b.Length)
  {
    hide Used, FreeAt;
    ghost var t := a[..];
    assert b[..] == Free(b.Length);
    for i := 0 to a.Length
      invariant a[..] == t
      invariant b[..] == Moved(t, hash, i, b.Length)
    {
      if a[i].Full? {
        Move(b, hash, a[i].key, a[i].val);
      }
    }
  }

  /** The probe for a free slot. */
  method FreeSlot<K(!new, ==), V(0)>(b: array<Slot<K, V>>, hash: K -> nat, k: K) returns (h: nat)
    requires Used(b[..], b.Length) < b.Length
    ensures h < b.Length && h == FreeAt(b[..], hash(k))
  {
    ghost var t := b[..];
    ghost var p := FreeAt(t, hash(k));
    ghost var last := Steps(b.Length, hash(k), p);
    AtSteps(b.Length, hash(k), p);
    h := hash(k) % b.Length;
    ghost var n := 0;
    while b[h].Full?
      invariant h < b.Length && h == At(b.Length, hash(k), n) && n <= last
      invariant forall j: nat | j < n :: t[At(b.Length, hash(k), j)].Full?
      decreases last - n
    {
      AtNext(b.Length, hash(k), n);
      h, n := (h + 1) % b.Length, n + 1;
    }
    FreeAtIs(t, hash(k), n);
  }

  /** An entry takes the first free slot from its hash slot on. */
  method Move<K(!new, ==), V(0)>(b: array<Slot<K, V>>, hash: K -> nat, k: K, v: V)
    requires Used(b[..], b.Length) < b.Length
    modifies b
    ensures b[..] == old(b[..])[FreeAt(old(b[..]), hash(k)) := Full(k, v)]
  {
    hide Used, FreeAt;
    var h := FreeSlot(b, hash, k);
    b[h] := Full(k, v);
  }
}
