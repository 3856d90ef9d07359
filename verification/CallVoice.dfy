/**
 What the vocoder coded is what the EchoLink-DMR bridge sends: block by block, over a pass of the audio,
 and over a whole call.
 */
module CallVoice {
  import opened WireGrammar
  import opened CallFlow
  import opened CallSafety

  /** The frames that were coded, in the order of their blocks. */
  function CodedOf(bs: seq<Block>): seq<VoiceFrame> {
    if bs == [] then []
    else CodedOf(bs[..|bs| - 1]) + if bs[|bs| - 1].Coded? then [bs[|bs| - 1].ambe] else []
  }

  /** What has been put to the converter since its reset, and the one or two frames that wait for a third. */
  function Heard(s: State): seq<VoiceFrame> {
    s.conv.fed + s.ambe
  }

  /** Outside the cooldown a coded block adds its frame, and a failed one nothing. */
  lemma BlockHeard(s: State, b: Block, now: nat)
    requires |s.ambe| < 3 && !Cooling(s, now)
    ensures var t := OnBlock(s, b, now);
      |t.ambe| < 3 && Heard(t) == Heard(s) + (if b.Coded? then [b.ambe] else []) && !Cooling(t, now)
  {
    if b.Coded? && |s.ambe| == 2 {
      var t := OnBlock(s, b, now);
      assert t.conv.fed == s.conv.fed + [s.ambe[0]] + [s.ambe[1]] + [b.ambe];
      assert s.ambe == [s.ambe[0], s.ambe[1]];
    }
  }

  /** A block in the cooldown is not heard, and what waited is dropped. */
  lemma CooledBlock(s: State, b: Block, now: nat)
    requires Cooling(s, now)
    ensures var t := OnBlock(s, b, now); t.conv == s.conv && t.ambe == [] && Cooling(t, now)
  {
  }

  /** How many blocks are read: all, or those up to the third failure in a row. */
  function ReadUpTo(bs: seq<Block>, streak: nat): (n: nat)
    ensures n <= |bs|
    decreases |bs|
  {
    if bs == [] then 0
    else if bs[0].Failed? && streak >= 2 then 0
    else 1 + ReadUpTo(bs[1..], if bs[0].Failed? then streak + 1 else 0)
  }

  lemma {:induction false} CodedFromFront(bs: seq<Block>)
    requires bs != []
    ensures CodedOf(bs) == (if bs[0].Coded? then [bs[0].ambe] else []) + CodedOf(bs[1..])
    decreases |bs|
  {
    var n := |bs| - 1;
    if n > 0 {
      CodedFromFront(bs[..n]);
      assert bs[..n][1..] == bs[1..][..n - 1];
    }
  }

  /** A pass outside the cooldown: everything coded is heard in order; the third failure in a row drops
      the frames that wait for a third, and nothing else. */
  ghost predicate Passed(before: seq<VoiceFrame>, t: State, bs: seq<Block>, n: nat)
    requires n <= |bs|
  {
    && |t.ambe| < 3
    && (n == |bs| ==> Heard(t) == before + CodedOf(bs))
    && (n < |bs| ==> t.ambe == [] && Missing(before + CodedOf(bs[..n]), Heard(t)))
  }

  lemma {:induction false} BlocksHeard(s: State, bs: seq<Block>, streak: nat, now: nat)
    requires |s.ambe| < 3 && !Cooling(s, now)
    ensures Passed(Heard(s), OnBlocks(s, bs, streak, now), bs, ReadUpTo(bs, streak))
    decreases |bs|
  {
    hide OnBlock, Cooling, Passed, Heard;
    if bs == [] {
      NothingRead(s);
    } else if bs[0].Failed? && streak >= 2 {
      GaveUp(s, bs, now);
    } else {
      var o, left := OnBlock(s, bs[0], now), if bs[0].Failed? then streak + 1 else 0;
      BlockHeard(s, bs[0], now);
      BlocksHeard(o, bs[1..], left, now);
      OneMoreRead(Heard(s), OnBlocks(o, bs[1..], left, now), bs, ReadUpTo(bs[1..], left));
    }
  }

  lemma NothingRead(s: State)
    requires |s.ambe| < 3
    ensures Passed(Heard(s), s, [], 0)
  {
    assert Heard(s) + [] == Heard(s);
  }

  lemma GaveUp(s: State, bs: seq<Block>, now: nat)
    requires |s.ambe| < 3 && bs != []
    ensures Passed(Heard(s), s.(lastSpeech := now, ambe := []), bs, 0)
  {
    assert bs[..0] == [] && Heard(s) + [] == s.conv.fed + s.ambe;
  }

  lemma OneMoreRead(before: seq<VoiceFrame>, t: State, bs: seq<Block>, n: nat)
    requires bs != [] && n <= |bs[1..]|
    requires Passed(before + (if bs[0].Coded? then [bs[0].ambe] else []), t, bs[1..], n)
    ensures Passed(before, t, bs, n + 1)
  {
    hide Heard, CodedOf, Missing;
    var g, rest := if bs[0].Coded? then [bs[0].ambe] else [], bs[1..];
    CodedFromFront(bs);
    assert before + g + CodedOf(rest) == before + (g + CodedOf(rest));
    CodedFromFront(bs[..n + 1]);
    assert bs[..n + 1][1..] == rest[..n];
    assert before + g + CodedOf(rest[..n]) == before + (g + CodedOf(rest[..n]));
  }

  /** h lacks at most the last two of all. */
  ghost predicate Missing(all: seq<VoiceFrame>, h: seq<VoiceFrame>) {
    h <= all && |all| < |h| + 3
  }

  /** The blocks a pass reads. */
  function Waiting(s: State, coder: nat -> Block): seq<Block> {
    seq(s.waiting, i requires i >= 0 => coder(i))
  }

  /** What a pass over the audio adds. */
  function Gained(s: State, e: Event): seq<VoiceFrame> {
    if e.Audio? && s.callActive != 2 && !s.ending then CodedOf(Waiting(s, e.coder)) else []
  }

  /** A step neither starts nor ends an EchoLink call, nor tears one down. */
  predicate SameCall(s: State, t: State) {
    !s.ending && !t.ending && (t.callActive == 1 <==> s.callActive == 1)
  }

  /** No audio is read in the cooldown, and never do three blocks in a row fail. */
  predicate Undropped(s: State, e: Event, now: nat) {
    e.Audio? && s.callActive != 2 ==> !Cooling(s, now) && ReadUpTo(Waiting(s, e.coder), 0) == s.waiting
  }

  lemma TickHears(s: State, e: Event, now: nat)
    requires e.Tick? && SameCall(s, OnTick(s, e, now))
    ensures Heard(OnTick(s, e, now)) == Heard(s) && OnTick(s, e, now).conv.spilled == s.conv.spilled
  {
    hide Six, Byte, EmitConnect, CutConnect, AfterGet, Taken;
    var a := PollConnect(s, e.connected, now, e.newId);
    PollTouches(s, e.connected, now, e.newId);
    PaceHears(a, now, e.newId, e.talker);
  }

  /** A connect PTT touches its own fields and what is sent. */
  ghost predicate Touched(s: State, o: State) {
    o == s.(ptt := o.ptt, line := o.line, seqNo := o.seqNo, lastTx := o.lastTx, streamId := o.streamId, wasConnected := o.wasConnected)
  }

  lemma {:induction false} FillTouches(s: State, now: nat)
    ensures Touched(s, ConnectFill(s, now))
    decreases 6 - if Six(s.ptt.frames) == 0 then 6 else Six(s.ptt.frames)
  {
    if Six(s.ptt.frames) != 0 {
      WrapsSix(s.ptt.frames);
      FillTouches(ConnectBurst(s, now), now);
    }
  }

  lemma FinishTouches(s: State, now: nat, newId: nat)
    ensures Touched(s, FinishConnect(s, now, newId))
  {
    hide Six, Byte, ConnectFill;
    FillTouches(s, now);
  }

  lemma EmitTouches(s: State, now: nat, newId: nat)
    ensures Touched(s, EmitConnect(s, now, newId))
  {
    hide Six, Byte, FinishConnect;
    FinishTouches(s, now, newId);
  }

  lemma PollTouches(s: State, connected: bool, now: nat, newId: nat)
    ensures Touched(s, PollConnect(s, connected, now, newId))
  {
    hide EmitConnect;
    var a := if connected && !s.wasConnected then StartConnect(s, now, newId) else s;
    var b := (if !connected then CutConnect(a) else a).(wasConnected := connected);
    EmitTouches(b, now, newId);
  }

  /** Nothing was put, and nothing reset. */
  predicate Same(c: Conv, d: Conv) {
    c.fed == d.fed && c.spilled == d.spilled
  }

  /** A burst of an open call leaves what was heard. */
  lemma PaceHears(s: State, now: nat, newId: nat, talker: int)
    requires !s.ending
    ensures var b := PaceTx(s, now, newId, talker);
      && !b.ending && b.ambe == s.ambe && (s.callActive == 1 ==> b.callActive == 1 && Same(b.conv, s.conv))
      && (s.callActive != 1 ==> b.callActive == 1 || (b.callActive == s.callActive && Same(b.conv, s.conv)))
  {
    hide Six, Byte, Taken;
  }

  lemma StepHeard(s: State, e: Event, now: nat)
    requires |s.ambe| < 3 && 0 <= s.callActive <= 2
    requires SameCall(s, Step(s, e, now)) && Undropped(s, e, now)
    ensures Heard(Step(s, e, now)) == Heard(s) + Gained(s, e)
    ensures s.conv.spilled ==> Step(s, e, now).conv.spilled
  {
    hide OnTick, OnBlocks, HeaderByte, TermByte, IsDmrd, Cooling;
    assert Heard(s) + [] == Heard(s);
    match e
    case Tick(_, _, _) => TickHears(s, e, now);
    case Dmrd(pkt) => DmrdHears(s, pkt, now);
    case Arrive(_) =>
    case Audio(coder) =>
      if s.callActive != 2 {
        CoolingSame(s, now);
        BlocksHeard(s.(waiting := 0), Waiting(s, coder), 0, now);
        StaysSpilled(s.(waiting := 0), Waiting(s, coder), 0, now);
      }
  }

  lemma {:induction false} StaysSpilled(s: State, bs: seq<Block>, streak: nat, now: nat)
    ensures s.conv.spilled ==> OnBlocks(s, bs, streak, now).conv.spilled
    decreases |bs|
  {
    hide Cooling;
    if bs != [] && (Cooling(s, now) || !bs[0].Failed? || streak < 2) {
      var left := if Cooling(s, now) then streak else if bs[0].Failed? then streak + 1 else 0;
      StaysSpilled(OnBlock(s, bs[0], now), bs[1..], left, now);
    }
  }

  lemma CoolingSame(s: State, now: nat)
    ensures Cooling(s.(waiting := 0), now) <==> Cooling(s, now)
  {
  }

  lemma DmrdHears(s: State, pkt: seq<bv8>, now: nat)
    requires SameCall(s, OnDmrd(s, pkt, now))
    ensures Heard(OnDmrd(s, pkt, now)) == Heard(s) && OnDmrd(s, pkt, now).conv.spilled == s.conv.spilled
  {
    hide EndCall, HeaderByte, TermByte, IsDmrd;
  }

  /** Over a whole run: one call that goes on, or none. */
  ghost predicate Unbroken(s: State, es: seq<Stamped>) {
    forall i: nat | i < |es| ::
      SameCall(Run(s, es[..i]), Run(s, es[..i + 1])) && Undropped(Run(s, es[..i]), es[i].event, es[i].now)
  }

  /** All frames coded in the run, in order. */
  ghost function Spoken(s: State, es: seq<Stamped>): seq<VoiceFrame> {
    if es == [] then []
    else Spoken(s, es[..|es| - 1]) + Gained(Run(s, es[..|es| - 1]), es[|es| - 1].event)
  }

  lemma {:induction false} RunHeard(s: State, es: seq<Stamped>)
    requires Inv(s) && Unbroken(s, es)
    ensures Heard(Run(s, es)) == Heard(s) + Spoken(s, es)
    ensures s.conv.spilled ==> Run(s, es).conv.spilled
    decreases |es|
  {
    hide Step, Inv, Heard, SameCall, Undropped, Gained;
    if es == [] {
      assert Heard(s) + [] == Heard(s);
    } else {
      var front, n := es[..|es| - 1], |es| - 1;
      UnbrokenFront(s, es);
      RunHeard(s, front);
      RunKeeps(s, front);
      InvBounds(Run(s, front));
      assert es[..n + 1] == es;
      StepHeard(Run(s, front), es[n].event, es[n].now);
      assert Heard(s) + Spoken(s, front) + Gained(Run(s, front), es[n].event)
          == Heard(s) + (Spoken(s, front) + Gained(Run(s, front), es[n].event));
    }
  }

  lemma UnbrokenFront(s: State, es: seq<Stamped>)
    requires Unbroken(s, es) && es != []
    ensures var n := |es| - 1;
      Unbroken(s, es[..n]) && SameCall(Run(s, es[..n]), Run(s, es)) && Undropped(Run(s, es[..n]), es[n].event, es[n].now)
  {
    hide Run, SameCall, Undropped;
    var n := |es| - 1;
    assert es[..n + 1] == es;
    forall i: nat | i < n
      ensures SameCall(Run(s, es[..n][..i]), Run(s, es[..n][..i + 1]))
      ensures Undropped(Run(s, es[..n][..i]), es[..n][i].event, es[..n][i].now)
    {
      assert es[..n][..i] == es[..i] && es[..n][..i + 1] == es[..i + 1];
    }
  }

  lemma InvBounds(s: State)
    requires Inv(s)
    ensures |s.ambe| < 3 && 0 <= s.callActive <= 2 && (s.ending ==> s.callActive == 1)
  {
  }

  // ------------------------------------------------------------ the first burst

  /** Without an EchoLink call the ring holds all that was put since the last reset, until it overflows. */
  ghost predicate Queued(s: State) {
    s.callActive != 1 ==> Whole(s.conv)
  }

  ghost predicate Whole(c: Conv) {
    !c.spilled ==> c.ring == c.fed && c.n == |c.ring|
  }

  lemma PutWhole(c: Conv, f: VoiceFrame)
    requires Whole(c)
    ensures Whole(PutFrame(c, f))
  {
  }

  /** A get that gives nothing changes nothing of such a ring. */
  lemma GetWhole(c: Conv)
    requires Whole(c)
    ensures Taken(c) == [] ==> Whole(AfterGet(c))
    ensures !c.spilled && Taken(c) != [] ==> |c.fed| >= 3 && Taken(c) == c.fed[..3]
  {
  }

  lemma {:induction false} BlocksQueued(s: State, bs: seq<Block>, streak: nat, now: nat)
    requires Queued(s) && |s.ambe| < 3
    ensures Queued(OnBlocks(s, bs, streak, now))
    decreases |bs|
  {
    hide PutFrame, Cooling, Whole;
    if bs != [] && (Cooling(s, now) || !bs[0].Failed? || streak < 2) {
      if |s.ambe| == 2 && bs[0].Coded? && s.callActive != 1 {
        var c1 := PutFrame(s.conv, s.ambe[0]);
        PutWhole(s.conv, s.ambe[0]);
        PutWhole(c1, s.ambe[1]);
        PutWhole(PutFrame(c1, s.ambe[1]), bs[0].ambe);
      }
      var left := if Cooling(s, now) then streak else if bs[0].Failed? then streak + 1 else 0;
      BlocksQueued(OnBlock(s, bs[0], now), bs[1..], left, now);
    }
  }

  lemma PaceQueued(s: State, now: nat, newId: nat, talker: int)
    requires Queued(s) && 0 <= s.callActive <= 2
    ensures Queued(PaceTx(s, now, newId, talker)) && Queued(PaceEnd(s, now))
  {
    hide Six, Byte, Taken, AfterGet;
    if s.callActive != 1 {
      GetWhole(s.conv);
    }
  }

  lemma EndQueued(s: State, now: nat)
    requires Queued(s)
    ensures Queued(EndCall(s, now)) && EndCall(s, now).callActive != 1
  {
    hide Six, Byte;
  }

  lemma StepQueued(s: State, e: Event, now: nat)
    requires Queued(s) && |s.ambe| < 3 && 0 <= s.callActive <= 2
    ensures Queued(Step(s, e, now))
  {
    hide OnBlocks, HeaderByte, TermByte, IsDmrd, PollConnect, PaceEnd, PaceTx, EndCall;
    match e
    case Tick(connected, newId, talker) =>
      PollTouches(s, connected, now, newId);
      PaceQueued(PollConnect(s, connected, now, newId), now, newId, talker);
    case Dmrd(_) => EndQueued(s, now);
    case Arrive(_) =>
    case Audio(coder) => BlocksQueued(s.(waiting := 0), Waiting(s, coder), 0, now);
  }

  lemma {:induction false} RunQueued(cfg: Config, start: nat, es: seq<Stamped>)
    ensures Queued(Run(Fresh(cfg, start), es))
  {
    hide Step, Queued, Inv;
    if es == [] {
      FreshQueued(cfg, start);
    } else {
      var front := es[..|es| - 1];
      RunQueued(cfg, start, front);
      FreshInv(cfg, start);
      RunKeeps(Fresh(cfg, start), front);
      InvBounds(Run(Fresh(cfg, start), front));
      StepQueued(Run(Fresh(cfg, start), front), es[|es| - 1].event, es[|es| - 1].now);
    }
  }

  lemma FreshQueued(cfg: Config, start: nat)
    ensures Queued(Fresh(cfg, start))
  {
  }

  /** A call begins with the three oldest frames heard since the last reset, if the ring has not overflowed;
      what was queued behind them is dropped, and the frames that wait for a third are kept. It is sent
      under the talker's id, or the bridge's own if the talker has none. */
  lemma CallBeginsWith(cfg: Config, start: nat, es: seq<Stamped>, e: Event, now: nat)
    requires var s := Run(Fresh(cfg, start), es);
      e.Tick? && s.callActive == 0 && OnTick(s, e, now).callActive == 1 && OnAir(OnTick(s, e, now)) && !s.conv.spilled
    ensures var s := Run(Fresh(cfg, start), es); var t := OnTick(s, e, now);
      && |s.conv.fed| >= 3 && t.Cur().speech == [Heard(s)[..3]] && (!t.ending ==> Heard(t) == s.ambe)
      && t.Cur().src == if e.talker > 0 then e.talker else s.cfg.dmrid
  {
    hide Six, Byte, PollConnect, EmitVoice, Inv, Run, PaceEnd;
    var s := Run(Fresh(cfg, start), es);
    RunQueued(cfg, start, es);
    FreshInv(cfg, start);
    RunKeeps(Fresh(cfg, start), es);
    var a := PollConnect(s, e.connected, now, e.newId);
    PollTouches(s, e.connected, now, e.newId);
    PollConnectKeeps(s, e.connected, now, e.newId);
    InvBounds(a);
    BeginsWith(s, a, now, e.newId, e.talker);
  }

  lemma BeginsWith(s: State, a: State, now: nat, newId: nat, talker: int)
    requires Inv(a) && a.callActive == 0 && !a.ending && a.conv == s.conv && a.ambe == s.ambe && Whole(s.conv) && !s.conv.spilled
    requires PaceTx(a, now, newId, talker).callActive == 1
    ensures var b := PaceTx(a, now, newId, talker); var t := HangUp(b, now);
      && |s.conv.fed| >= 3 && OnAir(t) == OnAir(b) && t.line == b.line && t.callActive == 1
      && (OnAir(b) ==> b.Cur().speech == [Heard(s)[..3]] && b.Cur().src == if talker > 0 then talker else a.cfg.dmrid)
      && (!t.ending ==> Heard(t) == s.ambe)
  {
    hide Six, Byte, Sending, Quiet, EmitVoice, Taken, AfterGet;
    GetWhole(s.conv);
    var o := a.(conv := AfterGet(a.conv));
    GetSplits(a.conv);
    assert Heard(s)[..3] == s.conv.fed[..3];
    FirstBurst(o, Taken(a.conv), now, newId, talker);
    HungUp(EmitVoice(o, Taken(a.conv), now, newId, talker), now);
  }

  lemma FirstBurst(o: State, voice: seq<VoiceFrame>, now: nat, newId: nat, talker: int)
    requires o.callActive == 0 && !o.ending
    ensures var b := EmitVoice(o, voice, now, newId, talker);
      && b.callActive == 1 && !b.ending && b.conv == EmptyConv && b.ambe == o.ambe
      && (b.Src() > 0 ==> b.Cur().speech == [voice] && b.Cur().src == if talker > 0 then talker else o.cfg.dmrid)
  {
    hide Six, Byte;
  }

  lemma HungUp(b: State, now: nat)
    requires b.callActive == 1 && !b.ending
    ensures var t := HangUp(b, now);
      OnAir(t) == OnAir(b) && t.line == b.line && t.callActive == 1 && (!t.ending ==> t == b)
  {
  }

  // ---------------------------------------------------------------- a whole call

  /**
   A call that goes on and is heard says what was coded: the frames sent since its first burst, those in
   the ring and those that wait for a third are what they were at any earlier time of the call followed by
   all that was coded since, in order, as long as no put has found the ring full.
   */
  lemma CallSaysWhatWasCoded(s: State, es: seq<Stamped>)
    requires Inv(s) && s.callActive == 1 && !s.ending && OnAir(s) && Unbroken(s, es)
    requires var t := Run(s, es); t.callActive == 1 && !t.ending && OnAir(t) && !t.conv.spilled
    ensures var t := Run(s, es);
      && |s.Cur().speech| > 0 && |t.Cur().speech| > 0
      && Joined(t.Cur().speech[1..]) + t.conv.ring + t.ambe
         == Joined(s.Cur().speech[1..]) + s.conv.ring + s.ambe + Spoken(s, es)
  {
    hide Joined, Exclusive, Grammatical, Run, Unbroken, Spoken;
    RunHeard(s, es);
    RunKeeps(s, es);
  }
}
