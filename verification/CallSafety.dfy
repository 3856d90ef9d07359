/** What every run of the EchoLink-DMR bridge keeps, whatever the events and their order. */
module CallSafety {
  import opened WireGrammar
  import opened CallFlow
  import VoiceQueue

  /** The last stream of the log is open, is the one being sent, and its next burst is the k-th. */
  ghost predicate Live(s: State, k: nat) {
    var c := s.Cur();
    && Sending(s.line, c) && c.Bursts() == k && s.seqNo == Byte(k + 1)
    && c.id == s.streamId && c.tg == s.TxTg() && c.src == s.Src() && (c.kind.Call? <==> s.callActive == 1)
  }

  ghost predicate InCall(s: State) {
    var c := s.Cur();
    Live(s, s.frames) && |c.speech| > 0 && c.pads <= if s.ending then Fill(|c.speech|) else 0
  }

  ghost predicate Transmitting(s: State) {
    s.callActive == 1 || (s.ptt.active && s.ptt.phase == 1)
  }

  /** A transmission that is heard: there is an id to send it under. */
  ghost predicate OnAir(s: State) {
    Transmitting(s) && s.Src() > 0
  }

  /** The ring holds no more than the counter says, and no more than fits. */
  ghost predicate ConvSane(c: Conv) {
    |c.ring| <= c.n && |c.ring| <= VoiceQueue.Limit(9)
  }

  /** Which activities exclude each other. */
  ghost predicate Exclusive(s: State) {
    && ConvSane(s.conv) && 0 <= s.callActive <= 2 && s.ptt.phase <= 1 && |s.ambe| < 3
    && (s.ending ==> s.callActive == 1)
    && (s.ptt.active ==> s.callActive != 1 && s.ptt.tg > 0 && s.cfg.tg > 0)
    && (s.callActive == 0 ==> s.frames == 0)
    && (s.callActive != 1 ==> s.rfId == 0)
  }

  /** What is on the wire. */
  ghost predicate Grammatical(s: State) {
    && (OnAir(s) && s.callActive == 1 ==> InCall(s))
    && (OnAir(s) && s.callActive != 1 ==> Live(s, s.ptt.frames))
    && (s.ptt.active && s.ptt.phase == 0 ==> s.seqNo == 0 && s.ptt.frames == 0)
    && (!OnAir(s) ==> Quiet(s.line))
  }

  ghost function Joined(groups: seq<seq<VoiceFrame>>): seq<VoiceFrame> {
    if groups == [] then [] else Joined(groups[..|groups| - 1]) + groups[|groups| - 1]
  }

  /**
   Of the frames put to the converter since its reset, those sent in groups and those in the ring: all
   of them, in order and in groups of three, unless a put has found the ring full; then fewer, for good.
   */
  ghost predicate Kept(c: Conv, groups: seq<seq<VoiceFrame>>) {
    if c.spilled then |Joined(groups)| + |c.ring| < |c.fed|
    else c.fed == Joined(groups) + c.ring && c.n == |c.ring| && forall i | 0 <= i < |groups| :: |groups[i]| == 3
  }

  /** The bursts of an open call, but for the first, are what the converter gave since it was reset. */
  ghost predicate Conserved(s: State) {
    OnAir(s) && s.callActive == 1 && !s.ending ==> |s.Cur().speech| > 0 && Kept(s.conv, s.Cur().speech[1..])
  }

  ghost predicate Inv(s: State) {
    Exclusive(s) && Grammatical(s) && Conserved(s)
  }

  ghost predicate Timed(s: State) {
    s.lastTx <= s.clock && s.lastRx <= s.clock && s.lastSpeech <= s.clock && s.lastEnd <= s.clock && s.ptt.start <= s.clock
  }

  // ------------------------------------------------------------------- packets

  lemma HeadLive(s: State, kind: Kind, now: nat)
    requires Quiet(s.line) && s.seqNo == 0 && s.Src() > 0 && (kind.Call? <==> s.callActive == 1)
    ensures Live(SendHead(s, kind, now), 0)
    ensures SendHead(s, kind, now).Cur() == Stream(s.streamId, s.TxTg(), s.Src(), kind, [], 0, Open)
  {
    hide Sending, Quiet;
    Begins(s.line, Stream(s.streamId, s.TxTg(), s.Src(), kind, [], 0, Open));
  }

  lemma SwapCur(s: State, t: Stream)
    requires Sending(s.line, s.Cur())
    ensures s.(line := s.line.(log := s.line.Swap(t))).Cur() == t
  {
  }

  lemma SpeechLive(s: State, k: nat, voice: seq<VoiceFrame>, now: nat)
    requires Live(s, k) && s.Src() > 0 && s.Cur().kind.Call? && s.Cur().pads == 0
    ensures Live(SendSpeech(s, Six(k), voice, now), k + 1)
    ensures SendSpeech(s, Six(k), voice, now).Cur() == s.Cur().(speech := s.Cur().speech + [voice])
  {
    hide Sending, Byte, Six;
    var t := s.Cur().(speech := s.Cur().speech + [voice]);
    SwapCur(s, t);
    Continues(s.line, s.Cur(), t);
    WrapsByte(k + 1);
  }

  lemma SilenceLive(s: State, k: nat, now: nat)
    requires Live(s, k) && s.Src() > 0
    ensures Live(SendSilence(s, Six(k), now), k + 1)
    ensures SendSilence(s, Six(k), now).Cur() == s.Cur().(pads := s.Cur().pads + 1)
  {
    hide Sending, Byte, Six;
    var t := s.Cur().(pads := s.Cur().pads + 1);
    SwapCur(s, t);
    Continues(s.line, s.Cur(), t);
    WrapsByte(k + 1);
  }

  lemma TermQuiet(s: State, k: nat, end: End, now: nat)
    requires Live(s, k) && s.Src() > 0 && (end.Closed? || end.Preempted?) && Complete(s.Cur().(end := end))
    ensures Quiet(SendTerm(s, end, now).line)
  {
    hide Sending, Quiet, Complete;
    Terminates(s.line, s.Cur(), end);
  }

  // ------------------------------------------------------------ EchoLink calls

  lemma JoinedTail(groups: seq<seq<VoiceFrame>>, g: seq<VoiceFrame>)
    ensures Joined((groups + [g])[1..]) == if groups == [] then [] else Joined(groups[1..]) + g
  {
    if groups != [] {
      var rest := groups[1..];
      assert (groups + [g])[1..] == rest + [g];
      assert (rest + [g])[..|rest|] == rest;
    }
  }

  /** A call starts behind a reset of the converter; without an id nothing is sent. */
  lemma StartKeeps(s: State, voice: seq<VoiceFrame>, now: nat, newId: nat, talker: int)
    requires Inv(s) && s.callActive == 0 && !s.ptt.active
    ensures var t := EmitVoice(s, voice, now, newId, talker);
      Inv(t) && t.callActive == 1 && (OnAir(t) ==> t.Cur().speech == [voice] && t.conv == EmptyConv)
  {
    hide Sending, Quiet, Byte, Six, Fill;
    var o := s.(callActive := 1, streamId := newId, seqNo := 0, frames := 0, conv := EmptyConv, rfId := talker);
    if o.Src() > 0 {
      HeadLive(o, Call, now);
      var p := SendHead(o, Call, now);
      SpeechLive(p, 0, voice, now);
    }
    JoinedTail([], voice);
  }

  /** A get moves frames from the ring to the groups sent, and keeps what is kept. */
  lemma GetKeeps(c: Conv, groups: seq<seq<VoiceFrame>>)
    requires ConvSane(c) && Kept(c, groups)
    ensures ConvSane(AfterGet(c))
    ensures Taken(c) == [] ==> Kept(AfterGet(c), groups)
    ensures Taken(c) != [] ==> Kept(AfterGet(c), groups + [Taken(c)])
  {
    hide Joined, Taken, AfterGet;
    var v, rest := Taken(c), AfterGet(c).ring;
    JoinedLast(groups, v);
    GetSplits(c);
    assert Joined(groups) + (v + rest) == Joined(groups) + v + rest;
  }

  /** What a get hands out comes off the front of the ring; of a ring its counter agrees with, three
      frames or none. */
  lemma GetSplits(c: Conv)
    requires ConvSane(c)
    ensures c.ring == Taken(c) + AfterGet(c).ring && ConvSane(AfterGet(c))
    ensures AfterGet(c).fed == c.fed && AfterGet(c).spilled == c.spilled
    ensures c.n == |c.ring| ==> (|Taken(c)| == 0 || |Taken(c)| == 3) && AfterGet(c).n == |AfterGet(c).ring|
  {
  }

  lemma JoinedLast(groups: seq<seq<VoiceFrame>>, g: seq<VoiceFrame>)
    ensures Joined(groups + [g]) == Joined(groups) + g
  {
    assert (groups + [g])[..|groups|] == groups;
  }

  /** A put keeps what is kept until it finds the ring full, and from then on frames are lost. */
  lemma PutKeeps(c: Conv, f: VoiceFrame, groups: seq<seq<VoiceFrame>>)
    requires ConvSane(c)
    ensures ConvSane(PutFrame(c, f))
    ensures Kept(c, groups) ==> Kept(PutFrame(c, f), groups)
    ensures PutFrame(c, f).spilled <==> c.spilled || |c.ring| >= VoiceQueue.Limit(9)
  {
    LimitPositive();
    if !c.spilled && |c.ring| < VoiceQueue.Limit(9) {
      assert Joined(groups) + (c.ring + [f]) == Joined(groups) + c.ring + [f];
    }
  }

  lemma LimitPositive()
    ensures VoiceQueue.Limit(9) == 499
  {
  }

  /** A later burst carries what a get gave: as long as no put has found the ring full, the three
      oldest frames. */
  lemma SpeechKeeps(s: State, now: nat, newId: nat, talker: int)
    requires Inv(s) && s.callActive == 1 && !s.ending && Taken(s.conv) != []
    ensures var t := EmitVoice(s.(conv := AfterGet(s.conv)), Taken(s.conv), now, newId, talker);
      && Inv(t)
      && (OnAir(s) ==> t.Cur().speech == s.Cur().speech + [Taken(s.conv)])
      && (OnAir(s) && !s.conv.spilled ==> |Taken(s.conv)| == 3)
  {
    hide Sending, Quiet, Byte, Six, Fill, Joined, Kept, AfterGet, Taken, ConvSane;
    var o, voice := s.(conv := AfterGet(s.conv)), Taken(s.conv);
    GetSplits(s.conv);
    if s.Src() > 0 {
      SpeechLive(o, s.frames, voice, now);
      var groups := s.Cur().speech[1..];
      GetKeeps(s.conv, groups);
      assert (s.Cur().speech + [voice])[1..] == groups + [voice];
      GroupOfThree(AfterGet(s.conv), groups, voice);
    }
  }

  lemma GroupOfThree(c: Conv, groups: seq<seq<VoiceFrame>>, v: seq<VoiceFrame>)
    requires Kept(c, groups + [v])
    ensures !c.spilled ==> |v| == 3
  {
    assert (groups + [v])[|groups|] == v;
  }

  lemma PaceTxKeeps(s: State, now: nat, newId: nat, talker: int)
    requires Inv(s)
    ensures Inv(PaceTx(s, now, newId, talker))
  {
    hide Sending, Quiet, Byte, Six, Fill, Joined, EmitVoice, Kept, AfterGet, Taken, ConvSane;
    var t := s.(conv := AfterGet(s.conv));
    GetSplits(s.conv);
    if Taken(s.conv) == [] {
      if OnAir(s) && s.callActive == 1 && !s.ending {
        GetKeeps(s.conv, s.Cur().speech[1..]);
      }
    } else if s.callActive == 0 && !s.ptt.active {
      StartKeeps(t, Taken(s.conv), now, newId, talker);
    } else if s.callActive == 1 && !s.ending {
      SpeechKeeps(s, now, newId, talker);
    }
  }

  /** Teardown begins in an open call only, drops what is queued and leaves the wire as it is. */
  lemma BeginEndKeeps(s: State)
    requires Inv(s)
    ensures var t := BeginEnd(s);
      Inv(t) && t.line == s.line && (t.ending <==> s.callActive == 1) && (t.ending && !s.ending ==> t.conv == EmptyConv && t.waiting == 0)
  {
    hide Sending, Quiet, Byte, Six, Joined;
  }

  /** Teardown sends what completes the superframe and closes the call. */
  lemma PaceEndKeeps(s: State, now: nat)
    requires Inv(s)
    ensures Inv(PaceEnd(s, now))
  {
    hide Sending, Quiet, Byte, Six, Fill, Joined;
    if s.ending && s.Src() > 0 {
      var c := s.Cur();
      FillLeft(|c.speech|, c.pads);
      if Six(s.frames) != 0 {
        SilenceLive(s, s.frames, now);
      } else {
        TermQuiet(s, s.frames, Closed, now);
      }
    }
  }

  lemma EndCallKeeps(s: State, now: nat)
    requires Inv(s)
    ensures Inv(EndCall(s, now)) && EndCall(s, now).callActive != 1
  {
    hide Sending, Quiet, Byte, Six, Fill, Joined;
    if s.callActive == 1 && s.Src() > 0 {
      TermQuiet(s, s.frames, Preempted, now);
    }
  }

  // --------------------------------------------------------------- connect PTT

  ghost predicate InConnect(s: State) {
    s.ptt.active && s.ptt.phase == 1
  }

  /** A connect PTT starts only when there is no call and no other one, with nothing sent yet. */
  lemma StartConnectKeeps(s: State, now: nat, newId: nat)
    requires Inv(s)
    ensures var t := StartConnect(s, now, newId);
      && Inv(t) && t.line == s.line
      && (t.ptt.active && !s.ptt.active <==> s.callActive == 0 && !s.ptt.active && s.cfg.tg > 0)
      && (t.ptt.active && !s.ptt.active ==> t.ptt.phase == 0 && t.seqNo == 0)
  {
    hide Sending, Quiet, Byte, Six, Fill, Joined;
  }

  lemma ConnectBurstKeeps(s: State, now: nat)
    requires Inv(s) && InConnect(s)
    ensures Inv(ConnectBurst(s, now)) && InConnect(ConnectBurst(s, now))
  {
    hide Sending, Quiet, Byte, Six, Fill, Joined;
    if s.Src() > 0 {
      SilenceLive(s, s.ptt.frames, now);
    }
  }

  lemma {:induction false} ConnectFillKeeps(s: State, now: nat)
    requires Inv(s) && InConnect(s)
    ensures var o := ConnectFill(s, now); Inv(o) && InConnect(o) && Six(o.ptt.frames) == 0
    ensures var o := ConnectFill(s, now); o == s.(ptt := o.ptt, line := o.line, seqNo := o.seqNo, lastTx := o.lastTx)
    ensures ConnectFill(s, now).lastTx == now || ConnectFill(s, now).lastTx == s.lastTx
    ensures var o := ConnectFill(s, now); o.ptt == s.ptt.(frames := o.ptt.frames)
    decreases 6 - if Six(s.ptt.frames) == 0 then 6 else Six(s.ptt.frames)
  {
    hide Inv, InConnect, Byte;
    if Six(s.ptt.frames) != 0 {
      WrapsSix(s.ptt.frames);
      ConnectBurstKeeps(s, now);
      ConnectFillKeeps(ConnectBurst(s, now), now);
    }
  }

  lemma FinishConnectKeeps(s: State, now: nat, newId: nat)
    requires Inv(s) && InConnect(s)
    ensures Inv(FinishConnect(s, now, newId))
  {
    hide Sending, Quiet, Byte, Six, Fill, Joined, ConnectFill;
    ConnectFillKeeps(s, now);
    var o := ConnectFill(s, now);
    if s.Src() > 0 {
      ConnectSpeechless(o);
      TermQuiet(o, o.ptt.frames, Closed, now);
    }
  }

  lemma ConnectSpeechless(s: State)
    requires Sending(s.line, s.Cur()) && s.Cur().kind.Connect?
    ensures s.Cur().speech == []
  {
  }

  lemma EmitConnectKeeps(s: State, now: nat, newId: nat)
    requires Inv(s)
    ensures Inv(EmitConnect(s, now, newId))
  {
    hide Sending, Quiet, Byte, Six, Fill, Joined, FinishConnect, ConnectBurst;
    if s.ptt.active {
      if s.ptt.phase == 0 {
        if s.Src() > 0 {
          HeadLive(s, Connect, now);
        }
      } else {
        FinishConnectKeeps(s, now, newId);
        ConnectBurstKeeps(s, now);
      }
    }
  }

  lemma CutConnectKeeps(s: State)
    requires Inv(s)
    ensures Inv(CutConnect(s))
  {
    hide Sending, Quiet, Byte, Six, Fill, Joined;
    if s.ptt.active && s.ptt.phase == 1 && s.Src() > 0 {
      Breaks(s.line, s.Cur());
    }
  }

  lemma PollConnectKeeps(s: State, connected: bool, now: nat, newId: nat)
    requires Inv(s)
    ensures Inv(PollConnect(s, connected, now, newId))
  {
    hide Sending, Quiet, Byte, Six, Fill, Joined, EmitConnect, CutConnect;
    var a := if connected && !s.wasConnected then StartConnect(s, now, newId) else s;
    StartConnectKeeps(s, now, newId);
    CutConnectKeeps(a);
    var b := (if !connected then CutConnect(a) else a).(wasConnected := connected);
    assert Inv(b);
    EmitConnectKeeps(b, now, newId);
  }

  // ------------------------------------------------------------------ handlers

  lemma TickKeeps(s: State, e: Event, now: nat)
    requires Inv(s) && e.Tick?
    ensures Inv(OnTick(s, e, now))
  {
    hide Sending, Quiet, Byte, Six, Fill, Joined, PollConnect, PaceEnd, PaceTx;
    var a := PollConnect(s, e.connected, now, e.newId);
    PollConnectKeeps(s, e.connected, now, e.newId);
    PaceEndKeeps(a, now);
    PaceTxKeeps(a, now, e.newId, e.talker);
  }

  lemma DmrdKeeps(s: State, pkt: seq<bv8>, now: nat)
    requires Inv(s)
    ensures Inv(OnDmrd(s, pkt, now))
  {
    hide Sending, Quiet, Byte, Six, Fill, Joined, EndCall, HeaderByte, TermByte, IsDmrd;
    EndCallKeeps(s, now);
  }

  lemma BlockKeeps(s: State, b: Block, now: nat)
    requires Inv(s) && s.callActive != 2 && !s.ending
    ensures Inv(OnBlock(s, b, now))
    ensures OnBlock(s, b, now).callActive == s.callActive && !OnBlock(s, b, now).ending
  {
    hide Sending, Quiet, Byte, Six, Fill, Joined, Kept, ConvSane, PutFrame;
    if b.Coded? && |s.ambe| == 2 {
      var groups := if OnAir(s) && s.callActive == 1 then s.Cur().speech[1..] else [];
      var c1 := PutFrame(s.conv, s.ambe[0]);
      var c2 := PutFrame(c1, s.ambe[1]);
      PutKeeps(s.conv, s.ambe[0], groups);
      PutKeeps(c1, s.ambe[1], groups);
      PutKeeps(c2, b.ambe, groups);
    }
  }

  lemma {:induction false} BlocksKeep(s: State, bs: seq<Block>, streak: nat, now: nat)
    requires Inv(s) && s.callActive != 2 && !s.ending
    ensures Inv(OnBlocks(s, bs, streak, now))
    decreases |bs|
  {
    hide OnBlock, Joined, Quiet, Sending;
    if bs != [] {
      BlockKeeps(s, bs[0], now);
      if Cooling(s, now) || !bs[0].Failed? || streak < 2 {
        var left := if Cooling(s, now) then streak else if bs[0].Failed? then streak + 1 else 0;
        BlocksKeep(OnBlock(s, bs[0], now), bs[1..], left, now);
      }
    }
  }

  lemma AudioKeeps(s: State, coder: nat -> Block, now: nat)
    requires Inv(s)
    ensures Inv(OnAudio(s, coder, now))
  {
    hide Sending, Quiet, Byte, Six, Fill, Joined, Kept, OnBlocks;
    if s.callActive != 2 && !s.ending {
      BlocksKeep(s.(waiting := 0), seq(s.waiting, i requires i >= 0 => coder(i)), 0, now);
    }
  }

  lemma StepKeeps(s: State, e: Event, now: nat)
    requires Inv(s)
    ensures Inv(Step(s, e, now))
  {
    hide OnTick, OnDmrd, OnAudio, Joined, Quiet, Sending;
    match e
    case Tick(_, _, _) => TickKeeps(s, e, now);
    case Dmrd(pkt) => DmrdKeeps(s, pkt, now);
    case Arrive(_) =>
    case Audio(coder) => AudioKeeps(s, coder, now);
  }

  datatype Stamped = At(event: Event, now: nat)

  /** The bridge after a whole run. */
  ghost function Run(s: State, es: seq<Stamped>): State {
    if es == [] then s else Step(Run(s, es[..|es| - 1]), es[|es| - 1].event, es[|es| - 1].now)
  }

  lemma {:induction false} RunKeeps(s: State, es: seq<Stamped>)
    requires Inv(s)
    ensures Inv(Run(s, es))
  {
    hide Inv;
    if es != [] {
      RunKeeps(s, es[..|es| - 1]);
      StepKeeps(Run(s, es[..|es| - 1]), es[|es| - 1].event, es[|es| - 1].now);
    }
  }

  /**
   Every run from the start, in whatever order events come. The wire is the streams of the log
   one after the other, all complete but the one being sent; speech is sent only while the
   EchoLink call owns the slot; teardown, connect PTT and the two kinds of call exclude each
   other. What was put to the converter in an open call leaves in order if and only if no put of it
   found the ring full, and then every burst but the first carries three frames.
   */
  lemma EveryRun(cfg: Config, start: nat, es: seq<Stamped>)
    ensures var s := Run(Fresh(cfg, start), es); var n := |s.line.log|;
      && s.line.wire == Flat(s.line.log)
      && (forall i | 0 <= i < n :: Complete(s.line.log[i]) || (i == n - 1 && OnAir(s) && s.Cur().end.Open?))
      && (forall i | 0 <= i < |s.line.wire| && s.line.wire[i].body.Burst? && s.line.wire[i].body.sound.Speech? ::
            s.line.wire[i].inCall)
      && (s.ending ==> s.callActive == 1)
      && (s.ptt.active ==> s.callActive != 1)
      && (OnAir(s) && s.callActive == 1 && !s.ending ==>
            && |s.Cur().speech| > 0
            && (s.conv.fed == Joined(s.Cur().speech[1..]) + s.conv.ring <==> !s.conv.spilled)
            && (!s.conv.spilled ==> forall i | 1 <= i < |s.Cur().speech| :: |s.Cur().speech[i]| == 3))
  {
    hide Joined, Flat, Complete, Kept;
    var s := Run(Fresh(cfg, start), es);
    FreshInv(cfg, start);
    RunKeeps(Fresh(cfg, start), es);
    LogSplit(s);
    forall i | 0 <= i < |s.line.wire| && s.line.wire[i].body.Burst? && s.line.wire[i].body.sound.Speech?
      ensures s.line.wire[i].inCall
    {
      SpeechOnlyInCall(s.line.log, i);
    }
    if OnAir(s) && s.callActive == 1 && !s.ending {
      KeptIff(s.conv, s.Cur().speech);
    }
  }

  lemma KeptIff(c: Conv, speech: seq<seq<VoiceFrame>>)
    requires |speech| > 0 && Kept(c, speech[1..])
    ensures c.fed == Joined(speech[1..]) + c.ring <==> !c.spilled
    ensures !c.spilled ==> forall i | 1 <= i < |speech| :: |speech[i]| == 3
  {
    assert forall i | 1 <= i < |speech| :: speech[i] == speech[1..][i - 1];
  }

  /** When a put of a group finds the ring full: exactly when fewer than three places are free. */
  lemma SpillsIff(c: Conv, buf: seq<VoiceFrame>)
    requires ConvSane(c) && |buf| == 3
    ensures var d := PutFrame(PutFrame(PutFrame(c, buf[0]), buf[1]), buf[2]);
      d.spilled <==> c.spilled || |c.ring| + 3 > VoiceQueue.Limit(9)
  {
    LimitPositive();
  }

  lemma FreshInv(cfg: Config, start: nat)
    ensures Inv(Fresh(cfg, start))
  {
    LimitPositive();
  }

  lemma LogSplit(s: State)
    requires Inv(s)
    ensures s.line.wire == Flat(s.line.log)
    ensures forall i | 0 <= i < |s.line.log| ::
      Complete(s.line.log[i]) || (i == |s.line.log| - 1 && OnAir(s) && s.Cur().end.Open?)
    ensures forall j | 0 <= j < |s.line.log| && s.line.log[j].kind.Connect? :: s.line.log[j].speech == []
  {
  }

  // ----------------------------------------------- which events end a stream how

  /** Log b continues log a; streams were cut only if cut, and pre-empted only if pre. */
  ghost predicate Ends(a: seq<Stream>, b: seq<Stream>, cut: bool, pre: bool) {
    && |a| <= |b|
    && (forall i | 0 <= i < |a| :: b[i].kind == a[i].kind && b[i].id == a[i].id)
    && (forall i | 0 <= i < |b| ::
          && (b[i].end.Cut? ==> cut || (i < |a| && a[i].end.Cut?))
          && (b[i].end.Preempted? ==> pre || (i < |a| && a[i].end.Preempted?)))
  }

  lemma {:induction false} FillEnds(s: State, now: nat)
    ensures Ends(s.line.log, ConnectFill(s, now).line.log, false, false)
    decreases 6 - if Six(s.ptt.frames) == 0 then 6 else Six(s.ptt.frames)
  {
    if Six(s.ptt.frames) != 0 {
      WrapsSix(s.ptt.frames);
      FillEnds(ConnectBurst(s, now), now);
    }
  }

  lemma EndsJoin(a: seq<Stream>, b: seq<Stream>, c: seq<Stream>, cut: bool, pre: bool)
    requires Ends(a, b, cut, pre) && (Ends(b, c, cut, pre) || Ends(b, c, false, false))
    ensures Ends(a, c, cut, pre)
  {
  }

  lemma FinishEnds(s: State, now: nat, newId: nat)
    ensures Ends(s.line.log, FinishConnect(s, now, newId).line.log, false, false)
  {
    hide ConnectFill, Six, Byte;
    FillEnds(s, now);
    var o := ConnectFill(s, now);
    EndsJoin(s.line.log, o.line.log, SendTerm(o, Closed, now).line.log, false, false);
  }

  lemma EmitEnds(s: State, now: nat, newId: nat)
    ensures Ends(s.line.log, EmitConnect(s, now, newId).line.log, false, false)
  {
    hide FinishConnect, Six, Byte;
    FinishEnds(s, now, newId);
  }

  lemma PollEnds(s: State, connected: bool, now: nat, newId: nat)
    ensures Ends(s.line.log, PollConnect(s, connected, now, newId).line.log, !connected, false)
  {
    hide EmitConnect, Ends, CutConnect;
    var a := if connected && !s.wasConnected then StartConnect(s, now, newId) else s;
    var b := (if !connected then CutConnect(a) else a).(wasConnected := connected);
    CutEnds(s);
    CutEnds(a);
    EmitEnds(b, now, newId);
    EndsJoin(s.line.log, b.line.log, EmitConnect(b, now, newId).line.log, !connected, false);
  }

  lemma CutEnds(s: State)
    ensures Ends(s.line.log, CutConnect(s).line.log, true, false)
    ensures Ends(s.line.log, s.line.log, false, false)
  {
  }

  lemma PaceEnds(s: State, now: nat)
    ensures Ends(s.line.log, PaceEnd(s, now).line.log, false, false)
  {
    hide Six, Byte;
  }

  lemma EmitVoiceEnds(s: State, voice: seq<VoiceFrame>, now: nat, newId: nat, talker: int)
    ensures Ends(s.line.log, EmitVoice(s, voice, now, newId, talker).line.log, false, false)
  {
    hide Six, Byte;
  }

  lemma PaceTxEnds(s: State, now: nat, newId: nat, talker: int)
    ensures Ends(s.line.log, PaceTx(s, now, newId, talker).line.log, false, false)
  {
    hide EmitVoice;
    EmitVoiceEnds(s.(conv := AfterGet(s.conv)), Taken(s.conv), now, newId, talker);
  }

  lemma {:induction false} BlocksSilent(s: State, bs: seq<Block>, streak: nat, now: nat)
    ensures OnBlocks(s, bs, streak, now).line == s.line
    decreases |bs|
  {
    if bs != [] && (Cooling(s, now) || !bs[0].Failed? || streak < 2) {
      var left := if Cooling(s, now) then streak else if bs[0].Failed? then streak + 1 else 0;
      BlocksSilent(OnBlock(s, bs[0], now), bs[1..], left, now);
    }
  }

  /** A stream is left without its terminator only by a tick that finds the link down, and
      terminated off the superframe only by a DMR header during an EchoLink call. */
  lemma HowStreamsEnd(s: State, e: Event, now: nat)
    ensures Ends(s.line.log, Step(s, e, now).line.log, e.Tick? && !e.connected,
      e.Dmrd? && IsDmrd(e.pkt) && HeaderByte(e.pkt[15]) && s.callActive == 1)
  {
    hide Six, Byte, PollConnect, PaceEnd, PaceTx, OnBlocks, HeaderByte, TermByte;
    match e
    case Tick(connected, newId, talker) =>
      PollEnds(s, connected, now, newId);
      var a := PollConnect(s, connected, now, newId);
      PaceEnds(a, now);
      PaceTxEnds(a, now, newId, talker);
      EndsJoin(s.line.log, a.line.log, PaceEnd(a, now).line.log, !connected, false);
      EndsJoin(s.line.log, a.line.log, PaceTx(a, now, newId, talker).line.log, !connected, false);
    case Dmrd(pkt) =>
    case Arrive(_) =>
    case Audio(coder) => BlocksSilent(s.(waiting := 0), seq(s.waiting, i requires i >= 0 => coder(i)), 0, now);
  }
}
