/** Who keeps the slot, and for how long: over every run of the EchoLink-DMR bridge. */
module CallTimes {
  import opened WireGrammar
  import opened CallFlow
  import opened CallSafety
  import CallVoice

  /** All events of a run lie in the ms milliseconds from time t on. */
  ghost predicate Within(es: seq<Stamped>, t: nat, ms: nat) {
    forall i: nat | i < |es| :: t <= es[i].now < t + ms
  }

  predicate Terminates(e: Event) {
    e.Dmrd? && IsDmrd(e.pkt) && !HeaderByte(e.pkt[15]) && TermByte(e.pkt[15])
  }

  predicate TakesSlot(e: Event) {
    e.Dmrd? && IsDmrd(e.pkt) && HeaderByte(e.pkt[15])
  }

  predicate Voice(e: Event) {
    e.Dmrd? && IsDmrd(e.pkt) && !HeaderByte(e.pkt[15]) && !TermByte(e.pkt[15])
  }

  // ------------------------------------------------------------------ DMR calls

  /** A tick leaves everything of a DMR call alone but for its end, which comes after the hang time. */
  lemma TickInDmrCall(s: State, e: Event, now: nat)
    requires e.Tick? && s.callActive == 2 && !s.ending
    ensures var t := OnTick(s, e, now);
      t.lastRx == s.lastRx && t.callActive == (if now - s.lastRx >= 1500 then 0 else 2) && !t.ending
  {
    hide PollConnect;
    CallVoice.PollTouches(s, e.connected, now, e.newId);
  }

  /** Voice and a repeated header renew a DMR call, another header replaces it, a terminator ends it, and
      nothing else touches it. */
  lemma DmrdInDmrCall(s: State, pkt: seq<bv8>, now: nat)
    requires s.callActive == 2
    ensures var e, t := Dmrd(pkt), OnDmrd(s, pkt, now);
      && (Voice(e) || TakesSlot(e) ==> t.callActive == 2 && t.lastRx == now)
      && (Terminates(e) ==> t.callActive == 0)
      && (!IsDmrd(pkt) ==> t.callActive == 2 && t.lastRx == s.lastRx)
      && t.ending == s.ending
  {
    hide HeaderByte, TermByte, IsDmrd;
  }

  /** A DMR call keeps the slot for the whole hang time after its last header or voice packet, whatever
      else happens, unless its terminator comes. */
  lemma {:induction false} SlotHeld(s: State, es: seq<Stamped>, t: nat)
    requires s.callActive == 2 && !s.ending && s.lastRx >= t && Within(es, t, 1500)
    requires forall i: nat | i < |es| :: !Terminates(es[i].event)
    ensures var u := Run(s, es); u.callActive == 2 && !u.ending && u.lastRx >= t
    decreases |es|
  {
    hide OnTick, OnDmrd, OnBlocks, Terminates, TakesSlot, Voice, IsDmrd;
    if es != [] {
      var front, last := es[..|es| - 1], es[|es| - 1];
      SlotHeld(s, front, t);
      var r := Run(s, front);
      assert !Terminates(last.event) && t <= last.now < t + 1500;
      match last.event
      case Tick(_, _, _) => TickInDmrCall(r, last.event, last.now);
      case Dmrd(pkt) => DmrdInDmrCall(r, pkt, last.now); SomePacket(last.event);
      case Arrive(_) =>
      case Audio(_) =>
    }
  }

  lemma SomePacket(e: Event)
    requires e.Dmrd?
    ensures Voice(e) || TakesSlot(e) || Terminates(e) || !IsDmrd(e.pkt)
  {
    hide HeaderByte, TermByte, IsDmrd;
  }

  // ------------------------------------------------------------- EchoLink calls

  /** A tick tears an open call down only when no audio has been read for the hang time. */
  lemma TickInCall(s: State, e: Event, now: nat)
    requires e.Tick? && s.callActive == 1 && !s.ending
    ensures var t := OnTick(s, e, now);
      t.callActive == 1 && t.lastSpeech == s.lastSpeech && (t.ending <==> now - s.lastSpeech >= 700)
  {
    hide PollConnect, EmitVoice, Taken, AfterGet;
    CallVoice.PollTouches(s, e.connected, now, e.newId);
    var a := PollConnect(s, e.connected, now, e.newId);
    EmitInCall(a.(conv := AfterGet(a.conv)), Taken(a.conv), now, e.newId, e.talker);
  }

  lemma EmitInCall(s: State, voice: seq<VoiceFrame>, now: nat, newId: nat, talker: int)
    requires s.callActive == 1
    ensures var t := EmitVoice(s, voice, now, newId, talker);
      t.callActive == 1 && t.ending == s.ending && t.lastSpeech == s.lastSpeech && t.lastRx == s.lastRx
  {
    hide Six, Byte;
  }

  lemma AudioStamps(s: State, coder: nat -> Block, now: nat)
    requires !s.ending && s.callActive != 2
    ensures var t := OnAudio(s, coder, now);
      t.callActive == s.callActive && !t.ending && t.lastSpeech == if s.waiting > 0 then now else s.lastSpeech
  {
    BlocksStamp(s.(waiting := 0), CallVoice.Waiting(s, coder), 0, now);
  }

  lemma {:induction false} BlocksStamp(s: State, bs: seq<Block>, streak: nat, now: nat)
    ensures var t := OnBlocks(s, bs, streak, now);
      t.callActive == s.callActive && t.ending == s.ending && t.lastEnd == s.lastEnd
      && t.lastSpeech == if bs == [] then s.lastSpeech else now
    decreases |bs|
  {
    hide PutFrame;
    if bs != [] && (Cooling(s, now) || !bs[0].Failed? || streak < 2) {
      var left := if Cooling(s, now) then streak else if bs[0].Failed? then streak + 1 else 0;
      BlocksStamp(OnBlock(s, bs[0], now), bs[1..], left, now);
    }
  }

  /** An EchoLink call stays open for the whole hang time after audio was last read, unless DMR takes the slot. */
  lemma {:induction false} CallHeld(s: State, es: seq<Stamped>, t: nat)
    requires s.callActive == 1 && !s.ending && s.lastSpeech >= t && Within(es, t, 700)
    requires forall i: nat | i < |es| :: !TakesSlot(es[i].event)
    ensures var u := Run(s, es); u.callActive == 1 && !u.ending && u.lastSpeech >= t
    decreases |es|
  {
    hide OnTick, OnAudio;
    if es != [] {
      var front, last := es[..|es| - 1], es[|es| - 1];
      CallHeld(s, front, t);
      var r := Run(s, front);
      assert !TakesSlot(last.event) && t <= last.now < t + 700;
      match last.event
      case Tick(_, _, _) => TickInCall(r, last.event, last.now);
      case Dmrd(_) =>
      case Arrive(_) =>
      case Audio(coder) => AudioStamps(r, coder, last.now);
    }
  }

  // --------------------------------------------------------------------- pacing

  /** In a call a connect PTT does nothing. */
  lemma PollInCall(s: State, connected: bool, now: nat, newId: nat)
    requires s.callActive == 1 && !s.ptt.active
    ensures var a := PollConnect(s, connected, now, newId);
      !a.ptt.active && a == s.(ptt := a.ptt, wasConnected := connected)
  {
    hide EmitConnect;
  }

  /** A tick sends a burst of an open call exactly when there is one and the last packet is 60 ms old. */
  lemma TickPaces(s: State, e: Event, now: nat)
    requires e.Tick? && s.callActive == 1 && !s.ending && !s.ptt.active && s.Src() > 0
    ensures var t := OnTick(s, e, now);
      && |t.line.wire| == |s.line.wire| + (if now - s.lastTx >= 60 && Taken(s.conv) != [] then 1 else 0)
      && (!t.ending ==> t.lastTx == if |t.line.wire| > |s.line.wire| then now else s.lastTx)
  {
    hide PollConnect, Taken, AfterGet, Six, Byte;
    PollInCall(s, e.connected, now, e.newId);
  }

  /** So for 60 ms after a burst of an open call nothing is sent, unless DMR takes the slot. */
  lemma {:induction false} BurstsSpaced(s: State, es: seq<Stamped>, t: nat, h: nat)
    requires Inv(s) && s.callActive == 1 && !s.ending && s.lastTx >= t && s.lastSpeech >= h && Within(es, h, 700)
    requires forall i: nat | i < |es| :: !TakesSlot(es[i].event) && es[i].now < t + 60
    ensures var u := Run(s, es); u.line == s.line && u.lastTx == s.lastTx
    decreases |es|
  {
    hide OnTick, OnBlocks, Inv;
    if es != [] {
      var front, last := es[..|es| - 1], es[|es| - 1];
      BurstsSpaced(s, front, t, h);
      CallHeld(s, front, h);
      RunKeeps(s, front);
      var r := Run(s, front);
      assert !TakesSlot(last.event) && last.now < t + 60 && h <= last.now < h + 700;
      match last.event
      case Tick(_, _, _) => TickWaits(r, last.event, last.now);
      case Dmrd(_) =>
      case Arrive(_) =>
      case Audio(coder) => BlocksSilent(r.(waiting := 0), CallVoice.Waiting(r, coder), 0, last.now);
    }
  }

  lemma TickWaits(s: State, e: Event, now: nat)
    requires e.Tick? && Inv(s) && s.callActive == 1 && !s.ending && now - s.lastTx < 60 && now - s.lastSpeech < 700
    ensures var t := OnTick(s, e, now); t.line == s.line && t.lastTx == s.lastTx
  {
    hide PollConnect, Grammatical, Conserved;
    PollInCall(s, e.connected, now, e.newId);
  }

  lemma {:induction false} BlocksSilent(s: State, bs: seq<Block>, streak: nat, now: nat)
    ensures var t := OnBlocks(s, bs, streak, now); t.line == s.line && t.lastTx == s.lastTx
    decreases |bs|
  {
    hide PutFrame, Cooling;
    if bs != [] && (Cooling(s, now) || !bs[0].Failed? || streak < 2) {
      var left := if Cooling(s, now) then streak else if bs[0].Failed? then streak + 1 else 0;
      BlocksSilent(OnBlock(s, bs[0], now), bs[1..], left, now);
    }
  }

  /** A connect PTT sends its header first and bursts for 500 ms from then on, each 60 ms or more behind
      the last packet, and then ends. */
  lemma ConnectPaces(s: State, connected: bool, now: nat, newId: nat)
    requires connected && s.wasConnected && s.ptt.active && s.Src() > 0
    ensures var t := PollConnect(s, connected, now, newId);
      && (now - s.lastTx < 60 ==> t.line == s.line && t.ptt == s.ptt)
      && (now - s.lastTx >= 60 && s.ptt.phase == 0 ==>
            t.line.wire == s.line.wire + [Packet(s.streamId, s.seqNo, s.TxTg(), s.Src(), s.callActive == 1, Head)] && t.ptt.start == now)
      && (now - s.lastTx >= 60 && s.ptt.phase != 0 && now - s.ptt.start < 500 ==>
            |t.line.wire| == |s.line.wire| + 1 && t.lastTx == now && t.ptt.frames == s.ptt.frames + 1)
      && (now - s.lastTx >= 60 && s.ptt.phase != 0 && now - s.ptt.start >= 500 ==> t == FinishConnect(s, now, newId))
  {
    hide FinishConnect, Six, Byte;
  }

  // ------------------------------------------------------------------- cooldown

  /** Nothing is queued, and the last call ended at time t. */
  ghost predicate Rested(s: State, t: nat) {
    s.callActive != 1 && 0 <= s.callActive <= 2 && !s.ending && s.conv.ring == [] && s.lastEnd == t
  }

  lemma {:induction false} CooledBlocks(s: State, bs: seq<Block>, streak: nat, now: nat)
    requires Cooling(s, now)
    ensures var t := OnBlocks(s, bs, streak, now); t.conv == s.conv && t.callActive == s.callActive && t.lastEnd == s.lastEnd && t.ending == s.ending
    decreases |bs|
  {
    if bs != [] {
      CallVoice.CooledBlock(s, bs[0], now);
      CooledBlocks(OnBlock(s, bs[0], now), bs[1..], streak, now);
    }
  }

  lemma RestedTick(s: State, e: Event, now: nat, t: nat)
    requires e.Tick? && Rested(s, t)
    ensures Rested(OnTick(s, e, now), t)
  {
    hide PollConnect, EmitVoice;
    CallVoice.PollTouches(s, e.connected, now, e.newId);
  }

  /** After a call has ended no other EchoLink call begins within the cooldown, whatever is heard. */
  lemma {:induction false} CooldownHolds(s: State, es: seq<Stamped>, t: nat)
    requires Rested(s, t) && t > 0 && Within(es, t, 800)
    ensures Rested(Run(s, es), t)
    decreases |es|
  {
    hide OnTick, OnBlocks;
    if es != [] {
      var front, last := es[..|es| - 1], es[|es| - 1];
      CooldownHolds(s, front, t);
      var r := Run(s, front);
      assert t <= last.now < t + 800;
      match last.event
      case Tick(_, _, _) => RestedTick(r, last.event, last.now, t);
      case Dmrd(_) =>
      case Arrive(_) =>
      case Audio(coder) => 
        if r.callActive == 0 {
          CooledBlocks(r.(waiting := 0), CallVoice.Waiting(r, coder), 0, last.now);
        }
    }
  }

  /** The end of a call leaves the bridge like that. */
  lemma EndsRested(s: State, now: nat)
    requires s.callActive == 1
    ensures Rested(FinishEnd(s, now), now)
  {
  }

  /** And when the cooldown is over audio is heard again. */
  lemma CooldownEnds(s: State, now: nat)
    requires Rested(s, s.lastEnd)
    ensures Cooling(s, now) <==> s.callActive == 0 && s.lastEnd > 0 && now < s.lastEnd + 800
  {
  }

  // ------------------------------------------------------- talkgroups and sources

  /** Calls go to the configured talkgroup; a connect PTT goes there too, or to 4000 if it is to clear what
      is subscribed, and is sent under the bridge's own id. */
  predicate Addressed(cfg: Config, c: Stream) {
    match c.kind
    case Call => c.tg == cfg.tg
    case Connect => c.src == cfg.dmrid && (c.tg == cfg.tg || (cfg.clearDynamic && c.tg == 4000))
  }

  ghost predicate AllAddressed(s: State) {
    && (forall i: nat | i < |s.line.log| :: Addressed(s.cfg, s.line.log[i]))
    && (s.ptt.active ==> s.callActive != 1 && s.rfId == 0 && s.ptt.tg > 0 && Staged(s))
  }

  predicate Staged(s: State) {
    if s.ptt.clearing then s.cfg.clearDynamic && s.ptt.tg == 4000 else s.ptt.tg == s.cfg.tg
  }

  /** Sending a burst or a terminator leaves every stream's address alone. */
  lemma SwapAddressed(s: State, body: Body, c: Stream, now: nat)
    requires AllAddressed(s) && c.tg == s.Cur().tg && c.src == s.Cur().src && c.kind == s.Cur().kind
    ensures AllAddressed(Send(s, body, now, s.line.Swap(c)))
  {
  }

  lemma HeadAddressed(s: State, kind: Kind, now: nat)
    requires AllAddressed(s) && (kind.Connect? ==> s.ptt.active) && (kind.Call? ==> !s.ptt.active)
    ensures AllAddressed(SendHead(s, kind, now))
  {
  }

  lemma {:induction false} FillAddressed(s: State, now: nat)
    requires AllAddressed(s)
    ensures AllAddressed(ConnectFill(s, now))
    decreases 6 - if Six(s.ptt.frames) == 0 then 6 else Six(s.ptt.frames)
  {
    hide Byte, Send, AllAddressed;
    if Six(s.ptt.frames) != 0 {
      WrapsSix(s.ptt.frames);
      BurstAddressed(s, now);
      FillAddressed(ConnectBurst(s, now), now);
    }
  }

  lemma BurstAddressed(s: State, now: nat)
    requires AllAddressed(s)
    ensures AllAddressed(ConnectBurst(s, now)) && ConnectBurst(s, now).ptt == s.ptt.(frames := s.ptt.frames + 1)
  {
    hide Byte, Send, Six;
    SwapAddressed(s, Burst(Six(s.ptt.frames), Silence), s.Cur().(pads := s.Cur().pads + 1), now);
    SendKeeps(s, Burst(Six(s.ptt.frames), Silence), now, s.line.Swap(s.Cur().(pads := s.Cur().pads + 1)));
  }

  lemma SendKeeps(s: State, body: Body, now: nat, log: seq<Stream>)
    ensures var t := Send(s, body, now, log); t == s.(line := t.line, seqNo := t.seqNo, lastTx := t.lastTx)
  {
  }

  lemma FinishAddressed(s: State, now: nat, newId: nat)
    requires AllAddressed(s) && s.ptt.active
    ensures AllAddressed(FinishConnect(s, now, newId))
  {
    hide Byte, Send, Six, ConnectFill;
    FillAddressed(s, now);
    CallVoice.FillTouches(s, now);
    FillStage(s, now);
    var o := ConnectFill(s, now);
    SwapAddressed(o, Term, o.Cur().(end := Closed), now);
    SendKeeps(o, Term, now, o.line.Swap(o.Cur().(end := Closed)));
  }

  lemma {:induction false} FillStage(s: State, now: nat)
    ensures ConnectFill(s, now).ptt == s.ptt.(frames := ConnectFill(s, now).ptt.frames)
    decreases 6 - if Six(s.ptt.frames) == 0 then 6 else Six(s.ptt.frames)
  {
    if Six(s.ptt.frames) != 0 {
      WrapsSix(s.ptt.frames);
      FillStage(ConnectBurst(s, now), now);
    }
  }

  lemma EmitAddressed(s: State, now: nat, newId: nat)
    requires AllAddressed(s)
    ensures AllAddressed(EmitConnect(s, now, newId))
  {
    hide Byte, Send, Six, FinishConnect, ConnectBurst;
    if s.ptt.active {
      FinishAddressed(s, now, newId);
      BurstAddressed(s, now);
      HeadAddressed(s, Connect, now);
      SendKeeps(s, Head, now, s.line.log + [Stream(s.streamId, s.TxTg(), s.Src(), Connect, [], 0, Open)]);
    }
  }

  lemma PollAddressed(s: State, connected: bool, now: nat, newId: nat)
    requires AllAddressed(s) && Inv(s)
    ensures AllAddressed(PollConnect(s, connected, now, newId))
  {
    hide EmitConnect, Sending, Quiet, Grammatical, Conserved;
    var a := if connected && !s.wasConnected then StartConnect(s, now, newId) else s;
    var b := (if !connected then CutConnect(a) else a).(wasConnected := connected);
    assert AllAddressed(b);
    EmitAddressed(b, now, newId);
  }

  lemma EmitVoiceAddressed(s: State, voice: seq<VoiceFrame>, now: nat, newId: nat, talker: int)
    requires AllAddressed(s) && !s.ptt.active
    ensures AllAddressed(EmitVoice(s, voice, now, newId, talker))
  {
    hide Byte, Six, Send;
    var n := Six(s.frames);
    var start := s.(callActive := 1, streamId := newId, seqNo := 0, frames := 0, conv := EmptyConv, rfId := talker);
    HeadAddressed(start, Call, now);
    SendKeeps(start, Head, now, start.line.log + [Stream(start.streamId, start.TxTg(), start.Src(), Call, [], 0, Open)]);
    var o := if s.callActive != 0 then s else SendHead(start, Call, now);
    var c := o.Cur().(speech := o.Cur().speech + [voice]);
    SwapAddressed(o, Burst(n, Speech(voice)), c, now);
    SendKeeps(o, Burst(n, Speech(voice)), now, o.line.Swap(c));
  }

  lemma PaceAddressed(s: State, now: nat, newId: nat, talker: int)
    requires AllAddressed(s) && Inv(s)
    ensures AllAddressed(PaceTx(s, now, newId, talker)) && AllAddressed(PaceEnd(s, now)) && AllAddressed(EndCall(s, now))
  {
    hide Byte, Six, Send, EmitVoice, Taken, AfterGet, Sending, Quiet, Grammatical, Conserved;
    if !s.ptt.active {
      EmitVoiceAddressed(s.(conv := AfterGet(s.conv)), Taken(s.conv), now, newId, talker);
    }
    SwapAddressed(s, Burst(Six(s.frames), Silence), s.Cur().(pads := s.Cur().pads + 1), now);
    SendKeeps(s, Burst(Six(s.frames), Silence), now, s.line.Swap(s.Cur().(pads := s.Cur().pads + 1)));
    SwapAddressed(s, Term, s.Cur().(end := Closed), now);
    SendKeeps(s, Term, now, s.line.Swap(s.Cur().(end := Closed)));
    SwapAddressed(s, Term, s.Cur().(end := Preempted), now);
    SendKeeps(s, Term, now, s.line.Swap(s.Cur().(end := Preempted)));
  }

  lemma StepAddressed(s: State, e: Event, now: nat)
    requires AllAddressed(s) && Inv(s)
    ensures AllAddressed(Step(s, e, now))
  {
    hide OnBlocks, HeaderByte, TermByte, IsDmrd, PollConnect, PaceEnd, PaceTx, EndCall, Sending, Quiet, Grammatical, Conserved;
    match e
    case Tick(connected, newId, talker) =>
      PollAddressed(s, connected, now, newId);
      PollConnectKeeps(s, connected, now, newId);
      PaceAddressed(PollConnect(s, connected, now, newId), now, newId, talker);
    case Dmrd(_) => PaceAddressed(s, now, 0, 0);
    case Arrive(_) =>
    case Audio(coder) =>
      BlocksSilent(s.(waiting := 0), CallVoice.Waiting(s, coder), 0, now);
      BlocksAside(s.(waiting := 0), CallVoice.Waiting(s, coder), 0, now);
  }

  lemma {:induction false} BlocksAside(s: State, bs: seq<Block>, streak: nat, now: nat)
    ensures var t := OnBlocks(s, bs, streak, now); t.ptt == s.ptt && t.callActive == s.callActive && t.rfId == s.rfId && t.cfg == s.cfg
    decreases |bs|
  {
    hide PutFrame;
    if bs != [] && (Cooling(s, now) || !bs[0].Failed? || streak < 2) {
      var left := if Cooling(s, now) then streak else if bs[0].Failed? then streak + 1 else 0;
      BlocksAside(OnBlock(s, bs[0], now), bs[1..], left, now);
    }
  }

  /** After every run all streams have gone where they should. */
  lemma {:induction false} EveryStreamAddressed(cfg: Config, start: nat, es: seq<Stamped>)
    ensures var s := Run(Fresh(cfg, start), es); AllAddressed(s) && s.cfg == cfg
    decreases |es|
  {
    hide Step, Inv, AllAddressed;
    if es == [] {
      FreshAddressed(cfg, start);
    } else {
      var front, n := es[..|es| - 1], |es| - 1;
      EveryStreamAddressed(cfg, start, front);
      FreshInv(cfg, start);
      RunKeeps(Fresh(cfg, start), front);
      StepAddressed(Run(Fresh(cfg, start), front), es[n].event, es[n].now);
      StepConfig(Run(Fresh(cfg, start), front), es[n].event, es[n].now);
    }
  }

  lemma FreshAddressed(cfg: Config, start: nat)
    ensures AllAddressed(Fresh(cfg, start))
  {
  }

  lemma StepConfig(s: State, e: Event, now: nat)
    ensures Step(s, e, now).cfg == s.cfg
  {
    hide OnBlocks, HeaderByte, TermByte, IsDmrd, PollConnect, Six, Byte;
    match e
    case Tick(connected, newId, _) => CallVoice.PollTouches(s, connected, now, newId);
    case Dmrd(_) =>
    case Arrive(_) =>
    case Audio(coder) => BlocksAside(s.(waiting := 0), CallVoice.Waiting(s, coder), 0, now);
  }

  /** A connect PTT to clear what is subscribed goes first, and is followed by the one to the talkgroup. */
  lemma ConnectStages(s: State, now: nat, newId: nat)
    requires s.cfg.tg > 0
    ensures s.callActive == 0 && !s.ptt.active ==>
      var p := StartConnect(s, now, newId).ptt; p.active && p.clearing == s.cfg.clearDynamic && p.tg == if s.cfg.clearDynamic then 4000 else s.cfg.tg
    ensures s.ptt.active ==>
      var p := FinishConnect(s, now, newId).ptt; if s.ptt.clearing then p.active && !p.clearing && p.tg == s.cfg.tg else !p.active
    ensures s.ptt.active && s.ptt.phase == 1 ==>
      var p := EmitConnect(s, now, newId).ptt; p.active && p.phase == 1 && p.start == s.ptt.start <==> now - s.ptt.start < 500
  {
    hide Six, Byte, ConnectFill;
    FillStage(s, now);
    CallVoice.FillTouches(s, now);
  }
}
