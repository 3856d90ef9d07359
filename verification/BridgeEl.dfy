/**
 The EchoLink-DMR bridge as its handlers work: one object whose fields they update one by one.
 Abs is the state of CallFlow that the fields amount to; every method takes the step of the state
 machine that its handler takes.
 */
module BridgeEl {
  import opened WireGrammar
  import opened CallFlow
  import CallSafety
  import VoiceQueue

  class Bridge {
    const cfg: Config
    var callActive: int
    var dmrEnding: bool
    var voiceFrames: nat
    var streamId: nat
    var seqNo: nat
    var rfId: int
    var rxStream: seq<bv8>
    var pttActive: bool
    var pttPhase: nat
    var pttFrames: nat
    var pttTg: int
    var pttClearing: bool
    var pttStart: nat
    var wasConnected: bool
    var lastTx: nat
    var lastRx: nat
    var lastSpeech: nat
    var lastEnd: nat
    var ambe: seq<VoiceFrame>
    var conv: Conv
    var waiting: nat
    ghost var line: Line
    ghost var clock: nat

    ghost function Abs(): State
      reads this
    {
      State(cfg, callActive, dmrEnding, voiceFrames, streamId, seqNo, rfId, rxStream,
            Ptt(pttActive, pttPhase, pttFrames, pttTg, pttClearing, pttStart), wasConnected,
            lastTx, lastRx, lastSpeech, lastEnd, ambe, conv, waiting, line, clock)
    }

    ghost predicate Valid()
      reads this
    {
      CallSafety.Inv(Abs())
    }

    constructor (cfg: Config, now: nat)
      ensures Valid() && Abs() == Fresh(cfg, now)
    {
      this.cfg := cfg;
      callActive, dmrEnding, voiceFrames, streamId, seqNo, rfId, rxStream := 0, false, 0, 0, 0, 0, NO_STREAM;
      pttActive, pttPhase, pttFrames, pttTg, pttClearing, pttStart := false, 0, 0, 0, false, 0;
      wasConnected, lastTx, lastRx, lastSpeech, lastEnd := false, now, now, now, 0;
      ambe, conv, waiting := [], EmptyConv, 0;
      line, clock := Line([], []), now;
      new;
      CallSafety.FreshInv(cfg, now);
    }

    // ---------------------------------------------------------------- packets

    method SendDmrd(body: Body, now: nat, ghost log: seq<Stream>)
      modifies this`line, this`seqNo, this`lastTx
      ensures Abs() == Send(old(Abs()), body, now, log)
    {
      var tg := if pttActive && pttTg > 0 then pttTg else cfg.tg;
      var src := if rfId > 0 then rfId else cfg.dmrid;
      if src <= 0 {
        return;
      }
      line := line.Sent(Packet(streamId, seqNo, tg, src, callActive == 1, body), log);
      seqNo, lastTx := (seqNo + 1) % 256, now;
    }

    // ---------------------------------------------------------- EchoLink calls

    method ResetConverter()
      modifies this`conv
      ensures Abs() == old(Abs()).(conv := EmptyConv)
    {
      conv := EmptyConv;
    }

    method PutAmbe7(f: VoiceFrame)
      modifies this`conv
      ensures Abs() == old(Abs()).(conv := PutFrame(old(conv), f))
    {
      conv := PutFrame(conv, f);
    }

    method GetDmr() returns (voice: seq<VoiceFrame>)
      modifies this`conv
      ensures voice == Taken(old(conv)) && Abs() == old(Abs()).(conv := AfterGet(old(conv)))
    {
      voice := Taken(conv);
      conv := AfterGet(conv);
    }

    method OpenCall()
      modifies this`callActive, this`voiceFrames
      ensures Abs() == old(Abs()).(callActive := 1, frames := 0)
    {
      callActive, voiceFrames := 1, 0;
    }

    method NewStream(newId: nat)
      modifies this`streamId, this`seqNo
      ensures Abs() == old(Abs()).(streamId := newId, seqNo := 0)
    {
      streamId, seqNo := newId, 0;
    }

    /** The header of a new call, with the converter reset. */
    method StartCall(now: nat, newId: nat, talker: int)
      modifies this
      ensures Abs() == SendHead(old(Abs()).(callActive := 1, streamId := newId, seqNo := 0, frames := 0,
                                            conv := EmptyConv, rfId := talker), Call, now)
    {
      hide Send;
      OpenCall();
      NewStream(newId);
      ResetConverter();
      rfId := talker;
      ghost var v := Abs();
      SendDmrd(Head, now, line.log + [Stream(v.streamId, v.TxTg(), v.Src(), Call, [], 0, Open)]);
    }

    method SpeechBurst(n: nat, voice: seq<VoiceFrame>, now: nat)
      modifies this`line, this`seqNo, this`lastTx
      ensures Abs() == SendSpeech(old(Abs()), n, voice, now)
    {
      hide Send;
      ghost var c := Abs().Cur();
      SendDmrd(Burst(n, Speech(voice)), now, line.Swap(c.(speech := c.speech + [voice])));
    }

    method EmitDmrVoice(voice: seq<VoiceFrame>, now: nat, newId: nat, talker: int)
      modifies this
      ensures Abs() == EmitVoice(old(Abs()), voice, now, newId, talker)
    {
      hide SendHead, SendSpeech;
      var n := voiceFrames % 6;
      if callActive == 0 {
        StartCall(now, newId, talker);
      }
      SpeechBurst(n, voice, now);
      voiceFrames := voiceFrames + 1;
    }

    method DropAudio()
      modifies this`ambe, this`conv, this`waiting
      ensures Abs() == old(Abs()).(ambe := [], conv := EmptyConv, waiting := 0)
    {
      ambe, waiting := [], 0;
      ResetConverter();
    }

    method BeginDmrEnd()
      modifies this
      ensures Abs() == BeginEnd(old(Abs()))
    {
      if callActive != 1 || dmrEnding {
        return;
      }
      dmrEnding := true;
      DropAudio();
      lastTx := 0;
    }

    method ClearCall()
      modifies this`callActive, this`dmrEnding
      ensures Abs() == old(Abs()).(callActive := 0, ending := false)
    {
      callActive, dmrEnding := 0, false;
    }

    method ClearTalker()
      modifies this`voiceFrames, this`rfId
      ensures Abs() == old(Abs()).(frames := 0, rfId := 0)
    {
      voiceFrames, rfId := 0, 0;
    }

    method FinishDmrEnd(now: nat)
      modifies this
      ensures Abs() == FinishEnd(old(Abs()), now)
    {
      ClearCall();
      ClearTalker();
      DropAudio();
      lastEnd := now;
    }

    method PaceDmrEnd(now: nat)
      modifies this
      ensures Abs() == PaceEnd(old(Abs()), now)
    {
      if !dmrEnding || callActive != 1 || now - lastTx < FRAME_MS {
        return;
      }
      ghost var c := Abs().Cur();
      if voiceFrames % 6 != 0 {
        SendDmrd(Burst(voiceFrames % 6, Silence), now, line.Swap(c.(pads := c.pads + 1)));
        voiceFrames := voiceFrames + 1;
        return;
      }
      SendDmrd(Term, now, line.Swap(c.(end := Closed)));
      FinishDmrEnd(now);
    }

    method EndDmrCall(now: nat)
      modifies this
      ensures Abs() == EndCall(old(Abs()), now)
    {
      if callActive != 1 && !dmrEnding {
        return;
      }
      if callActive == 1 {
        ghost var c := Abs().Cur();
        SendDmrd(Term, now, line.Swap(c.(end := Preempted)));
      }
      FinishDmrEnd(now);
    }

    method PaceDmrTx(now: nat, newId: nat, talker: int)
      modifies this
      ensures Abs() == PaceTx(old(Abs()), now, newId, talker)
    {
      hide EmitVoice, Taken, AfterGet;
      if callActive == 2 || pttActive || dmrEnding {
        return;
      }
      if callActive == 1 && now - lastTx < FRAME_MS {
        return;
      }
      var voice := GetDmr();
      if voice != [] {
        EmitDmrVoice(voice, now, newId, talker);
      }
    }

    // ------------------------------------------------------------- connect PTT

    method SetStage(active: bool, tg: int, clearing: bool)
      modifies this`pttActive, this`pttTg, this`pttClearing
      ensures Abs() == old(Abs()).(ptt := old(Abs()).ptt.(active := active, tg := tg, clearing := clearing))
    {
      pttActive, pttTg, pttClearing := active, tg, clearing;
    }

    method RestartStage()
      modifies this`pttPhase, this`pttFrames
      ensures Abs() == old(Abs()).(ptt := old(Abs()).ptt.(phase := 0, frames := 0))
    {
      pttPhase, pttFrames := 0, 0;
    }

    method BeginStream(tg: int, clearing: bool, now: nat, newId: nat)
      modifies this
      ensures Abs() == BeginConnect(old(Abs()), tg, clearing, now, newId)
    {
      SetStage(true, tg, clearing);
      RestartStage();
      pttStart := now;
      NewStream(newId);
      lastTx := now % 1000;
    }

    method ClearPtt()
      modifies this`pttActive, this`pttTg, this`pttClearing, this`pttPhase, this`pttFrames
      ensures Abs() == old(Abs()).(ptt := NoPtt.(start := old(Abs()).ptt.start))
    {
      SetStage(false, 0, false);
      RestartStage();
    }

    method SendSilent(now: nat)
      modifies this
      ensures Abs() == ConnectBurst(old(Abs()), now)
    {
      ghost var c := Abs().Cur();
      SendDmrd(Burst(pttFrames % 6, Silence), now, line.Swap(c.(pads := c.pads + 1)));
      pttFrames := pttFrames + 1;
    }

    /** The padding loop, the terminator, and the next stage if there is one. */
    method ConnectFinish(now: nat, newId: nat)
      modifies this
      ensures Abs() == FinishConnect(old(Abs()), now, newId)
    {
      hide ConnectBurst, Byte;
      var wasClearing := pttClearing;
      ghost var start := Abs();
      PadConnect(now);
      ghost var c := Abs().Cur();
      SendDmrd(Term, now, line.Swap(c.(end := Closed)));
      ConnectFillShape(start, now);
      if wasClearing && cfg.tg > 0 {
        BeginStream(cfg.tg, false, now, newId);
        return;
      }
      ClearPtt();
    }

    method PadConnect(now: nat)
      modifies this
      ensures Abs() == ConnectFill(old(Abs()), now)
    {
      hide ConnectBurst;
      ghost var start := Abs();
      while pttFrames % 6 != 0
        invariant ConnectFill(Abs(), now) == ConnectFill(start, now)
        decreases 6 - if Six(pttFrames) == 0 then 6 else Six(pttFrames)
      {
        Bursts(Abs(), now);
        SendSilent(now);
      }
    }

    method StartConnectPtt(now: nat, newId: nat)
      modifies this
      ensures Abs() == StartConnect(old(Abs()), now, newId)
    {
      if callActive != 0 || pttActive || cfg.tg <= 0 {
        return;
      }
      if cfg.clearDynamic {
        BeginStream(CLEAR_TG, true, now, newId);
      } else {
        BeginStream(cfg.tg, false, now, newId);
      }
    }

    method EmitConnectPtt(now: nat, newId: nat)
      modifies this
      ensures Abs() == EmitConnect(old(Abs()), now, newId)
    {
      hide FinishConnect, ConnectBurst;
      if !pttActive {
        return;
      }
      if pttPhase == 0 {
        ghost var v := Abs();
        SendDmrd(Head, now, line.log + [Stream(v.streamId, v.TxTg(), v.Src(), Connect, [], 0, Open)]);
        pttPhase, pttStart := 1, now;
        return;
      }
      if now - pttStart >= CONNECT_PTT_MS {
        ConnectFinish(now, newId);
        return;
      }
      SendSilent(now);
    }

    method PollConnectPtt(connected: bool, now: nat, newId: nat)
      modifies this
      ensures Abs() == PollConnect(old(Abs()), connected, now, newId)
    {
      hide EmitConnect, StartConnect;
      if connected && !wasConnected {
        StartConnectPtt(now, newId);
      }
      if !connected {
        line := CutConnect(Abs()).line;
        ClearPtt();
      }
      wasConnected := connected;
      if pttActive && now - lastTx >= FRAME_MS {
        EmitConnectPtt(now, newId);
      }
    }

    // ---------------------------------------------------------------- handlers

    method Tick(connected: bool, now: nat, newId: nat, talker: int)
      requires Valid()
      modifies this
      ensures Abs() == Step(old(Abs()), Event.Tick(connected, newId, talker), now) && Valid()
    {
      hide PollConnect, PaceEnd, PaceTx, CallSafety.Inv, BeginEnd;
      CallSafety.StepKeeps(Abs(), Event.Tick(connected, newId, talker), now);
      PollConnectPtt(connected, now, newId);
      if dmrEnding {
        PaceDmrEnd(now);
      } else {
        PaceDmrTx(now, newId, talker);
      }
      if callActive == 1 && !dmrEnding && now - lastSpeech >= EL_HANG_MS {
        BeginDmrEnd();
      }
      if callActive == 2 && now - lastRx >= RX_HANG_MS {
        GiveBack();
      }
      clock := now;
    }

    method GiveBack()
      modifies this`callActive, this`voiceFrames, this`rxStream
      ensures Abs() == old(Abs()).(callActive := 0, frames := 0, rxStream := NO_STREAM)
    {
      callActive, voiceFrames, rxStream := 0, 0, NO_STREAM;
    }

    method OnDmrd(pkt: seq<bv8>, now: nat)
      requires Valid()
      modifies this
      ensures Abs() == Step(old(Abs()), Dmrd(pkt), now) && Valid()
    {
      hide CallFlow.OnDmrd, CallSafety.Inv;
      CallSafety.StepKeeps(Abs(), Dmrd(pkt), now);
      Receive(pkt, now);
      clock := now;
    }

    method Receive(pkt: seq<bv8>, now: nat)
      modifies this
      ensures Abs().(clock := now) == CallFlow.OnDmrd(old(Abs()), pkt, now)
    {
      hide EndCall, HeaderByte, TermByte;
      if !IsDmrd(pkt) {
        return;
      }
      if HeaderByte(pkt[15]) {
        var sid := pkt[16..20];
        if callActive == 2 && sid == rxStream {
          lastRx := now;
          return;
        }
        if callActive == 1 {
          EndDmrCall(now);
        }
        TakeSlot(sid);
        lastRx := now;
        return;
      }
      if TermByte(pkt[15]) {
        if callActive == 2 {
          GiveBack();
        }
        return;
      }
      if callActive != 2 {
        return;
      }
      lastRx, voiceFrames := now, voiceFrames + 1;
    }

    method TakeSlot(sid: seq<bv8>)
      modifies this`callActive, this`voiceFrames, this`rxStream
      ensures Abs() == old(Abs()).(callActive := 2, frames := 0, rxStream := sid)
    {
      callActive, voiceFrames, rxStream := 2, 0, sid;
    }

    /** Audio from the network; what does not fit is lost. */
    method Arrives(blocks: nat, now: nat)
      requires Valid()
      modifies this`waiting, this`clock
      ensures Abs() == Step(old(Abs()), Arrive(blocks), now) && Valid()
    {
      hide CallSafety.Inv;
      CallSafety.StepKeeps(Abs(), Arrive(blocks), now);
      waiting := VoiceQueue.Fewest(waiting + blocks, PCM_BLOCKS);
      clock := now;
    }

    method ProcessElAudio(coder: nat -> Block, now: nat)
      requires Valid()
      modifies this
      ensures Abs() == Step(old(Abs()), Audio(coder), now) && Valid()
    {
      hide CallSafety.Inv, OnBlocks;
      CallSafety.StepKeeps(Abs(), Audio(coder), now);
      if callActive != 2 && !dmrEnding {
        Encode(coder, now);
      }
      clock := now;
    }

    /** The loop over the waiting blocks of audio. */
    method Encode(coder: nat -> Block, now: nat)
      modifies this`lastSpeech, this`ambe, this`conv, this`waiting
      ensures Abs() == OnBlocks(old(Abs()).(waiting := 0), seq(old(waiting), i requires i >= 0 => coder(i)), 0, now)
    {
      hide OnBlock, OnBlocks, Cooling;
      ghost var bs := seq(waiting, i requires i >= 0 => coder(i));
      ghost var start := Abs();
      var streak, i := 0, 0;
      assert bs[0..] == bs;
      while waiting > 0
        invariant 0 <= i && 0 <= streak && waiting == |bs| - i
        invariant OnBlocks(Abs().(waiting := 0), bs[i..], streak, now) == OnBlocks(start.(waiting := 0), bs, 0, now)
      {
        BlocksUnfold(Abs().(waiting := 0), bs, i, streak, now);
        BlockWaits(Abs(), bs[i], now);
        var dropped;
        streak, dropped := EncodeOne(coder(i), streak, now);
        if dropped {
          return;
        }
        i := i + 1;
      }
      NoBlocks(Abs(), bs[i..], streak, now);
    }

    /** One block; the third failure in a row drops what waits. */
    method EncodeOne(b: Block, streak: nat, now: nat) returns (left: nat, dropped: bool)
      requires waiting > 0
      modifies this`lastSpeech, this`ambe, this`conv, this`waiting
      ensures dropped <==> !Cooling(old(Abs()), now) && b.Failed? && streak >= 2
      ensures left == if Cooling(old(Abs()), now) then streak else if b.Failed? then streak + 1 else 0
      ensures Abs() == if dropped then old(Abs()).(lastSpeech := now, ambe := [], waiting := 0)
                       else OnBlock(old(Abs()), b, now).(waiting := old(waiting) - 1)
    {
      hide OnBlock, Cooling;
      var cooling := IsCooling(now);
      left := if cooling then streak else if b.Failed? then streak + 1 else 0;
      dropped := !cooling && b.Failed? && streak >= 2;
      if dropped {
        lastSpeech, ambe, waiting := now, [], 0;
      } else {
        Hear(b, cooling, now);
        waiting := waiting - 1;
      }
    }

    method IsCooling(now: nat) returns (cooling: bool)
      ensures cooling == Cooling(Abs(), now)
    {
      cooling := callActive == 0 && lastEnd != 0 && now - lastEnd < COOLDOWN_MS;
    }

    method Hear(b: Block, cooling: bool, now: nat)
      requires cooling == Cooling(Abs(), now)
      modifies this`lastSpeech, this`ambe, this`conv
      ensures Abs() == OnBlock(old(Abs()), b, now)
    {
      hide PutFrame;
      lastSpeech := now;
      if cooling {
        ambe := [];
      } else if b.Coded? {
        ambe := ambe + [b.ambe];
        if |ambe| >= 3 {
          PutAmbe7(ambe[0]);
          PutAmbe7(ambe[1]);
          PutAmbe7(ambe[2]);
          ambe := [];
        }
      }
    }
  }

  /** How many blocks wait does not matter to one of them. */
  lemma BlockWaits(s: State, b: Block, now: nat)
    ensures OnBlock(s.(waiting := 0), b, now) == OnBlock(s, b, now).(waiting := 0)
    ensures Cooling(s.(waiting := 0), now) <==> Cooling(s, now)
  {
  }

  lemma BlocksUnfold(s: State, bs: seq<Block>, i: nat, streak: nat, now: nat)
    requires i < |bs|
    ensures OnBlocks(s, bs[i..], streak, now) ==
      if !Cooling(s, now) && bs[i].Failed? && streak >= 2 then s.(lastSpeech := now, ambe := [])
      else OnBlocks(OnBlock(s, bs[i], now), bs[i + 1..],
        if Cooling(s, now) then streak else if bs[i].Failed? then streak + 1 else 0, now)
  {
    assert bs[i..][1..] == bs[i + 1..];
  }

  lemma NoBlocks(s: State, bs: seq<Block>, streak: nat, now: nat)
    requires bs == []
    ensures OnBlocks(s, bs, streak, now) == s
  {
  }

  lemma Bursts(s: State, now: nat)
    requires Six(s.ptt.frames) != 0
    ensures ConnectFill(s, now) == ConnectFill(ConnectBurst(s, now), now)
    ensures ConnectBurst(s, now).ptt.frames == s.ptt.frames + 1
    ensures Six(s.ptt.frames + 1) == 0 || Six(s.ptt.frames + 1) == Six(s.ptt.frames) + 1
  {
    WrapsSix(s.ptt.frames);
  }

  /** Padding leaves the configuration and the stage alone. */
  lemma {:induction false} ConnectFillShape(s: State, now: nat)
    ensures var o := ConnectFill(s, now); o.cfg == s.cfg && o.ptt == s.ptt.(frames := o.ptt.frames)
    decreases 6 - if Six(s.ptt.frames) == 0 then 6 else Six(s.ptt.frames)
  {
    if Six(s.ptt.frames) != 0 {
      WrapsSix(s.ptt.frames);
      ConnectFillShape(ConnectBurst(s, now), now);
    }
  }
}
