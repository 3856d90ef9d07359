/**
 The EchoLink-DMR bridge as a state machine: connect PTT, EchoLink calls paced onto DMR,
 their teardown and pre-emption, and DMR calls towards EchoLink. The clock, the state of the
 DMR link, new stream ids, the talker's id and the output of the vocoder are inputs.
 */
module CallFlow {
  import opened WireGrammar
  import VoiceQueue

  const FRAME_MS: nat := 60
  const CONNECT_PTT_MS: nat := 500
  const CLEAR_TG: int := 4000
  const EL_HANG_MS: nat := 700
  const COOLDOWN_MS: nat := 800
  const RX_HANG_MS: nat := 1500
  /** Two seconds of PCM in blocks of 20 ms. */
  const PCM_BLOCKS: nat := 100

  datatype Config = Config(tg: int, dmrid: int, clearDynamic: bool)

  datatype Ptt = Ptt(active: bool, phase: nat, frames: nat, tg: int, clearing: bool, start: nat)

  const NO_STREAM: seq<bv8> := [0, 0, 0, 0]

  const NoPtt := Ptt(false, 0, 0, 0, false, 0)

  /**
   The DMR side of the converter: the frames in its ring, its counter, all frames put since its last
   reset, and whether one of those puts found the ring full and emptied it.
   */
  datatype Conv = Conv(ring: seq<VoiceFrame>, n: nat, fed: seq<VoiceFrame>, spilled: bool)

  const EmptyConv := Conv([], 0, [], false)

  function PutFrame(c: Conv, f: VoiceFrame): Conv {
    Conv(VoiceQueue.Joined(c.ring, f, 9), c.n + 1, c.fed + [f], c.spilled || |c.ring| >= VoiceQueue.Limit(9))
  }

  /** What a get hands out; of fewer than three frames, the rest of the burst is stale bytes. */
  function Taken(c: Conv): (v: seq<VoiceFrame>)
    ensures v <= c.ring
  {
    c.ring[..VoiceQueue.VoiceTaken(c.ring, c.n, 3)]
  }

  function AfterGet(c: Conv): Conv {
    c.(ring := c.ring[VoiceQueue.VoiceTaken(c.ring, c.n, 3)..], n := VoiceQueue.VoiceCount(c.ring, c.n, 3))
  }

  /**
   The fields of the bridge (callActive: 1 is EchoLink to DMR, 2 is DMR to EchoLink), with the
   converter, the blocks of EchoLink audio that wait to be read, what was sent, and the time of the
   last event.
   */
  datatype State = State(
    cfg: Config, callActive: int, ending: bool, frames: nat, streamId: nat, seqNo: nat, rfId: int,
    rxStream: seq<bv8>, ptt: Ptt, wasConnected: bool, lastTx: nat, lastRx: nat, lastSpeech: nat, lastEnd: nat,
    ambe: seq<VoiceFrame>, conv: Conv, waiting: nat, line: Line, clock: nat)
  {
    function Src(): int {
      if rfId > 0 then rfId else cfg.dmrid
    }

    function TxTg(): int {
      if ptt.active && ptt.tg > 0 then ptt.tg else cfg.tg
    }

    function Cur(): Stream {
      if line.log == [] then Stream(0, 0, 0, Connect, [], 0, Open) else line.log[|line.log| - 1]
    }
  }

  function Fresh(cfg: Config, now: nat): State {
    State(cfg, 0, false, 0, 0, 0, 0, NO_STREAM, NoPtt, false, now, now, now, 0, [], EmptyConv, 0, Line([], []), now)
  }

  // ------------------------------------------------------------------- packets

  /** Without an id to send under, a packet is skipped. */
  function Send(s: State, body: Body, now: nat, log: seq<Stream>): State {
    if s.Src() <= 0 then s
    else s.(line := s.line.Sent(Packet(s.streamId, s.seqNo, s.TxTg(), s.Src(), s.callActive == 1, body), log),
            seqNo := Byte(s.seqNo + 1), lastTx := now)
  }

  function SendHead(s: State, kind: Kind, now: nat): State {
    Send(s, Head, now, s.line.log + [Stream(s.streamId, s.TxTg(), s.Src(), kind, [], 0, Open)])
  }

  function SendSpeech(s: State, n: nat, voice: seq<VoiceFrame>, now: nat): State {
    Send(s, Burst(n, Speech(voice)), now, s.line.Swap(s.Cur().(speech := s.Cur().speech + [voice])))
  }

  function SendSilence(s: State, n: nat, now: nat): State {
    Send(s, Burst(n, Silence), now, s.line.Swap(s.Cur().(pads := s.Cur().pads + 1)))
  }

  function SendTerm(s: State, end: End, now: nat): State {
    Send(s, Term, now, s.line.Swap(s.Cur().(end := end)))
  }

  // ------------------------------------------------------------ EchoLink calls

  /** A header if no call is open, with the converter reset behind the burst just taken
      from it; then the burst, numbered from the frame counter as it was before. */
  function EmitVoice(s: State, voice: seq<VoiceFrame>, now: nat, newId: nat, talker: int): State {
    var n := Six(s.frames);
    var o := if s.callActive != 0 then s else
      SendHead(s.(callActive := 1, streamId := newId, seqNo := 0, frames := 0, conv := EmptyConv, rfId := talker),
               Call, now);
    SendSpeech(o, n, voice, now).(frames := o.frames + 1)
  }

  /** Teardown begins: what is queued is dropped and the next tick may send. */
  function BeginEnd(s: State): State {
    if s.callActive != 1 || s.ending then s
    else s.(ending := true, ambe := [], conv := EmptyConv, waiting := 0, lastTx := 0)
  }

  function FinishEnd(s: State, now: nat): State {
    s.(callActive := 0, ending := false, frames := 0, ambe := [], conv := EmptyConv, waiting := 0, rfId := 0, lastEnd := now)
  }

  /** One step of the teardown: silence until the superframe is complete, then the terminator. */
  function PaceEnd(s: State, now: nat): State {
    if !s.ending || s.callActive != 1 || now - s.lastTx < FRAME_MS then s
    else if Six(s.frames) != 0 then SendSilence(s, Six(s.frames), now).(frames := s.frames + 1)
    else FinishEnd(SendTerm(s, Closed, now), now)
  }

  /** DMR traffic takes the slot: the terminator at once. */
  function EndCall(s: State, now: nat): State {
    if s.callActive != 1 && !s.ending then s
    else FinishEnd(if s.callActive == 1 then SendTerm(s, Preempted, now) else s, now)
  }

  /** A get from the converter when the slot is free, and a burst if it gives voice. */
  function PaceTx(s: State, now: nat, newId: nat, talker: int): State {
    if s.callActive == 2 || s.ptt.active || s.ending then s
    else if s.callActive == 1 && now - s.lastTx < FRAME_MS then s
    else
      var t := s.(conv := AfterGet(s.conv));
      if Taken(s.conv) == [] then t else EmitVoice(t, Taken(s.conv), now, newId, talker)
  }

  // --------------------------------------------------------------- connect PTT

  /** Clearing the seconds of the last transmission leaves its milliseconds. */
  function BeginConnect(s: State, tg: int, clearing: bool, now: nat, newId: nat): State {
    s.(ptt := Ptt(true, 0, 0, tg, clearing, now), streamId := newId, seqNo := 0, lastTx := now % 1000)
  }

  function StartConnect(s: State, now: nat, newId: nat): State {
    if s.callActive != 0 || s.ptt.active || s.cfg.tg <= 0 then s
    else if s.cfg.clearDynamic then BeginConnect(s, CLEAR_TG, true, now, newId)
    else BeginConnect(s, s.cfg.tg, false, now, newId)
  }

  function ConnectBurst(s: State, now: nat): State {
    SendSilence(s, Six(s.ptt.frames), now).(ptt := s.ptt.(frames := s.ptt.frames + 1))
  }

  /** The silence that completes the superframe, all at once. */
  function ConnectFill(s: State, now: nat): State
    decreases 6 - if Six(s.ptt.frames) == 0 then 6 else Six(s.ptt.frames)
  {
    if Six(s.ptt.frames) == 0 then s
    else
      WrapsSix(s.ptt.frames);
      ConnectFill(ConnectBurst(s, now), now)
  }

  function FinishConnect(s: State, now: nat, newId: nat): State {
    var o := SendTerm(ConnectFill(s, now), Closed, now);
    if s.ptt.clearing && s.cfg.tg > 0 then BeginConnect(o, s.cfg.tg, false, now, newId)
    else o.(ptt := NoPtt.(start := s.ptt.start))
  }

  function EmitConnect(s: State, now: nat, newId: nat): State {
    if !s.ptt.active then s
    else if s.ptt.phase == 0 then SendHead(s, Connect, now).(ptt := s.ptt.(phase := 1, start := now))
    else if now - s.ptt.start >= CONNECT_PTT_MS then FinishConnect(s, now, newId)
    else ConnectBurst(s, now)
  }

  /** The loss of the link cuts a connect PTT short, with nothing sent. */
  function CutConnect(s: State): State {
    s.(ptt := NoPtt.(start := s.ptt.start),
       line := if s.ptt.active && s.ptt.phase == 1 && s.Src() > 0 then s.line.(log := s.line.Swap(s.Cur().(end := Cut))) else s.line)
  }

  function PollConnect(s: State, connected: bool, now: nat, newId: nat): State {
    var a := if connected && !s.wasConnected then StartConnect(s, now, newId) else s;
    var b := (if !connected then CutConnect(a) else a).(wasConnected := connected);
    if b.ptt.active && now - b.lastTx >= FRAME_MS then EmitConnect(b, now, newId) else b
  }

  // ------------------------------------------------------------------ handlers

  datatype Block = Coded(ambe: VoiceFrame) | Failed

  /** What the main loop feeds the bridge: blocks of audio that arrive, a pass over those that wait with
      what the vocoder makes of each, a packet, and a tick with the state of the link, an id for a
      stream that may start and the id of the talker. */
  datatype Event =
    | Tick(connected: bool, newId: nat, talker: int)
    | Dmrd(pkt: seq<bv8>)
    | Arrive(blocks: nat)
    | Audio(coder: nat -> Block)

  function HangUp(s: State, now: nat): State {
    if s.callActive == 1 && !s.ending && now - s.lastSpeech >= EL_HANG_MS then BeginEnd(s) else s
  }

  function RxHang(s: State, now: nat): State {
    if s.callActive == 2 && now - s.lastRx >= RX_HANG_MS then s.(callActive := 0, frames := 0, rxStream := NO_STREAM) else s
  }

  function OnTick(s: State, e: Event, now: nat): State
    requires e.Tick?
  {
    var a := PollConnect(s, e.connected, now, e.newId);
    var b := if a.ending then PaceEnd(a, now) else PaceTx(a, now, e.newId, e.talker);
    RxHang(HangUp(b, now), now).(clock := now)
  }

  predicate IsDmrd(pkt: seq<bv8>) {
    |pkt| == 55 && pkt[0] == 0x44 && pkt[1] == 0x4D && pkt[2] == 0x52 && pkt[3] == 0x44
  }

  /** A header takes the slot, a terminator gives it back, voice keeps it. */
  function OnDmrd(s: State, pkt: seq<bv8>, now: nat): State {
    if !IsDmrd(pkt) then s.(clock := now)
    else if HeaderByte(pkt[15]) then
      if s.callActive == 2 && pkt[16..20] == s.rxStream then s.(lastRx := now, clock := now)
      else (if s.callActive == 1 then EndCall(s, now) else s)
           .(callActive := 2, rxStream := pkt[16..20], frames := 0, lastRx := now, clock := now)
    else if TermByte(pkt[15]) then
      if s.callActive == 2 then s.(callActive := 0, frames := 0, rxStream := NO_STREAM, clock := now) else s.(clock := now)
    else if s.callActive != 2 then s.(clock := now)
    else s.(lastRx := now, frames := s.frames + 1, clock := now)
  }

  /** No call, and the last one ended too recently. */
  predicate Cooling(s: State, now: nat) {
    s.callActive == 0 && s.lastEnd != 0 && now - s.lastEnd < COOLDOWN_MS
  }

  /** One block of EchoLink audio: dropped in the cooldown after a call; a coded frame is kept
      until there are three, which are put to the converter together. */
  function OnBlock(s: State, b: Block, now: nat): State {
    var h := s.(lastSpeech := now);
    if Cooling(s, now) then h.(ambe := [])
    else if b.Failed? then h
    else
      var buf := s.ambe + [b.ambe];
      if |buf| < 3 then h.(ambe := buf)
      else h.(ambe := [], conv := PutFrame(PutFrame(PutFrame(s.conv, buf[0]), buf[1]), buf[2]))
  }

  /** The third failure in a row drops what is left. */
  function OnBlocks(s: State, bs: seq<Block>, streak: nat, now: nat): State
    decreases |bs|
  {
    if bs == [] then s
    else if !Cooling(s, now) && bs[0].Failed? && streak >= 2 then s.(lastSpeech := now, ambe := [])
    else
      var left := if Cooling(s, now) then streak else if bs[0].Failed? then streak + 1 else 0;
      OnBlocks(OnBlock(s, bs[0], now), bs[1..], left, now)
  }

  /** All waiting blocks are read, unless DMR has the slot or a call is being torn down. */
  function OnAudio(s: State, coder: nat -> Block, now: nat): State {
    if s.callActive == 2 || s.ending then s.(clock := now)
    else OnBlocks(s.(waiting := 0), seq(s.waiting, i requires i >= 0 => coder(i)), 0, now).(clock := now)
  }

  /** What does not fit the two seconds is lost. */
  function OnArrive(s: State, blocks: nat, now: nat): State {
    s.(waiting := VoiceQueue.Fewest(s.waiting + blocks, PCM_BLOCKS), clock := now)
  }

  function Step(s: State, e: Event, now: nat): State {
    match e
    case Tick(_, _, _) => OnTick(s, e, now)
    case Dmrd(pkt) => OnDmrd(s, pkt, now)
    case Arrive(blocks) => OnArrive(s, blocks, now)
    case Audio(coder) => OnAudio(s, coder, now)
  }
}
