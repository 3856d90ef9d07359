/** When nothing more arrives, the EchoLink-DMR bridge returns to idle in a bounded number of ticks. */
module CallQuiescence {
  import opened WireGrammar
  import opened CallFlow
  import opened CallSafety

  /** Steps of 60 ms until limit ms have passed since a stamp. */
  function Left(limit: nat, since: nat, clock: nat): (n: nat)
    requires since <= clock
    ensures n == 0 <==> clock - since >= limit
    ensures n <= (limit + 59) / 60
  {
    if clock - since >= limit then 0 else (limit - (clock - since) + 59) / 60
  }

  lemma LeftFalls(limit: nat, since: nat, clock: nat, now: nat)
    requires since <= clock <= now
    ensures Left(limit, since, now) <= Left(limit, since, clock)
    ensures clock + FRAME_MS <= now && now - since < limit ==> Left(limit, since, now) < Left(limit, since, clock)
  {
  }

  // ------------------------------------------- ticks that each activity still needs

  /** A DMR call whose stream died. */
  function RxWork(s: State): (n: nat)
    requires Timed(s)
    ensures n <= 26
  {
    if s.callActive == 2 then 1 + Left(RX_HANG_MS, s.lastRx, s.clock) else 0
  }

  /** A connect PTT, and the second one after that which clears the dynamic talkgroup. */
  function PttWork(p: Ptt, clock: nat): (n: nat)
    requires p.start <= clock
    ensures n <= 22 && (n == 0 <==> !p.active)
  {
    if !p.active then 0
    else (if p.clearing then 11 else 0) + if p.phase == 0 then 11 else 1 + Left(CONNECT_PTT_MS, p.start, clock)
  }

  /** The next get gives voice. */
  predicate Ready(s: State) {
    Taken(s.conv) != []
  }

  /** An EchoLink call that is being torn down, that is open, or that queued frames will start. */
  function CallBase(s: State): (n: nat)
    requires Timed(s)
    ensures n <= 20
  {
    if s.callActive == 1 && s.ending then 1 + Fill(s.frames)
    else if s.callActive == 1 then 7 + Left(EL_HANG_MS, s.lastSpeech, s.clock)
    else if Ready(s) then 8 + Left(EL_HANG_MS, s.lastSpeech, s.clock)
    else 0
  }

  /** Audio that waits to be read can start a call, or keep one open, all over again. */
  function CallWork(s: State): (n: nat)
    requires Timed(s)
    ensures n <= 41
  {
    CallBase(s) + if s.waiting > 0 then 21 else 0
  }

  function Work(s: State): (n: nat)
    requires Timed(s)
    ensures n <= 89
  {
    RxWork(s) + PttWork(s.ptt, s.clock) + CallWork(s)
  }

  predicate Idle(s: State) {
    s.callActive == 0 && !s.ptt.active && !Ready(s) && s.waiting == 0
  }

  // --------------------------------------------------------------- connect PTT

  /** The connect PTT has not come nearer its end since it stood at p at time c: nothing that would
      have brought it nearer was sent. */
  ghost predicate PttStill(p: Ptt, c: nat, s: State)
    requires p.start <= c
  {
    && s.ptt == p.(frames := s.ptt.frames)
    && (p.phase == 0 || Left(CONNECT_PTT_MS, p.start, c) == 0 ==> s.lastTx <= c)
  }

  /** A poll changes only the connect PTT and what is sent. Without a connect PTT nothing is sent. */
  lemma PollShape(s: State, now: nat, newId: nat)
    requires Inv(s) && Timed(s) && s.clock <= now
    ensures var a := PollConnect(s, s.wasConnected, now, newId);
      && a == s.(ptt := a.ptt, line := a.line, seqNo := a.seqNo, lastTx := a.lastTx, streamId := a.streamId)
      && a.lastTx <= now && a.ptt.start <= now
      && PttWork(a.ptt, now) <= PttWork(s.ptt, s.clock)
      && (!s.ptt.active ==> a == s.(ptt := a.ptt) && !a.ptt.active)
  {
    hide Sending, Quiet, Byte, Six, Fill, Joined, ConnectFill, Grammatical, Conserved;
    if s.ptt.active {
      LeftFalls(CONNECT_PTT_MS, s.ptt.start, s.clock, now);
      if s.ptt.phase == 1 {
        FillShape(s, now);
      }
    }
  }

  /** A poll brings the connect PTT nearer its end or leaves it where it was; the latter no longer
      than 60 ms. */
  lemma PollFalls(p: Ptt, c: nat, s: State, now: nat, newId: nat)
    requires Inv(s) && Timed(s) && c <= s.clock <= now
    requires p.active && p.phase <= 1 && p.start <= c && PttStill(p, c, s)
    ensures var a := PollConnect(s, s.wasConnected, now, newId);
      a.ptt.start <= now && (PttWork(a.ptt, now) < PttWork(p, c) || (PttStill(p, c, a) && now < c + FRAME_MS))
  {
    hide Sending, Quiet, Byte, Six, Fill, Joined, ConnectFill, Grammatical, Conserved;
    LeftFalls(CONNECT_PTT_MS, p.start, c, now);
    if s.ptt.phase == 1 {
      FillShape(s, now);
    }
  }

  lemma FillShape(s: State, now: nat)
    requires Inv(s) && s.ptt.active && s.ptt.phase == 1
    ensures var o := ConnectFill(s, now);
      o == s.(ptt := s.ptt.(frames := o.ptt.frames), line := o.line, seqNo := o.seqNo, lastTx := o.lastTx)
    ensures ConnectFill(s, now).lastTx == now || ConnectFill(s, now).lastTx == s.lastTx
  {
    ConnectFillKeeps(s, now);
  }

  // ------------------------------------------------------------ EchoLink calls

  /** The paced part of a tick, then the hang time of an EchoLink call. */
  function Paced(s: State, now: nat, newId: nat, talker: int): State {
    HangUp(if s.ending then PaceEnd(s, now) else PaceTx(s, now, newId, talker), now)
  }

  lemma FillFalls(n: nat)
    ensures Six(n) != 0 ==> Fill(n + 1) + 1 == Fill(n)
  {
    var q, r := n / 6, n % 6;
    assert n == 6 * q + r;
    if r == 5 {
      assert n + 1 == 6 * (q + 1);
    }
  }

  /** A teardown waits for its turn, or needs one step less. */
  lemma EndingShape(s: State, now: nat)
    requires Inv(s) && s.ending && now >= s.lastTx
    ensures var b := PaceEnd(s, now);
      if now < s.lastTx + FRAME_MS then b == s
      else if Six(s.frames) != 0
      then b.ending && b.callActive == 1 && b.frames == s.frames + 1 && Fill(b.frames) < Fill(s.frames) && b.waiting == s.waiting
      else b.callActive == 0 && !b.ending && b.conv == EmptyConv && b.waiting == 0
    ensures var b := PaceEnd(s, now);
      b.ptt == s.ptt && b.lastRx == s.lastRx && b.lastSpeech == s.lastSpeech && b.lastTx <= now
      && (b.lastEnd == s.lastEnd || b.lastEnd == now) && b.wasConnected == s.wasConnected
  {
    hide Sending, Quiet, Byte, Six, Fill, Joined, Grammatical, Conserved;
    FillFalls(s.frames);
  }

  lemma GetStays(c: Conv)
    requires Taken(c) == []
    ensures Taken(AfterGet(c)) == []
  {
  }

  lemma NothingToTake()
    ensures Taken(EmptyConv) == []
  {
  }

  /** A call starts with its first burst; an open one stays open. */
  lemma TxShape(s: State, now: nat, newId: nat, talker: int)
    requires Inv(s) && !s.ending && s.lastTx <= now
    ensures var b := PaceTx(s, now, newId, talker);
      && b.ptt == s.ptt && b.lastRx == s.lastRx && b.lastSpeech == s.lastSpeech && b.lastEnd == s.lastEnd
      && b.wasConnected == s.wasConnected && b.lastTx <= now && !b.ending && b.waiting == s.waiting
      && (s.callActive == 2 || (s.callActive == 0 && s.ptt.active) ==> b == s)
      && (s.callActive == 1 ==> b.callActive == 1)
      && (s.callActive == 0 && !s.ptt.active ==>
            if Ready(s) then b.callActive == 1 else b.callActive == 0 && !Ready(b) && b.lastTx == s.lastTx)
  {
    hide Sending, Quiet, Byte, Six, Fill, Joined, Grammatical, Conserved, Taken, AfterGet;
    if !Ready(s) {
      GetStays(s.conv);
    }
  }

  /** A poll has left everything of s alone but the connect PTT and what is sent. */
  ghost predicate Polled(s: State, t: State, now: nat) {
    && t == s.(ptt := t.ptt, line := t.line, seqNo := t.seqNo, lastTx := t.lastTx, streamId := t.streamId)
    && t.lastTx <= now && t.ptt.start <= now
    && (s.callActive == 1 ==> t == s.(ptt := t.ptt) && !t.ptt.active)
  }

  /** What the paced part leaves alone, and that it needs no more ticks than before. */
  lemma PacedShape(s: State, t: State, now: nat, newId: nat, talker: int)
    requires Timed(s) && s.clock <= now && Inv(s) && Inv(t) && Polled(s, t, now)
    ensures var h := Paced(t, now, newId, talker).(clock := now);
      && Timed(h) && h.ptt == t.ptt && h.lastRx == s.lastRx && h.wasConnected == s.wasConnected
      && (h.callActive == 2 <==> s.callActive == 2)
      && CallWork(h) <= CallWork(s)
      && (s.callActive == 2 || (s.callActive == 0 && t.ptt.active) ==> h == t.(clock := now))
  {
    hide Sending, Quiet, Byte, Six, Fill, Joined, Grammatical, Conserved, PaceEnd, PaceTx, Taken, AfterGet;
    NothingToTake();
    LeftFalls(EL_HANG_MS, s.lastSpeech, s.clock, now);
    if t.ending {
      EndingShape(t, now);
    } else {
      TxShape(t, now, newId, talker);
    }
  }

  /** The call has not come nearer its end since z: it is as it was, and a teardown has sent nothing. */
  ghost predicate CallStill(z: State, s: State) {
    && s.callActive == z.callActive && s.ending == z.ending && s.lastSpeech == z.lastSpeech
    && (s.waiting > 0 <==> z.waiting > 0)
    && (z.callActive == 0 ==> (Ready(s) <==> Ready(z)))
    && (z.ending ==> s.frames == z.frames && s.lastTx <= z.clock)
  }

  /** Nothing but audio that waits to be read can bring about a call. */
  ghost predicate Unread(z: State) {
    z.callActive == 0 && z.waiting > 0 && !Ready(z)
  }

  /** The paced part brings a call nearer its end or leaves it where it was; the latter no longer
      than 60 ms, or until waiting audio is read. */
  lemma PacedFalls(z: State, s: State, t: State, now: nat, newId: nat, talker: int)
    requires Timed(z) && Timed(s) && z.clock <= s.clock <= now && Inv(s) && Inv(t) && Polled(s, t, now)
    requires CallStill(z, s) && z.callActive != 2 && 0 <= z.callActive && CallWork(z) > 0 && !t.ptt.active
    ensures var h := Paced(t, now, newId, talker).(clock := now);
      Timed(h) && (CallWork(h) < CallWork(z) || (CallStill(z, h) && (now < z.clock + FRAME_MS || Unread(z))))
  {
    hide Sending, Quiet, Byte, Six, Fill, Joined, Grammatical, Conserved, PaceEnd, PaceTx, Taken, AfterGet;
    NothingToTake();
    PacedShape(s, t, now, newId, talker);
    LeftFalls(EL_HANG_MS, z.lastSpeech, z.clock, now);
    if t.ending {
      EndingShape(t, now);
    } else {
      TxShape(t, now, newId, talker);
    }
  }

  // ------------------------------------------------------------------ audio

  /** Reading audio stamps it and changes nothing but the buffered and queued frames. */
  lemma {:induction false} BlocksShape(s: State, bs: seq<Block>, streak: nat, now: nat)
    ensures var t := OnBlocks(s, bs, streak, now);
      t == s.(lastSpeech := t.lastSpeech, ambe := t.ambe, conv := t.conv)
      && t.lastSpeech == if bs == [] then s.lastSpeech else now
    decreases |bs|
  {
    hide PutFrame;
    if bs != [] && (Cooling(s, now) || !bs[0].Failed? || streak < 2) {
      var left := if Cooling(s, now) then streak else if bs[0].Failed? then streak + 1 else 0;
      BlocksShape(OnBlock(s, bs[0], now), bs[1..], left, now);
    }
  }

  /** A pass over the audio: everything that waits is read, unless it has to go on waiting. */
  lemma AudioShape(s: State, coder: nat -> Block, now: nat)
    ensures var t := OnAudio(s, coder, now);
      && t == s.(waiting := t.waiting, lastSpeech := t.lastSpeech, ambe := t.ambe, conv := t.conv, clock := now)
      && (if s.callActive == 2 || s.ending then t == s.(clock := now)
          else t.waiting == 0 && t.lastSpeech == (if s.waiting > 0 then now else s.lastSpeech))
      && (s.waiting == 0 ==> t == s.(clock := now))
  {
    var bs := seq(s.waiting, i requires i >= 0 => coder(i));
    BlocksShape(s.(waiting := 0), bs, 0, now);
    if s.waiting == 0 {
      assert bs == [] && s.(waiting := 0) == s;
    }
  }

  // ----------------------------------------------------------------- whole runs

  /** No stamp lies ahead of the clock; the link is remembered. */
  ghost predicate Stamps(s: State, now: nat, connected: bool) {
    && s.lastTx <= now && s.lastRx <= now && s.lastSpeech <= now && s.lastEnd <= now && s.ptt.start <= now
    && s.wasConnected == connected
  }

  lemma {:induction false} FillStamps(s: State, now: nat, connected: bool)
    requires Stamps(s, now, connected)
    ensures Stamps(ConnectFill(s, now), now, connected)
    decreases 6 - if Six(s.ptt.frames) == 0 then 6 else Six(s.ptt.frames)
  {
    hide Byte;
    if Six(s.ptt.frames) != 0 {
      WrapsSix(s.ptt.frames);
      FillStamps(ConnectBurst(s, now), now, connected);
    }
  }

  lemma EmitStamps(s: State, now: nat, connected: bool, newId: nat)
    requires Stamps(s, now, connected)
    ensures Stamps(EmitConnect(s, now, newId), now, connected)
  {
    hide Byte, Six, ConnectFill;
    FillStamps(s, now, connected);
    var o := SendTerm(ConnectFill(s, now), Closed, now);
    assert Stamps(o, now, connected);
    assert Stamps(FinishConnect(s, now, newId), now, connected);
  }

  lemma PollStamps(s: State, now: nat, connected: bool, newId: nat)
    requires Stamps(s, now, s.wasConnected)
    ensures Stamps(PollConnect(s, connected, now, newId), now, connected)
  {
    hide EmitConnect;
    var a := if connected && !s.wasConnected then StartConnect(s, now, newId) else s;
    var b := (if !connected then CutConnect(a) else a).(wasConnected := connected);
    EmitStamps(b, now, connected, newId);
  }

  lemma PaceStamps(s: State, now: nat, connected: bool, newId: nat, talker: int)
    requires Stamps(s, now, connected)
    ensures Stamps(PaceEnd(s, now), now, connected)
    ensures Stamps(PaceTx(s, now, newId, talker), now, connected)
  {
    hide Byte, Six;
  }

  lemma TickTimed(s: State, e: Event, now: nat)
    requires Timed(s) && s.clock <= now && e.Tick?
    ensures Timed(OnTick(s, e, now)) && OnTick(s, e, now).clock == now
    ensures OnTick(s, e, now).wasConnected == e.connected
  {
    hide PollConnect, PaceEnd, PaceTx;
    PollStamps(s, now, e.connected, e.newId);
    PaceStamps(PollConnect(s, e.connected, now, e.newId), now, e.connected, e.newId, e.talker);
  }

  lemma FreshTimed(cfg: Config, start: nat)
    ensures Timed(Fresh(cfg, start)) && Fresh(cfg, start).clock == start
  {
  }

  lemma DmrdTimed(s: State, pkt: seq<bv8>, now: nat)
    requires Timed(s) && s.clock <= now
    ensures Timed(OnDmrd(s, pkt, now)) && OnDmrd(s, pkt, now).clock == now
  {
    hide Byte, HeaderByte, TermByte, IsDmrd;
    var o := EndCall(s, now);
    assert o.lastTx <= now && o.lastRx <= now && o.lastEnd <= now && o.lastSpeech <= now && o.ptt.start <= now;
  }

  lemma StepTimed(s: State, e: Event, now: nat)
    requires Timed(s) && s.clock <= now
    ensures Timed(Step(s, e, now)) && Step(s, e, now).clock == now
  {
    hide OnTick, OnDmrd, OnAudio;
    match e
    case Tick(_, _, _) => TickTimed(s, e, now);
    case Dmrd(pkt) => DmrdTimed(s, pkt, now);
    case Arrive(_) =>
    case Audio(coder) => AudioShape(s, coder, now);
  }

  /** The time before event i. */
  ghost function Before(es: seq<Stamped>, i: nat, clock: nat): nat
    requires i <= |es|
  {
    if i == 0 then clock else es[i - 1].now
  }

  /** Events come in the order of time. */
  ghost predicate Ordered(es: seq<Stamped>, clock: nat) {
    forall i: nat | i < |es| :: es[i].now >= Before(es, i, clock)
  }

  lemma {:induction false} RunTimed(s: State, es: seq<Stamped>)
    requires Timed(s) && Ordered(es, s.clock)
    ensures Timed(Run(s, es)) && Run(s, es).clock == if es == [] then s.clock else es[|es| - 1].now
  {
    hide Timed, Step;
    if es != [] {
      var front := es[..|es| - 1];
      forall i: nat | i < |front| ensures front[i].now >= Before(front, i, s.clock) {
        assert es[i].now >= Before(es, i, s.clock);
      }
      RunTimed(s, front);
      var last := es[|es| - 1];
      assert last.now >= Before(es, |es| - 1, s.clock);
      StepTimed(Run(s, front), last.event, last.now);
    }
  }

  // ------------------------------------------------------------- passes without news

  /**
   The bridge needs no more ticks at s than at z, and an activity that z waited for has come nearer
   its end or stands where it stood: the connect PTT first, then a DMR call, then an EchoLink call.
   What only waited to be read has been read if there was a pass over the audio.
   */
  ghost predicate Window(z: State, s: State, read: bool)
    requires Timed(z)
  {
    && Inv(s) && Timed(s) && z.clock <= s.clock && s.wasConnected == z.wasConnected
    && PttWork(s.ptt, s.clock) <= PttWork(z.ptt, z.clock) && RxWork(s) <= RxWork(z) && CallWork(s) <= CallWork(z)
    && (z.ptt.active ==> PttWork(s.ptt, s.clock) < PttWork(z.ptt, z.clock) || PttStill(z.ptt, z.clock, s))
    && (z.callActive == 2 ==> RxWork(s) < RxWork(z) || (s.callActive == 2 && s.lastRx == z.lastRx))
    && (!z.ptt.active && z.callActive != 2 && CallWork(z) > 0 ==> CallWork(s) < CallWork(z) || CallStill(z, s))
    && (!z.ptt.active && Unread(z) && read ==> CallWork(s) < CallWork(z))
  }

  lemma WindowOpens(z: State)
    requires Inv(z) && Timed(z)
    ensures Window(z, z, false)
  {
    hide Grammatical, Conserved, Fill;
  }

  /** The two parts of a tick, for the three activities. */
  lemma TickParts(z: State, s: State, read: bool, e: Event, now: nat)
    requires Timed(z) && Inv(z) && Window(z, s, read) && s.clock <= now && e.Tick? && e.connected == s.wasConnected
    ensures var a := PollConnect(s, e.connected, now, e.newId); var h := Paced(a, now, e.newId, e.talker).(clock := now);
      && Inv(a) && Polled(s, a, now) && Timed(h) && h.ptt == a.ptt && h.lastRx == s.lastRx
      && (h.callActive == 2 <==> s.callActive == 2)
      && PttWork(h.ptt, now) <= PttWork(s.ptt, s.clock) && CallWork(h) <= CallWork(s)
      && (z.ptt.active ==> PttWork(h.ptt, now) < PttWork(z.ptt, z.clock)
                           || (h == a.(clock := now) && PttStill(z.ptt, z.clock, h) && now < z.clock + FRAME_MS))
      && (!z.ptt.active && z.callActive != 2 && CallWork(z) > 0 ==>
            CallWork(h) < CallWork(z)
            || (CallStill(z, h) && !(Unread(z) && read) && (now < z.clock + FRAME_MS || Unread(z))))
      && h.wasConnected == s.wasConnected
  {
    hide Grammatical, Conserved, Fill, PollConnect, Paced, CallBase, Left, Taken;
    PollShape(s, now, e.newId);
    PollConnectKeeps(s, e.connected, now, e.newId);
    var a := PollConnect(s, e.connected, now, e.newId);
    PacedShape(s, a, now, e.newId, e.talker);
    if z.ptt.active && PttStill(z.ptt, z.clock, s) {
      PollFalls(z.ptt, z.clock, s, now, e.newId);
    }
    if !z.ptt.active && z.callActive != 2 && CallWork(z) > 0 && CallStill(z, s) {
      PacedFalls(z, s, a, now, e.newId, e.talker);
    }
  }

  /** The end of a DMR call whose stream died. */
  lemma RxFalls(z: State, s: State, h: State, now: nat)
    requires Timed(z) && Timed(s) && Timed(h) && z.clock <= s.clock <= now == h.clock
    requires RxWork(s) <= RxWork(z) && h.lastRx == s.lastRx && (h.callActive == 2 <==> s.callActive == 2)
    requires z.callActive == 2 ==> RxWork(s) < RxWork(z) || (s.callActive == 2 && s.lastRx == z.lastRx)
    ensures var t := RxHang(h, now);
      && Timed(t) && RxWork(t) <= RxWork(z)
      && (z.callActive == 2 ==> RxWork(t) < RxWork(z)
                                || (t.callActive == 2 && t.lastRx == z.lastRx && now < z.clock + FRAME_MS))
  {
    LeftFalls(RX_HANG_MS, s.lastRx, s.clock, now);
    if z.callActive == 2 && s.lastRx == z.lastRx {
      LeftFalls(RX_HANG_MS, z.lastRx, z.clock, now);
    }
  }

  /** A tick without news keeps the window, and one at least 60 ms after z, with a pass over the audio
      since z, needs fewer ticks. */
  lemma WindowTick(z: State, s: State, read: bool, e: Event, now: nat)
    requires Timed(z) && Inv(z) && Window(z, s, read) && s.clock <= now && e.Tick? && e.connected == s.wasConnected
    ensures var t := OnTick(s, e, now);
      Window(z, t, read) && t.clock == now && (read && z.clock + FRAME_MS <= now && Work(z) > 0 ==> Work(t) < Work(z))
  {
    hide Grammatical, Conserved, Fill, PollConnect, PaceEnd, PaceTx, CallWork, PttWork, Left, Taken;
    TickParts(z, s, read, e, now);
    TickKeeps(s, e, now);
    var a := PollConnect(s, e.connected, now, e.newId);
    var h := Paced(a, now, e.newId, e.talker).(clock := now);
    RxFalls(z, s, h, now);
    HangKeepsCall(h, now);
    RxThenClock(Paced(a, now, e.newId, e.talker), now);
    assert OnTick(s, e, now) == RxHang(h, now);
  }

  lemma RxThenClock(s: State, now: nat)
    ensures RxHang(s, now).(clock := now) == RxHang(s.(clock := now), now)
  {
  }

  lemma HangKeepsCall(h: State, now: nat)
    requires Timed(h)
    ensures var t := RxHang(h, now);
      Timed(t) && CallWork(t) == CallWork(h) && t.ptt == h.ptt && t.clock == h.clock && t.wasConnected == h.wasConnected
      && (h.callActive != 2 ==> t == h) && t.lastTx == h.lastTx
  {
  }

  /** A pass over the audio keeps the window: what can be read can only bring back less than it was. */
  lemma WindowAudio(z: State, s: State, read: bool, coder: nat -> Block, now: nat)
    requires Timed(z) && Inv(z) && Window(z, s, read) && s.clock <= now
    ensures Window(z, OnAudio(s, coder, now), true)
  {
    hide Inv, Fill, OnAudio, Taken;
    AudioKeeps(s, coder, now);
    AudioShape(s, coder, now);
    AudioExclusive(s);
    LeftFalls(RX_HANG_MS, s.lastRx, s.clock, now);
    LeftFalls(EL_HANG_MS, s.lastSpeech, s.clock, now);
    LeftFalls(CONNECT_PTT_MS, s.ptt.start, s.clock, now);
  }

  lemma AudioExclusive(s: State)
    requires Inv(s)
    ensures 0 <= s.callActive <= 2 && (s.ending ==> s.callActive == 1)
  {
  }

  // ----------------------------------------------------------------- quiet runs

  /** The main loop goes on, with nothing from the network: ticks that find the link as it is, and
      passes over the audio that waits, whatever the vocoder makes of it. */
  predicate NoNews(e: Event, connected: bool) {
    (e.Tick? && e.connected == connected) || e.Audio?
  }

  /** Nothing arrives, and the link is as it is. */
  ghost predicate OnlyTicks(es: seq<Stamped>, connected: bool) {
    forall i: nat | i < |es| :: NoNews(es[i].event, connected)
  }

  /** A tick right behind a pass over the audio. */
  predicate Passed(es: seq<Stamped>, i: nat) {
    0 < i < |es| && es[i - 1].event.Audio? && es[i].event.Tick?
  }

  /** Passes with their ticks that are 60 ms or more apart. */
  ghost predicate Apart(es: seq<Stamped>, marks: seq<nat>) {
    && (forall k: nat | k < |marks| :: Passed(es, marks[k]))
    && (forall k: nat | 0 < k < |marks| ::
          marks[k - 1] + 1 < marks[k] && es[marks[k - 1]].now + FRAME_MS <= es[marks[k]].now)
  }

  lemma {:induction false} RunJoins(s: State, es: seq<Stamped>, n: nat)
    requires n <= |es|
    ensures Run(s, es) == Run(Run(s, es[..n]), es[n..])
    decreases |es|
  {
    hide Step;
    if n == |es| {
      assert es[..n] == es && es[n..] == [];
    } else {
      var m := |es| - 1;
      RunJoins(s, es[..m], n);
      assert es[..m][..n] == es[..n] && es[..m][n..] == es[n..][..m - n] && es[n..][m - n] == es[m];
    }
  }

  /** The last event of a run. */
  ghost function Last(es: seq<Stamped>): Event
    requires es != []
  {
    es[|es| - 1].event
  }

  lemma {:induction false} WindowRun(z: State, es: seq<Stamped>, connected: bool) returns (read: bool)
    requires Inv(z) && Timed(z) && z.wasConnected == connected && OnlyTicks(es, connected) && Ordered(es, z.clock)
    ensures Window(z, Run(z, es), read)
    ensures es != [] && Last(es).Audio? ==> read
    ensures es != [] && Passed(es, |es| - 1) && z.clock + FRAME_MS <= es[|es| - 1].now && Work(z) > 0 ==> Work(Run(z, es)) < Work(z)
  {
    hide Inv, Timed, Step, Window, Work;
    if es == [] {
      WindowOpens(z);
      read := false;
    } else {
      var front, last := es[..|es| - 1], es[|es| - 1];
      OrderedPrefix(es, z.clock, |es| - 1);
      var r := WindowRun(z, front, connected);
      RunTimed(z, front);
      WindowFacts(z, Run(z, front), r);
      assert last.now >= Before(es, |es| - 1, z.clock);
      read := WindowStep(z, Run(z, front), r, last.event, last.now);
    }
  }

  lemma WindowStep(z: State, s: State, r: bool, e: Event, now: nat) returns (read: bool)
    requires Timed(z) && Inv(z) && Window(z, s, r) && s.clock <= now && NoNews(e, s.wasConnected)
    ensures Window(z, Step(s, e, now), read) && (r ==> read) && (e.Audio? ==> read)
    ensures e.Tick? && r && z.clock + FRAME_MS <= now && Work(z) > 0 ==> Work(Step(s, e, now)) < Work(z)
  {
    hide Inv, Timed, OnTick, OnAudio, Window, Work;
    if e.Tick? {
      WindowTick(z, s, r, e, now);
      read := r;
    } else {
      WindowAudio(z, s, r, e.coder, now);
      read := true;
    }
  }

  lemma WindowFacts(z: State, s: State, read: bool)
    requires Timed(z) && Window(z, s, read)
    ensures Inv(s) && Timed(s) && s.wasConnected == z.wasConnected && z.clock <= s.clock
    ensures Work(s) <= Work(z)
  {
    hide Inv;
  }

  lemma OrderedPrefix(es: seq<Stamped>, clock: nat, n: nat)
    requires Ordered(es, clock) && n <= |es|
    ensures Ordered(es[..n], clock)
  {
    forall i: nat | i < n ensures es[..n][i].now >= Before(es[..n], i, clock) {
      assert es[i].now >= Before(es, i, clock);
    }
  }

  lemma OrderedSuffix(es: seq<Stamped>, clock: nat, n: nat)
    requires Ordered(es, clock) && 0 < n <= |es|
    ensures Ordered(es[n..], es[n - 1].now)
  {
    var t := es[n..];
    forall i: nat | i < |t| ensures t[i].now >= Before(t, i, es[n - 1].now) {
      assert es[n + i].now >= Before(es, n + i, clock);
    }
  }

  /** Up to mark k, each mark has taken one tick of work. */
  lemma {:induction false} MarksFall(s: State, es: seq<Stamped>, connected: bool, marks: seq<nat>, k: nat)
    requires Inv(s) && Timed(s) && OnlyTicks(es, connected) && Ordered(es, s.clock)
    requires Apart(es, marks) && k < |marks|
    ensures var t := Run(s, es[..marks[k] + 1]);
      && Inv(t) && Timed(t) && t.wasConnected == connected && t.clock == es[marks[k]].now
      && (Work(t) == 0 || Work(t) + k <= 89)
    decreases k
  {
    hide Inv, Timed, Work, Run, OnlyTicks, Ordered;
    var n := marks[k] + 1;
    var head := es[..n];
    OrderedPrefix(es, s.clock, n);
    TicksPrefix(es, connected, n);
    RunTimed(s, head);
    RunKeeps(s, head);
    LinkRemembered(s, head, connected);
    if k > 0 {
      MarksFall(s, es, connected, marks, k - 1);
      FallsBetween(s, es, connected, marks[k - 1] + 1, n);
    }
  }

  /** From one tick to a pass with its tick at least 60 ms later, work has been done. */
  lemma FallsBetween(s: State, es: seq<Stamped>, connected: bool, m: nat, n: nat)
    requires OnlyTicks(es, connected) && Ordered(es, s.clock)
    requires 0 < m && m + 1 < n <= |es| && Passed(es, n - 1) && es[m - 1].now + FRAME_MS <= es[n - 1].now
    requires var z := Run(s, es[..m]); Inv(z) && Timed(z) && z.wasConnected == connected && z.clock == es[m - 1].now
    requires Timed(Run(s, es[..n]))
    ensures Work(Run(s, es[..n])) <= Work(Run(s, es[..m]))
    ensures Work(Run(s, es[..m])) > 0 ==> Work(Run(s, es[..n])) < Work(Run(s, es[..m]))
  {
    hide Inv, Timed, Work, Window, Run;
    var z, part, head := Run(s, es[..m]), es[m..n], es[..n];
    assert head[..m] == es[..m] && head[m..] == part;
    RunJoins(s, head, m);
    OrderedPrefix(es, s.clock, n);
    OrderedSuffix(head, s.clock, m);
    var read := WindowRun(z, part, connected);
    WindowFacts(z, Run(z, part), read);
    assert part[|part| - 1] == es[n - 1] && part[|part| - 2] == es[n - 2];
  }

  lemma TicksPrefix(es: seq<Stamped>, connected: bool, n: nat)
    requires OnlyTicks(es, connected) && n <= |es|
    ensures OnlyTicks(es[..n], connected)
  {
  }

  lemma LinkRemembered(s: State, es: seq<Stamped>, connected: bool)
    requires Inv(s) && Timed(s) && OnlyTicks(es, connected) && Ordered(es, s.clock)
    requires es != [] && es[|es| - 1].event.Tick?
    ensures Run(s, es).wasConnected == connected
  {
    hide Inv, Timed, OnTick;
    var n := |es| - 1;
    OrderedPrefix(es, s.clock, n);
    RunTimed(s, es[..n]);
    assert es[n].now >= Before(es, n, s.clock);
    assert NoNews(es[n].event, connected);
    TickTimed(Run(s, es[..n]), es[n].event, es[n].now);
  }

  /**
   After any run whatever, whatever audio it left unread, the main loop going on without network input,
   with 90 passes over the audio and their ticks 60 ms or more apart, ends in idle: no call in either
   direction, no connect PTT, no audio, nothing queued that could start a call, and nothing on the wire
   but complete streams. A call that was open and heard is closed by its terminator, after at most five
   bursts of silence.
   */
  lemma Settles(cfg: Config, start: nat, es: seq<Stamped>, ticks: seq<Stamped>, connected: bool, marks: seq<nat>)
    requires Ordered(es, start)
    requires OnlyTicks(ticks, connected) && Ordered(ticks, Before(es, |es|, start))
    requires Apart(ticks, marks) && |marks| >= 90
    ensures var s := Run(Fresh(cfg, start), es); var t := Run(s, ticks); var k := |s.line.log| - 1;
      && Inv(t) && Idle(t) && Quiet(t.line)
      && (s.callActive == 1 && s.Src() > 0 ==>
            0 <= k < |t.line.log| && t.line.log[k].id == s.streamId && t.line.log[k].end.Closed? && t.line.log[k].pads <= 5)
  {
    hide Inv, Timed, Work, Ends, Quiet, Run, OnlyTicks, Ordered, Window;
    FreshInv(cfg, start);
    FreshTimed(cfg, start);
    RunKeeps(Fresh(cfg, start), es);
    RunTimed(Fresh(cfg, start), es);
    var s := Run(Fresh(cfg, start), es);
    TicksSettle(s, ticks, connected, marks);
    IdleIff(Run(s, ticks));
    TicksEnd(s, ticks, connected);
    if s.callActive == 1 && s.Src() > 0 {
      CallCloses(s, Run(s, ticks));
    }
  }

  lemma TicksSettle(s: State, ticks: seq<Stamped>, connected: bool, marks: seq<nat>)
    requires Inv(s) && Timed(s) && OnlyTicks(ticks, connected) && Ordered(ticks, s.clock)
    requires Apart(ticks, marks) && |marks| >= 90
    ensures var t := Run(s, ticks); Inv(t) && Timed(t) && Work(t) == 0
  {
    hide Inv, Timed, Work, Window, Run;
    var n := marks[89] + 1;
    MarksFall(s, ticks, connected, marks, 89);
    RunJoins(s, ticks, n);
    OrderedSuffix(ticks, s.clock, n);
    var z := Run(s, ticks[..n]);
    var read := WindowRun(z, ticks[n..], connected);
    WindowFacts(z, Run(z, ticks[n..]), read);
  }

  lemma {:induction false} TicksEnd(s: State, es: seq<Stamped>, connected: bool)
    requires OnlyTicks(es, connected)
    ensures Ends(s.line.log, Run(s, es).line.log, true, false)
  {
    hide Step;
    if es != [] {
      var front, last := es[..|es| - 1], es[|es| - 1];
      TicksEnd(s, front, connected);
      HowStreamsEnd(Run(s, front), last.event, last.now);
      EndsJoin(s.line.log, Run(s, front).line.log, Run(s, es).line.log, true, false);
    }
  }

  /** An open call that was neither cut nor pre-empted is closed. */
  lemma CallCloses(s: State, t: State)
    requires Inv(s) && s.callActive == 1 && s.Src() > 0 && Quiet(t.line) && Ends(s.line.log, t.line.log, true, false)
    ensures var k := |s.line.log| - 1;
      0 <= k < |t.line.log| && t.line.log[k].id == s.streamId && t.line.log[k].end.Closed? && t.line.log[k].pads <= 5
  {
    hide Joined, Flat, Fill, Byte, Six;
    var k := |s.line.log| - 1;
    assert s.Cur() == s.line.log[k] && s.Cur().kind.Call?;
    assert Complete(t.line.log[k]);
  }

  lemma IdleIff(s: State)
    requires Inv(s) && Timed(s)
    ensures Work(s) == 0 <==> Idle(s)
    ensures Idle(s) ==> Quiet(s.line)
  {
  }

  // ------------------------------------------------------------------ in time

  /** A pass over the audio, a tick, a pass, a tick, from no tick more than gap ms to the next. */
  ghost predicate Steady(es: seq<Stamped>, gap: nat) {
    forall i: nat | 2 * i + 1 < |es| :: Passed(es, 2 * i + 1) && (i > 0 ==> es[2 * i - 1].now <= es[2 * i + 1].now <= es[2 * i - 1].now + gap)
  }

  /** The first tick at time t or later, among n passes. */
  lemma {:induction false} FirstFrom(es: seq<Stamped>, gap: nat, n: nat, i: nat, t: nat) returns (j: nat)
    requires Steady(es, gap) && |es| == 2 * n && i < n && es[2 * i + 1].now < t <= es[2 * n - 1].now
    ensures i < j < n && t <= es[2 * j + 1].now <= t + gap
    decreases n - i
  {
    assert 2 * i + 1 != 2 * n - 1;
    j := i + 1;
    assert Passed(es, 2 * j + 1) && es[2 * j - 1].now <= es[2 * j + 1].now <= es[2 * j - 1].now + gap;
    if es[2 * j + 1].now < t {
      j := FirstFrom(es, gap, n, j, t);
    }
  }

  lemma {:induction false} MarksExist(es: seq<Stamped>, gap: nat, n: nat, k: nat) returns (marks: seq<nat>)
    requires Steady(es, gap) && 0 < n && |es| == 2 * n
    requires es[1].now + k * (FRAME_MS + gap) <= es[2 * n - 1].now
    ensures |marks| == k + 1 && Apart(es, marks) && marks[k] % 2 == 1 && es[marks[k]].now <= es[1].now + k * (FRAME_MS + gap)
    decreases k
  {
    hide Steady;
    if k == 0 {
      SteadyAt(es, gap, 0);
      marks := [1];
    } else {
      var span := (k - 1) * (FRAME_MS + gap);
      OneSpan(k, FRAME_MS + gap);
      var front := MarksExist(es, gap, n, k - 1);
      var i := front[k - 1] / 2;
      var j := FirstFrom(es, gap, n, i, es[2 * i + 1].now + FRAME_MS);
      SteadyAt(es, gap, j);
      marks := ApartMore(es, front, 2 * j + 1);
    }
  }

  lemma SteadyAt(es: seq<Stamped>, gap: nat, i: nat)
    requires Steady(es, gap) && 2 * i + 1 < |es|
    ensures Passed(es, 2 * i + 1)
  {
  }

  lemma OneSpan(k: nat, d: nat)
    requires k > 0
    ensures k * d == (k - 1) * d + d
  {
  }

  lemma ApartMore(es: seq<Stamped>, front: seq<nat>, j: nat) returns (marks: seq<nat>)
    requires Apart(es, front) && front != [] && Passed(es, j)
    requires front[|front| - 1] + 1 < j && es[front[|front| - 1]].now + FRAME_MS <= es[j].now
    ensures marks == front + [j] && Apart(es, marks)
  {
    marks := front + [j];
  }

  /** In milliseconds: with n passes, their ticks at most gap ms apart, the bridge is idle after 89 times
      60 + gap ms, under six and a half seconds for the 10 ms of the main loop. */
  lemma SettlesInTime(cfg: Config, start: nat, es: seq<Stamped>, ticks: seq<Stamped>, connected: bool, gap: nat, n: nat)
    requires Ordered(es, start)
    requires OnlyTicks(ticks, connected) && Ordered(ticks, Before(es, |es|, start))
    requires 0 < n && |ticks| == 2 * n && Steady(ticks, gap)
    requires ticks[1].now + 89 * (FRAME_MS + gap) <= ticks[2 * n - 1].now
    ensures var t := Run(Run(Fresh(cfg, start), es), ticks); Inv(t) && Idle(t) && Quiet(t.line)
  {
    hide Inv, Quiet, Run, OnlyTicks, Ordered, Apart;
    var marks := MarksExist(ticks, gap, n, 89);
    Settles(cfg, start, es, ticks, connected, marks);
  }
}
