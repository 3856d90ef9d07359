/**
 The main thread and the directory worker of an EchoLink peer behind a proxy: two mutexes, a
 condition variable and one job slot. A step is one lock operation with what is done under it;
 what a thread does next where it has a choice is left open, so every interleaving is covered.
 */
module DirectoryThreads {

  datatype Thread = Main | Worker

  datatype Mutex = Free | Taken(owner: Thread)

  /** What is done under the directory mutex, and so what follows when it is released. */
  datatype Task =
    | Update
    | Send
    | Schedule(job: nat)
    | Stop
    | Fetch
    | Finish

  /** Where a thread stands. Demux is the handling of a control packet while the proxy is polled. */
  datatype Pc =
    | Between
    | WantDir(task: Task)
    | HasDir(task: Task)
    | WantProxy(poll: bool)
    | HasProxy(poll: bool)
    | WantDemux
    | HasDemux
    | Asleep(woken: bool)
    | Joining
    | Over

  datatype Slot = NoJob | Job(id: nat)

  /**
   The mutexes and the fields they guard, with the jobs accepted, taken by the worker and finished
   so far. reply is the answer to a control packet that is put off until the poll is over.
   */
  datatype State = State(dir: Mutex, proxy: Mutex, main: Pc, worker: Pc, slot: Slot, busy: bool, stop: bool,
    reply: bool, accepted: seq<nat>, taken: seq<nat>, finished: nat)

  const Initial := State(Free, Free, Between, WantDir(Fetch), NoJob, false, false, false, [], [], 0)

  function At(s: State, t: Thread): Pc {
    if t.Main? then s.main else s.worker
  }

  function Goto(s: State, t: Thread, pc: Pc): State {
    if t.Main? then s.(main := pc) else s.(worker := pc)
  }

  function Signal(s: State): State {
    if s.worker.Asleep? then s.(worker := Asleep(true)) else s
  }

  /** What a thread may begin where it holds nothing. */
  predicate MayBegin(t: Thread, pc: Pc) {
    match pc
    case WantDir(Update) | WantDir(Send) => true
    case WantDir(Schedule(_)) | WantDir(Stop) => t.Main?
    case WantDir(Finish) => t.Worker?
    case WantProxy(poll) => t.Main? || !poll
    case _ => false
  }

  /** Whether thread t can take its next step. */
  predicate Enabled(s: State, t: Thread) {
    match At(s, t)
    case WantDir(_) => s.dir.Free?
    case WantDemux => s.dir.Free?
    case WantProxy(_) => s.proxy.Free?
    case Asleep(woken) => woken
    case Joining => s.worker.Over?
    case Over => false
    case _ => true
  }

  datatype Choice = Begin(pc: Pc) | Yes | No

  /** The work done under the directory mutex, which is then released. */
  function Work(s: State, t: Thread, task: Task, c: Choice): State {
    var r := s.(dir := Free);
    match task
    case Update => Goto(r, t, Between)
    case Send => Goto(r, t, if c.Yes? then WantProxy(false) else Between)
    case Schedule(job) =>
      if s.stop || s.busy || s.slot.Job? then Goto(r, t, Between)
      else Goto(Signal(r.(slot := Job(job), accepted := s.accepted + [job])), t, Between)
    case Stop => Goto(Signal(r.(stop := true)), t, Joining)
    case Fetch =>
      if s.stop then Goto(r, t, Over)
      else if s.slot.NoJob? then Goto(r, t, Asleep(false))
      else Goto(r.(slot := NoJob, busy := true, taken := s.taken + [s.slot.id]), t, Between)
    case Finish => Goto(r.(busy := false, finished := s.finished + 1), t, WantDir(Fetch))
  }

  /** One step of thread t; a thread that is not enabled stays where it is. A sleeping worker may
      also wake without cause. */
  function Step(s: State, t: Thread, c: Choice): State {
    if !Enabled(s, t) then
      if At(s, t).Asleep? && c.Yes? then Goto(s, t, WantDir(Fetch)) else s
    else match At(s, t)
      case Between => if c.Begin? && MayBegin(t, c.pc) then Goto(s, t, c.pc) else s
      case WantDir(task) => Goto(s.(dir := Taken(t)), t, HasDir(task))
      case HasDir(task) => Work(s, t, task, c)
      case WantProxy(poll) => Goto(s.(proxy := Taken(t)), t, HasProxy(poll))
      case HasProxy(poll) =>
        if poll && c.Yes? then Goto(s, t, WantDemux)
        else if !poll && c.Yes? then Goto(s.(proxy := Free), t, WantProxy(false))
        else if poll && s.reply then Goto(s.(proxy := Free, reply := false), t, WantDir(Send))
        else Goto(s.(proxy := Free), t, Between)
      case WantDemux => Goto(s.(dir := Taken(t)), t, HasDemux)
      case HasDemux => Goto(s.(dir := Free, reply := true), t, HasProxy(true))
      case Asleep(_) => Goto(s, t, WantDir(Fetch))
      case Joining => Goto(s, t, Over)
      case Over => s
  }

  datatype Turn = Turn(thread: Thread, choice: Choice)

  function Run(ts: seq<Turn>): State {
    if ts == [] then Initial else Step(Run(ts[..|ts| - 1]), ts[|ts| - 1].thread, ts[|ts| - 1].choice)
  }

  // ----------------------------------------------------------------- invariants

  predicate HoldsDir(pc: Pc) {
    pc.HasDir? || pc.HasDemux?
  }

  predicate HoldsProxy(pc: Pc) {
    pc.HasProxy? || pc.WantDemux? || pc.HasDemux?
  }

  /** A mutex is held by the thread that stands under it, and by no other. */
  ghost predicate Owned(m: Mutex, main: bool, worker: bool) {
    (main <==> m == Taken(Main)) && (worker <==> m == Taken(Worker))
  }

  /** Where the main thread can stand. */
  ghost predicate MainPlace(pc: Pc, stop: bool, workerOver: bool) {
    match pc
    case WantDir(task) => !task.Fetch? && !task.Finish?
    case HasDir(task) => !task.Fetch? && !task.Finish?
    case Asleep(_) => false
    case Joining => stop
    case Over => stop && workerOver
    case _ => true
  }

  /** Where the worker can stand. */
  ghost predicate WorkerPlace(pc: Pc, stop: bool) {
    match pc
    case WantDir(task) => !task.Schedule? && !task.Stop?
    case HasDir(task) => !task.Schedule? && !task.Stop?
    case WantProxy(poll) => !poll
    case HasProxy(poll) => !poll
    case WantDemux | HasDemux | Joining => false
    case Over => stop
    case _ => true
  }

  /** The worker is between taking a job and finishing it. */
  predicate Running(pc: Pc) {
    match pc
    case WantDir(task) => !task.Fetch?
    case HasDir(task) => !task.Fetch?
    case Between | WantProxy(_) | HasProxy(_) | WantDemux | HasDemux => true
    case _ => false
  }

  /** Accepted jobs are those taken, in order, and the one that waits; one job runs at a time. */
  ghost predicate Jobs(accepted: seq<nat>, taken: seq<nat>, slot: Slot, finished: nat, busy: bool, running: bool) {
    && accepted == taken + (if slot.Job? then [slot.id] else [])
    && (busy <==> running)
    && |taken| == finished + (if busy then 1 else 0)
  }

  /** A worker that sleeps on has nothing to do. */
  ghost predicate NoLostWakeup(worker: Pc, slot: Slot, stop: bool) {
    worker == Asleep(false) ==> slot.NoJob? && !stop
  }

  ghost predicate Inv(s: State) {
    && Owned(s.dir, HoldsDir(s.main), HoldsDir(s.worker)) && Owned(s.proxy, HoldsProxy(s.main), HoldsProxy(s.worker))
    && MainPlace(s.main, s.stop, s.worker.Over?) && WorkerPlace(s.worker, s.stop)
    && Jobs(s.accepted, s.taken, s.slot, s.finished, s.busy, Running(s.worker))
    && NoLostWakeup(s.worker, s.slot, s.stop)
  }

  /** The main thread moves; the worker, if it moves at all, is woken. */
  ghost predicate MainMoves(s: State, r: State) {
    && r == s.(main := r.main, dir := r.dir, proxy := r.proxy, reply := r.reply)
    && Owned(r.dir, HoldsDir(r.main), HoldsDir(s.worker)) && Owned(r.proxy, HoldsProxy(r.main), HoldsProxy(s.worker))
    && MainPlace(r.main, s.stop, s.worker.Over?)
  }

  lemma MovesKeep(s: State, r: State)
    requires Inv(s) && MainMoves(s, r)
    ensures Inv(r)
  {
    hide Jobs, NoLostWakeup, WorkerPlace, Running, HoldsDir, HoldsProxy, Owned, MainPlace;
  }

  lemma MainSchedules(s: State, job: nat, c: Choice)
    requires Inv(s) && s.main == HasDir(Schedule(job))
    ensures Inv(Work(s, Main, Schedule(job), c))
  {
    var r := Work(s, Main, Schedule(job), c);
    assert r.worker == s.worker || (s.worker.Asleep? && r.worker == Asleep(true));
  }

  lemma MainStops(s: State, c: Choice)
    requires Inv(s) && s.main == HasDir(Stop)
    ensures Inv(Work(s, Main, Stop, c))
  {
    hide Jobs;
    var r := Work(s, Main, Stop, c);
    assert r.worker == s.worker || (s.worker.Asleep? && r.worker == Asleep(true));
  }

  lemma MainLocks(s: State, c: Choice)
    requires Inv(s) && (s.main.WantDir? || s.main.WantProxy? || s.main.WantDemux? || s.main.HasDemux?)
    ensures MainMoves(s, Step(s, Main, c))
  {
    hide Jobs, NoLostWakeup, WorkerPlace, Running;
  }

  lemma MainUnlocks(s: State, c: Choice)
    requires Inv(s) && (s.main.HasProxy? || s.main == HasDir(Update) || s.main == HasDir(Send))
    ensures MainMoves(s, Step(s, Main, c))
  {
    hide Inv, Step, MainMoves;
    if s.main.HasProxy? {
      MainLeavesProxy(s, c);
    } else {
      MainLeavesDir(s, c);
    }
  }

  lemma MainLeavesProxy(s: State, c: Choice)
    requires Inv(s) && s.main.HasProxy?
    ensures MainMoves(s, Step(s, Main, c))
  {
    hide Jobs, NoLostWakeup, WorkerPlace, Running, Work;
  }

  lemma MainLeavesDir(s: State, c: Choice)
    requires Inv(s) && (s.main == HasDir(Update) || s.main == HasDir(Send))
    ensures MainMoves(s, Step(s, Main, c))
  {
    hide Jobs, NoLostWakeup, WorkerPlace, Running;
  }

  lemma MainRests(s: State, c: Choice)
    requires Inv(s) && (s.main.Between? || s.main.Joining? || s.main.Over?)
    ensures MainMoves(s, Step(s, Main, c))
  {
    hide Jobs, NoLostWakeup, WorkerPlace, Running;
  }

  lemma MainKeeps(s: State, c: Choice)
    requires Inv(s)
    ensures Inv(Step(s, Main, c))
  {
    hide Work, Jobs, NoLostWakeup, WorkerPlace, Running, MainMoves, Owned;
    var r := Step(s, Main, c);
    if s.main.WantDir? || s.main.WantProxy? || s.main.WantDemux? || s.main.HasDemux? {
      MainLocks(s, c);
      MovesKeep(s, r);
    } else if s.main.HasProxy? || s.main == HasDir(Update) || s.main == HasDir(Send) {
      MainUnlocks(s, c);
      MovesKeep(s, r);
    } else if s.main.HasDir? && s.main.task.Schedule? {
      MainSchedules(s, s.main.task.job, c);
    } else if s.main.HasDir? {
      MainStops(s, c);
    } else {
      MainRests(s, c);
      MovesKeep(s, r);
    }
  }

  lemma WorkerFetches(s: State, c: Choice)
    requires Inv(s) && s.worker == HasDir(Fetch)
    ensures Inv(Work(s, Worker, Fetch, c))
  {
    hide MainPlace;
    MainStays(s.main, s.stop, s.worker.Over?);
  }

  /** What the worker does cannot misplace the main thread. */
  lemma MainStays(pc: Pc, stop: bool, workerOver: bool)
    requires MainPlace(pc, stop, workerOver)
    ensures MainPlace(pc, stop, true)
    ensures !workerOver ==> MainPlace(pc, stop, false)
  {
  }

  lemma WorkerFinishes(s: State, c: Choice)
    requires Inv(s) && s.worker == HasDir(Finish)
    ensures Inv(Work(s, Worker, Finish, c))
  {
    hide MainPlace;
  }

  /** The worker moves within its job, or waits for one. */
  ghost predicate WorkerMoves(s: State, r: State) {
    && r == s.(worker := r.worker, dir := r.dir, proxy := r.proxy)
    && Owned(r.dir, HoldsDir(s.main), HoldsDir(r.worker)) && Owned(r.proxy, HoldsProxy(s.main), HoldsProxy(r.worker))
    && WorkerPlace(r.worker, s.stop) && Running(r.worker) == Running(s.worker) && r.worker.Over? == s.worker.Over?
    && (r.worker == s.worker || r.worker != Asleep(false))
  }

  lemma WorkerMovesKeep(s: State, r: State)
    requires Inv(s) && WorkerMoves(s, r)
    ensures Inv(r)
  {
    hide Jobs, WorkerPlace, Running, HoldsDir, HoldsProxy, Owned, MainPlace;
  }

  lemma WorkerLocks(s: State, c: Choice)
    requires Inv(s) && (s.worker.WantDir? || s.worker.WantProxy?)
    ensures WorkerMoves(s, Step(s, Worker, c))
  {
    hide Jobs, NoLostWakeup, MainPlace;
  }

  lemma WorkerUnlocks(s: State, c: Choice)
    requires Inv(s) && (s.worker.HasProxy? || s.worker == HasDir(Update) || s.worker == HasDir(Send))
    ensures WorkerMoves(s, Step(s, Worker, c))
  {
    hide Jobs, NoLostWakeup, MainPlace;
  }

  lemma WorkerRests(s: State, c: Choice)
    requires Inv(s) && (s.worker.Between? || s.worker.Asleep? || s.worker.Over?)
    ensures WorkerMoves(s, Step(s, Worker, c))
  {
    hide Jobs, NoLostWakeup, MainPlace;
  }

  lemma WorkerKeeps(s: State, c: Choice)
    requires Inv(s)
    ensures Inv(Step(s, Worker, c))
  {
    hide Work, Jobs, NoLostWakeup, MainPlace, Running, WorkerMoves, Owned;
    var r := Step(s, Worker, c);
    if s.worker.WantDir? || s.worker.WantProxy? {
      WorkerLocks(s, c);
      WorkerMovesKeep(s, r);
    } else if s.worker.HasProxy? || s.worker == HasDir(Update) || s.worker == HasDir(Send) {
      WorkerUnlocks(s, c);
      WorkerMovesKeep(s, r);
    } else if s.worker == HasDir(Fetch) {
      WorkerFetches(s, c);
    } else if s.worker == HasDir(Finish) {
      WorkerFinishes(s, c);
    } else {
      WorkerRests(s, c);
      WorkerMovesKeep(s, r);
    }
  }

  lemma StepKeeps(s: State, t: Thread, c: Choice)
    requires Inv(s)
    ensures Inv(Step(s, t, c))
  {
    hide Inv, Step;
    if t.Main? {
      MainKeeps(s, c);
    } else {
      WorkerKeeps(s, c);
    }
  }

  lemma {:induction false} RunKeeps(ts: seq<Turn>)
    ensures Inv(Run(ts))
  {
    hide Step;
    if ts != [] {
      RunKeeps(ts[..|ts| - 1]);
      StepKeeps(Run(ts[..|ts| - 1]), ts[|ts| - 1].thread, ts[|ts| - 1].choice);
    }
  }

  // -------------------------------------------------------------------- deadlock

  function Other(t: Thread): Thread {
    if t.Main? then Worker else Main
  }

  /** A thread waits for a mutex that is not free. */
  predicate Blocked(s: State, t: Thread) {
    match At(s, t)
    case WantDir(_) | WantDemux => !s.dir.Free?
    case WantProxy(_) => !s.proxy.Free?
    case _ => false
  }

  lemma BlockedByOther(s: State, t: Thread)
    requires Inv(s) && Blocked(s, t)
    ensures Enabled(s, Other(t))
  {
  }

  /**
   After every run: the proxy mutex is wanted only by a thread that holds no mutex; a thread
   that waits for a mutex waits for the other thread, which can go on; a worker that sleeps on
   has nothing to do; a main thread that joins finds a worker that is over or can go on; and
   some thread can go on until both are over.
   */
  lemma NoDeadlock(ts: seq<Turn>, t: Thread)
    ensures var s := Run(ts); At(s, t).WantProxy? ==> s.dir != Taken(t) && s.proxy != Taken(t)
    ensures var s := Run(ts); Blocked(s, t) ==> Enabled(s, Other(t))
    ensures var s := Run(ts); s.worker == Asleep(false) ==> s.slot.NoJob? && !s.stop
    ensures var s := Run(ts); s.main.Joining? ==> s.worker.Over? || Enabled(s, Worker)
    ensures var s := Run(ts); Enabled(s, Main) || Enabled(s, Worker) || (s.main.Over? && s.worker.Over?)
  {
    hide Run;
    RunKeeps(ts);
    var s := Run(ts);
    if Blocked(s, t) {
      BlockedByOther(s, t);
    }
    if Blocked(s, Main) {
      BlockedByOther(s, Main);
    }
    if Blocked(s, Worker) {
      BlockedByOther(s, Worker);
    }
  }

  /** Jobs are taken in the order in which they were accepted, each at most once, and a job is
      finished before the next is taken. */
  lemma JobsInOrder(ts: seq<Turn>)
    ensures var s := Run(ts);
      && s.taken <= s.accepted && |s.accepted| <= |s.taken| + 1
      && s.finished <= |s.taken| <= s.finished + 1
      && (Running(s.worker) <==> |s.taken| == s.finished + 1)
  {
    RunKeeps(ts);
  }

  // ------------------------------------------------------------- replies put off

  /** The main thread is in a poll. */
  predicate Polling(pc: Pc) {
    pc == HasProxy(true) || pc.WantDemux? || pc.HasDemux?
  }

  lemma WorkKeepsReply(s: State, t: Thread, task: Task, c: Choice)
    ensures Work(s, t, task, c).reply == s.reply
    ensures t.Worker? ==> Work(s, t, task, c).main == s.main
  {
  }

  lemma WorkerLeavesReply(s: State, c: Choice)
    requires WorkerPlace(s.worker, s.stop)
    ensures Step(s, Worker, c).reply == s.reply && Step(s, Worker, c).main == s.main
  {
    hide Work, MayBegin;
    if s.worker.HasDir? {
      WorkKeepsReply(s, Worker, s.worker.task, c);
    }
  }

  lemma MainReply(s: State, c: Choice)
    requires s.reply ==> Polling(s.main)
    ensures var r := Step(s, Main, c);
      && (r.reply ==> Polling(r.main))
      && (s.reply && !r.reply ==> s.main == HasProxy(true) && r.main == WantDir(Send))
      && (!s.reply && r.reply ==> s.main.HasDemux?)
      && (s.main.HasDemux? ==> r.reply)
  {
    hide Work, MayBegin;
    if s.main.HasDir? {
      WorkKeepsReply(s, Main, s.main.task, c);
    }
  }

  /** An answer that is put off is dropped only for a main thread that goes on to send it. */
  lemma StepReply(s: State, t: Thread, c: Choice)
    requires WorkerPlace(s.worker, s.stop) && (s.reply ==> Polling(s.main))
    ensures var r := Step(s, t, c);
      && (r.reply ==> Polling(r.main))
      && (s.reply && !r.reply ==> s.main == HasProxy(true) && r.main == WantDir(Send))
      && (!s.reply && r.reply ==> t.Main? && s.main.HasDemux?)
      && (t.Main? && s.main.HasDemux? ==> r.reply)
  {
    hide Step, WorkerPlace, Polling;
    if t.Main? {
      MainReply(s, c);
    } else {
      WorkerLeavesReply(s, c);
    }
  }

  /** While an answer is put off the poll goes on. */
  lemma {:induction false} ReplyInPoll(ts: seq<Turn>)
    ensures Run(ts).reply ==> Polling(Run(ts).main)
  {
    hide Step;
    if ts != [] {
      ReplyInPoll(ts[..|ts| - 1]);
      RunKeeps(ts[..|ts| - 1]);
      StepReply(Run(ts[..|ts| - 1]), ts[|ts| - 1].thread, ts[|ts| - 1].choice);
    }
  }

  /** Turn i handles a control packet in a poll. */
  predicate Demuxes(ts: seq<Turn>, i: nat) {
    i < |ts| && ts[i].thread.Main? && Run(ts[..i]).main.HasDemux?
  }

  /** Whatever the threads do, once the poll in which a control packet came is over, the main thread has
      gone on to send the answer. */
  lemma {:induction false} ReplySent(ts: seq<Turn>, i: nat) returns (k: nat)
    requires Demuxes(ts, i)
    ensures Run(ts).reply || (i < k <= |ts| && Run(ts[..k]).main == WantDir(Send))
    decreases |ts|
  {
    hide Step;
    var n := |ts| - 1;
    var front := ts[..n];
    ReplyInPoll(front);
    RunKeeps(front);
    StepReply(Run(front), ts[n].thread, ts[n].choice);
    assert ts[..n + 1] == ts;
    k := n + 1;
    if i < n {
      assert front[..i] == ts[..i];
      var j := ReplySent(front, i);
      if !Run(front).reply {
        k := j;
        assert front[..k] == ts[..k];
      }
    }
  }

  /** So no control packet of a poll that is over goes without an answer. */
  lemma {:induction false} EveryReplySent(ts: seq<Turn>, i: nat) returns (k: nat)
    requires Demuxes(ts, i) && !HoldsProxy(Run(ts).main)
    ensures i < k <= |ts| && Run(ts[..k]).main == WantDir(Send)
  {
    hide Run;
    k := ReplySent(ts, i);
    ReplyInPoll(ts);
  }
}
