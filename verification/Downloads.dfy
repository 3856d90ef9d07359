/**
 Several instances that share one directory download the same file: a lock file elects the
 downloader, waiters take over what they judge stale or idle, and a download reaches the shared
 file only by a rename. Every step below is one access to the shared file or to the lock, where a test
 whether the file is there and the reading of it count as the reading; any instance may take its next
 step at any time, or crash.
 */
module Downloads {
  type Pid = nat
  type Content = string

  const ATTEMPTS: nat := 3

  /** The arguments of one call. validate: 0 no JSON test, 1 any JSON, 2 the shape of the subscriber file;
      wanted is the digest that was current when the call was made. */
  datatype Call = Call(validate: nat, wanted: Wanted)

  datatype Wanted = AnyDigest | Digest(hex: string)

  /** The tests of a downloaded file. */
  datatype Env = Env(json: (nat, Content) -> bool, digest: Content -> string)

  /** Where an instance is in try_download. */
  datatype Pc =
    | Start
    | Probe
    | TakeStale
    | Create
    | Write
    | Waiting
    | BackedOff
    | Recheck
    | Remove
    | Attempt(k: nat)
    | Fetch(k: nat)
    | Json(k: nat)
    | Sum(k: nat)
    | Rename(k: nat)
    | Failed(k: nat)
    | Retry(k: nat)
    | Drop(r: int)
    | Unlink(r: int)
    | Done(r: int)

  datatype File = Missing | Present(content: Content)

  /** The lock file: who created it, and whether its pid is written in it. */
  datatype Lock = Free | Held(owner: Pid, written: bool)

  /** The shared directory, and of each instance the call it is in and where in it. */
  datatype Sys = Sys(file: File, lock: Lock, tmp: Pid -> File, call: Pid -> Call, pc: Pid -> Pc)

  /** What the step leaves to the outside: an answer, bytes that arrive, a crash, or the next call. */
  datatype Choice = Yes | No | Bytes(content: Content) | Crash | Next(call: Call)

  function Set<T>(f: Pid -> T, p: Pid, v: T): Pid -> T {
    (q: Pid) => if q == p then v else f(q)
  }

  predicate Matches(e: Env, i: Call, c: Content) {
    match i.wanted case AnyDigest => true case Digest(hex) => e.digest(c) == hex
  }

  predicate JsonOk(e: Env, i: Call, f: File) {
    i.validate == 0 || (f.Present? && e.json(i.validate, f.content))
  }

  /** What an instance demands of a download before it renames it. */
  predicate Passed(e: Env, i: Call, c: Content) {
    JsonOk(e, i, Present(c)) && Matches(e, i, c)
  }

  predicate Mismatch(e: Env, i: Call, f: File) {
    f.Present? && !Matches(e, i, f.content)
  }

  predicate Owns(s: Sys, p: Pid) {
    s.lock == Held(p, true)
  }

  function Goto(s: Sys, p: Pid, pc: Pc): Sys {
    s.(pc := Set(s.pc, p, pc))
  }

  /** One step of instance p. */
  function Step(e: Env, s: Sys, p: Pid, c: Choice): Sys {
    var i := s.call(p);
    if c.Crash? then Goto(s, p, Done(-2))
    else match s.pc(p)
      case Start => Goto(s, p, if Mismatch(e, i, s.file) || c.Yes? then Probe else Done(0))
      case Probe => Goto(s, p, if s.lock.Free? then Create else if c.Yes? then TakeStale else Waiting)
      case TakeStale => Goto(s.(lock := Free), p, Create)
      case Create =>
        if s.lock.Held? then Goto(s, p, Waiting)
        else if c.Yes? then Goto(s.(lock := Held(p, false)), p, Write)
        else Goto(s, p, Done(-1))
      case Write =>
        if c.Yes? then Goto(s.(lock := if s.lock == Held(p, false) then Held(p, true) else s.lock), p, Attempt(1))
        else Goto(s.(lock := Free), p, Done(-1))
      case Waiting =>
        if c.Yes? then Goto(s, p, if Mismatch(e, i, s.file) then Done(-1) else Done(if s.file.Present? then 1 else 0))
        else Goto(s, p, BackedOff)
      case BackedOff =>
        Goto(s, p, if s.file.Missing? then Recheck else if Mismatch(e, i, s.file) then Done(-1) else Done(1))
      case Recheck => Goto(s, p, if s.lock.Held? then Remove else Probe)
      case Remove => Goto(s.(lock := Free), p, Probe)
      case Attempt(k) =>
        if Owns(s, p) then Goto(s, p, Fetch(k)) else Goto(s.(tmp := Set(s.tmp, p, Missing)), p, Done(-1))
      case Fetch(k) =>
        if c.Bytes? then s.(tmp := Set(s.tmp, p, Present(c.content)))
        else Goto(s, p, if c.Yes? then Json(k) else Failed(k))
      case Json(k) => Goto(s, p, if JsonOk(e, i, s.tmp(p)) then Sum(k) else Failed(k))
      case Sum(k) =>
        Goto(s, p, if i.wanted.AnyDigest? || (s.tmp(p).Present? && Matches(e, i, s.tmp(p).content)) then Rename(k) else Failed(k))
      case Rename(k) =>
        if c.Yes? && s.tmp(p).Present?
        then Goto(s.(file := s.tmp(p), tmp := Set(s.tmp, p, Missing)), p, Unlink(1))
        else Goto(s, p, Failed(k))
      case Failed(k) =>
        Goto(s.(tmp := Set(s.tmp, p, Missing)), p, if k >= ATTEMPTS then Drop(-1) else Retry(k))
      case Retry(k) =>
        Goto(s, p, if s.file.Present? && !Mismatch(e, i, s.file) then Drop(1) else Attempt(k + 1))
      case Drop(r) => Goto(s, p, if Owns(s, p) then Unlink(r) else Done(r))
      case Unlink(r) => Goto(s.(lock := Free), p, Done(r))
      case Done(_) => if c.Next? then Goto(s.(call := Set(s.call, p, c.call)), p, Start) else s
  }

  datatype Turn = Turn(pid: Pid, choice: Choice)

  /** Any interleaving of any instances. */
  function Run(e: Env, s: Sys, ts: seq<Turn>): Sys {
    if ts == [] then s
    else Step(e, Run(e, s, ts[..|ts| - 1]), ts[|ts| - 1].pid, ts[|ts| - 1].choice)
  }

  /** Nobody has begun. */
  ghost predicate Initial(s: Sys) {
    forall p: Pid :: s.pc(p) == Start
  }

  // --------------------------------------------------------- the shared file

  /** The turn moves an instance's temporary file onto the shared file. */
  predicate Renames(s: Sys, t: Turn) {
    t.choice.Yes? && s.pc(t.pid).Rename? && s.tmp(t.pid).Present?
  }

  /** A download on its way to the rename has passed the tests it has been put to. */
  ghost predicate Vetted(e: Env, s: Sys, p: Pid) {
    && (s.pc(p).Sum? ==> JsonOk(e, s.call(p), s.tmp(p)))
    && (s.pc(p).Rename? && s.tmp(p).Present? ==> Passed(e, s.call(p), s.tmp(p).content))
  }

  ghost predicate AllVetted(e: Env, s: Sys) {
    forall p: Pid :: Vetted(e, s, p)
  }

  lemma StepVets(e: Env, s: Sys, t: Turn)
    requires AllVetted(e, s)
    ensures AllVetted(e, Step(e, s, t.pid, t.choice))
  {
    var u := Step(e, s, t.pid, t.choice);
    assert Vetted(e, s, t.pid);
    forall q: Pid ensures Vetted(e, u, q) {
      assert Vetted(e, s, q);
      if q != t.pid {
        OthersUntouched(e, s, t.pid, t.choice, q);
      }
    }
  }

  /** The shared file changes only by a rename, and then to the renamer's own download, which has
      passed the tests of the renamer's current call. */
  lemma FileChangesByRename(e: Env, s: Sys, t: Turn)
    requires AllVetted(e, s)
    ensures var u := Step(e, s, t.pid, t.choice);
      if Renames(s, t)
      then u.file == s.tmp(t.pid) && Passed(e, s.call(t.pid), s.tmp(t.pid).content)
      else u.file == s.file
  {
    assert Vetted(e, s, t.pid);
  }

  /** Only an instance itself moves, and only it writes its temporary file. */
  lemma OthersUntouched(e: Env, s: Sys, p: Pid, c: Choice, q: Pid)
    requires q != p
    ensures Step(e, s, p, c).pc(q) == s.pc(q) && Step(e, s, p, c).tmp(q) == s.tmp(q) && Step(e, s, p, c).call(q) == s.call(q)
  {
  }

  /** Turn i of the run was a rename whose download passed the tests of the call the instance was in,
      and the shared file still holds it. */
  ghost predicate RenamedAt(e: Env, s: Sys, ts: seq<Turn>, i: nat) {
    i < |ts|
    && var before, p := Run(e, s, ts[..i]), ts[i].pid;
       Renames(before, ts[i])
       && Run(e, s, ts).file == before.tmp(p)
       && Passed(e, before.call(p), before.tmp(p).content)
  }

  /** However many instances there are, however often each of them calls and with what digest, whatever
      they are interrupted by and however many of them believe they hold the lock, the shared file is the
      one there was, or a download that passed the tests of the very call that renamed it. */
  lemma {:induction false} FileSound(e: Env, s: Sys, ts: seq<Turn>)
    requires Initial(s)
    ensures AllVetted(e, Run(e, s, ts))
    ensures Run(e, s, ts).file == s.file || exists i: nat :: RenamedAt(e, s, ts, i)
  {
    hide Vetted, Step, Renames, Passed;
    if ts == [] {
      StartVetted(e, s);
    } else {
      var n := |ts| - 1;
      var front, last := ts[..n], ts[n];
      FileSound(e, s, front);
      StepVets(e, Run(e, s, front), last);
      FileChangesByRename(e, Run(e, s, front), last);
      if Renames(Run(e, s, front), last) {
        assert RenamedAt(e, s, ts, n);
      } else if Run(e, s, front).file != s.file {
        var i: nat :| RenamedAt(e, s, front, i);
        assert front[..i] == ts[..i];
        assert RenamedAt(e, s, ts, i);
      }
    }
  }

  lemma StartVetted(e: Env, s: Sys)
    requires Initial(s)
    ensures AllVetted(e, s)
  {
    forall p: Pid ensures Vetted(e, s, p) {
      assert s.pc(p) == Start;
    }
  }

  // ------------------------------------------------------- what a call returns

  /** The turns hold no new call of p. */
  predicate OneCall(ts: seq<Turn>, p: Pid) {
    forall i | 0 <= i < |ts| :: ts[i].pid == p ==> !ts[i].choice.Next?
  }

  lemma {:induction false} CallStays(e: Env, s: Sys, ts: seq<Turn>, p: Pid)
    requires OneCall(ts, p)
    ensures Run(e, s, ts).call(p) == s.call(p)
  {
    if ts != [] {
      var front, last := ts[..|ts| - 1], ts[|ts| - 1];
      CallStays(e, s, front, p);
      StepCall(e, Run(e, s, front), last, p);
    }
  }

  lemma StepCall(e: Env, s: Sys, t: Turn, p: Pid)
    requires t.pid == p ==> !t.choice.Next?
    ensures Step(e, s, t.pid, t.choice).call(p) == s.call(p)
  {
  }

  /** The shared file never goes away. */
  lemma {:induction false} FileStays(e: Env, s: Sys, ts: seq<Turn>)
    requires s.file.Present?
    ensures Run(e, s, ts).file.Present?
  {
    hide Step;
    if ts != [] {
      var front, last := ts[..|ts| - 1], ts[|ts| - 1];
      FileStays(e, s, front);
      StepFile(e, Run(e, s, front), last);
    }
  }

  lemma StepFile(e: Env, s: Sys, t: Turn)
    requires s.file.Present?
    ensures Step(e, s, t.pid, t.choice).file.Present?
  {
  }

  /** After k turns the shared file is there, with the digest that the call wants. */
  ghost predicate GoodAt(e: Env, s: Sys, ts: seq<Turn>, i: Call, k: nat) {
    k <= |ts| && var f := Run(e, s, ts[..k]).file; f.Present? && Matches(e, i, f.content)
  }

  /** The instance has made up its mind to return r. */
  predicate Returns(pc: Pc, r: int) {
    pc == Drop(r) || pc == Unlink(r) || pc == Done(r)
  }

  /** When a step decides to return 1, the file is good before the step or after it. */
  lemma DecidesOne(e: Env, s: Sys, t: Turn, p: Pid)
    requires AllVetted(e, s) && (t.pid == p ==> !t.choice.Next?)
    requires !Returns(s.pc(p), 1) && Returns(Step(e, s, t.pid, t.choice).pc(p), 1)
    ensures var u := Step(e, s, t.pid, t.choice);
      || (s.file.Present? && Matches(e, s.call(p), s.file.content))
      || (u.file.Present? && Matches(e, s.call(p), u.file.content))
  {
    assert Vetted(e, s, t.pid);
    if t.pid != p {
      OthersUntouched(e, s, t.pid, t.choice, p);
    }
  }

  /** A call that returns 1 has had the shared file before it with the digest it wants. */
  lemma {:induction false} OneMeansGood(e: Env, s: Sys, ts: seq<Turn>, p: Pid) returns (k: nat)
    requires AllVetted(e, s) && s.pc(p) == Start && OneCall(ts, p)
    requires Returns(Run(e, s, ts).pc(p), 1)
    ensures GoodAt(e, s, ts, s.call(p), k)
    decreases |ts|
  {
    hide Step, Vetted, Matches;
    var n := |ts| - 1;
    var front, last := ts[..n], ts[n];
    var before := Run(e, s, front);
    CallStays(e, s, front, p);
    RunVets(e, s, front);
    if Returns(before.pc(p), 1) {
      k := OneMeansGood(e, s, front, p);
      assert front[..k] == ts[..k];
    } else {
      DecidesOne(e, before, last, p);
      assert ts[..n + 1] == ts;
      k := if before.file.Present? && Matches(e, s.call(p), before.file.content) then n else n + 1;
    }
  }

  lemma {:induction false} RunVets(e: Env, s: Sys, ts: seq<Turn>)
    requires AllVetted(e, s)
    ensures AllVetted(e, Run(e, s, ts))
  {
    hide Step, Vetted;
    if ts != [] {
      RunVets(e, s, ts[..|ts| - 1]);
      StepVets(e, Run(e, s, ts[..|ts| - 1]), ts[|ts| - 1]);
    }
  }

  /** After k turns the call may still return 0: it has not looked yet and need not download, or the
      shared file is not there. */
  ghost predicate ZeroAt(e: Env, s: Sys, ts: seq<Turn>, p: Pid, k: nat) {
    k <= |ts| && var u := Run(e, s, ts[..k]);
    u.file.Missing? || (u.pc(p) == Start && !Mismatch(e, u.call(p), u.file))
  }

  lemma DecidesZero(e: Env, s: Sys, t: Turn, p: Pid)
    requires (t.pid == p ==> !t.choice.Next?)
    requires !Returns(s.pc(p), 0) && Returns(Step(e, s, t.pid, t.choice).pc(p), 0)
    ensures s.file.Missing? || (s.pc(p) == Start && !Mismatch(e, s.call(p), s.file))
  {
    if t.pid != p {
      OthersUntouched(e, s, t.pid, t.choice, p);
    }
  }

  /** A call that returns 0 began on a file that it need not replace, or has seen none. */
  lemma {:induction false} ZeroMeansNone(e: Env, s: Sys, ts: seq<Turn>, p: Pid) returns (k: nat)
    requires !Returns(s.pc(p), 0) && OneCall(ts, p) && Returns(Run(e, s, ts).pc(p), 0)
    ensures ZeroAt(e, s, ts, p, k)
    decreases |ts|
  {
    hide Step, Mismatch;
    var n := |ts| - 1;
    var front, last := ts[..n], ts[n];
    if Returns(Run(e, s, front).pc(p), 0) {
      k := ZeroMeansNone(e, s, front, p);
      assert front[..k] == ts[..k];
    } else {
      DecidesZero(e, Run(e, s, front), last, p);
      k := n;
    }
  }

  /** A call that has left its beginning does not come back to it. */
  lemma {:induction false} BegunStays(e: Env, s: Sys, ts: seq<Turn>, p: Pid)
    requires s.pc(p) != Start && OneCall(ts, p)
    ensures Run(e, s, ts).pc(p) != Start
  {
    hide Step;
    if ts != [] {
      var front, last := ts[..|ts| - 1], ts[|ts| - 1];
      BegunStays(e, s, front, p);
      StepBegun(e, Run(e, s, front), last, p);
    }
  }

  lemma StepBegun(e: Env, s: Sys, t: Turn, p: Pid)
    requires s.pc(p) != Start && (t.pid == p ==> !t.choice.Next?)
    ensures Step(e, s, t.pid, t.choice).pc(p) != Start
  {
    if t.pid != p {
      OthersUntouched(e, s, t.pid, t.choice, p);
    }
  }

  /** So a call that begins on a file with another digest than it wants never returns 0. */
  lemma {:induction false} MismatchNotSkipped(e: Env, s: Sys, c: Choice, ts: seq<Turn>, p: Pid)
    requires s.pc(p) == Start && Mismatch(e, s.call(p), s.file) && OneCall([Turn(p, c)] + ts, p)
    ensures Run(e, Step(e, s, p, c), ts).pc(p) != Done(0)
  {
    hide Run;
    var u := Step(e, s, p, c);
    assert OneCall(ts, p) by {
      assert forall i | 0 <= i < |ts| :: ts[i] == ([Turn(p, c)] + ts)[i + 1];
    }
    if Run(e, u, ts).pc(p) == Done(0) {
      var k := ZeroMeansNone(e, u, ts, p);
      FileStays(e, u, ts[..k]);
      BegunStays(e, u, ts[..k], p);
    }
  }

  /** The number of the attempt the instance is in. */
  function Try(pc: Pc): nat {
    match pc
    case Attempt(k) => k
    case Fetch(k) => k
    case Json(k) => k
    case Sum(k) => k
    case Rename(k) => k
    case Failed(k) => k
    case Retry(k) => k + 1
    case _ => 0
  }

  /** No call makes more than three attempts. */
  lemma {:induction false} ThreeAttempts(e: Env, s: Sys, ts: seq<Turn>, p: Pid)
    requires Initial(s)
    ensures Try(Run(e, s, ts).pc(p)) <= 3
  {
    hide Step;
    if ts == [] {
      assert s.pc(p) == Start;
    } else {
      var front, last := ts[..|ts| - 1], ts[|ts| - 1];
      ThreeAttempts(e, s, front, p);
      StepAttempts(e, Run(e, s, front), last, p);
    }
  }

  lemma StepAttempts(e: Env, s: Sys, t: Turn, p: Pid)
    requires Try(s.pc(p)) <= 3
    ensures Try(Step(e, s, t.pid, t.choice).pc(p)) <= 3
  {
    if t.pid != p {
      OthersUntouched(e, s, t.pid, t.choice, p);
    }
  }

  /** What the answer no does behind a download that fails. */
  lemma NoStep(e: Env, s: Sys, p: Pid)
    ensures var t := Step(e, s, p, No);
      && (s.pc(p).Fetch? ==> t.pc(p) == Failed(s.pc(p).k))
      && (s.pc(p).Failed? ==> t.pc(p) == if s.pc(p).k < 3 then Retry(s.pc(p).k) else Drop(-1))
      && (s.pc(p).Retry? && s.file.Missing? ==> t.pc(p) == Attempt(s.pc(p).k + 1))
      && (s.pc(p).Attempt? && s.lock == Held(p, true) ==> t.pc(p) == Fetch(s.pc(p).k))
      && (s.pc(p).Drop? && s.lock == Held(p, true) ==> t.pc(p) == Unlink(s.pc(p).r))
      && (s.pc(p).Unlink? ==> t.pc(p) == Done(s.pc(p).r))
      && (!s.pc(p).Rename? ==> t.file == s.file)
      && (s.pc(p).Fetch? || s.pc(p).Failed? || s.pc(p).Retry? || s.pc(p).Attempt? || s.pc(p).Drop? ==> t.lock == s.lock)
  {
  }

  /** An attempt that fails while the file is not there is followed by the next, up to the third. */
  lemma TriesAgain(e: Env, s: Sys, p: Pid, k: nat)
    requires s.pc(p) == Fetch(k) && 1 <= k <= 3 && s.file.Missing? && s.lock == Held(p, true)
    ensures var u := Run(e, s, [Turn(p, No), Turn(p, No), Turn(p, No), Turn(p, No)]);
      if k < 3 then u.pc(p) == Fetch(k + 1) && u.file.Missing? && u.lock == Held(p, true) else u.pc(p) == Done(-1)
  {
    hide Step, Run;
    var t := Turn(p, No);
    var ts: seq<Turn> := [];
    StartsSame(e, s);
    while |ts| < 4
      invariant |ts| <= 4 && forall i | 0 <= i < |ts| :: ts[i] == t
      invariant var u := Run(e, s, ts);
        && u.file.Missing?
        && (|ts| < 4 || k < 3 ==> u.lock == Held(p, true))
        && u.pc(p) == if |ts| == 0 then Fetch(k) else if |ts| == 1 then Failed(k)
                      else if |ts| == 2 then (if k < 3 then Retry(k) else Drop(-1))
                      else if |ts| == 3 then (if k < 3 then Attempt(k + 1) else Unlink(-1))
                      else if k < 3 then Fetch(k + 1) else Done(-1)
    {
      NoStep(e, Run(e, s, ts), p);
      RunMore(e, s, ts, t);
      ts := ts + [t];
    }
    assert ts == [t, t, t, t];
  }

  lemma StartsSame(e: Env, s: Sys)
    ensures Run(e, s, []) == s
  {
  }

  // ---------------------------------------------------------------- the lock

  /** The instance has created the lock and not given it up. */
  predicate Holding(pc: Pc) {
    match pc
    case Write | Attempt(_) | Fetch(_) | Json(_) | Sum(_) | Rename(_) | Failed(_) | Retry(_) | Drop(_) | Unlink(_) => true
    case _ => false
  }

  /** The step removes a lock file that another instance made. */
  predicate TakesOver(s: Sys, t: Turn) {
    !t.choice.Crash? && (s.pc(t.pid).TakeStale? || s.pc(t.pid).Remove?)
  }

  /** Some instance is holding. */
  ghost predicate AnyHolding(s: Sys) {
    exists p: Pid :: Holding(s.pc(p))
  }

  /** No lock was taken over while an instance was holding; the lock of one that crashed may be. */
  ghost predicate OnlyDeadTaken(e: Env, s: Sys, ts: seq<Turn>) {
    forall i | 0 <= i < |ts| :: !(TakesOver(Run(e, s, ts[..i]), ts[i]) && AnyHolding(Run(e, s, ts[..i])))
  }

  /** The lock belongs to whoever holds it. */
  ghost predicate LockInv(s: Sys) {
    forall p: Pid | Holding(s.pc(p)) :: s.lock == Held(p, !s.pc(p).Write?)
  }

  /** A step keeps the lock with its holder exactly when it does not take the lock over from one. */
  lemma StepLocksIff(e: Env, s: Sys, t: Turn)
    requires LockInv(s)
    ensures LockInv(Step(e, s, t.pid, t.choice)) <==> !(TakesOver(s, t) && AnyHolding(s))
  {
    var u := Step(e, s, t.pid, t.choice);
    if TakesOver(s, t) && AnyHolding(s) {
      var p: Pid :| Holding(s.pc(p));
      assert p != t.pid;
      OthersUntouched(e, s, t.pid, t.choice, p);
      assert Holding(u.pc(p)) && u.lock.Free?;
    } else {
      forall q: Pid | Holding(u.pc(q)) ensures u.lock == Held(q, !u.pc(q).Write?) {
        HolderKeeps(e, s, t, q);
      }
    }
  }

  lemma HolderKeeps(e: Env, s: Sys, t: Turn, q: Pid)
    requires LockInv(s) && !(TakesOver(s, t) && AnyHolding(s))
    requires Holding(Step(e, s, t.pid, t.choice).pc(q))
    ensures Step(e, s, t.pid, t.choice).lock == Held(q, !Step(e, s, t.pid, t.choice).pc(q).Write?)
  {
    assert Holding(s.pc(q)) ==> s.lock == Held(q, !s.pc(q).Write?);
    assert Holding(s.pc(t.pid)) ==> s.lock == Held(t.pid, !s.pc(t.pid).Write?);
    if q != t.pid {
      OthersUntouched(e, s, t.pid, t.choice, q);
      assert AnyHolding(s);
    }
  }

  lemma {:induction false} RunLocks(e: Env, s: Sys, ts: seq<Turn>)
    requires Initial(s) && OnlyDeadTaken(e, s, ts)
    ensures LockInv(Run(e, s, ts))
  {
    hide Step, AnyHolding, TakesOver, Holding;
    if ts == [] {
      StartFree(s);
    } else {
      var front, last := ts[..|ts| - 1], ts[|ts| - 1];
      forall i | 0 <= i < |front|
        ensures !(TakesOver(Run(e, s, front[..i]), front[i]) && AnyHolding(Run(e, s, front[..i])))
      {
        assert front[..i] == ts[..i] && front[i] == ts[i];
      }
      RunLocks(e, s, front);
      assert ts[..|ts| - 1] == front;
      StepLocksIff(e, Run(e, s, front), last);
    }
  }

  lemma StartFree(s: Sys)
    requires Initial(s)
    ensures LockInv(s)
  {
    forall p: Pid ensures !Holding(s.pc(p)) {
      assert s.pc(p) == Start;
    }
  }

  /** As long as no lock is taken over from an instance that holds it, at most one holds it. */
  lemma OneHolder(e: Env, s: Sys, ts: seq<Turn>, p: Pid, q: Pid)
    requires Initial(s) && OnlyDeadTaken(e, s, ts)
    requires Holding(Run(e, s, ts).pc(p)) && Holding(Run(e, s, ts).pc(q))
    ensures p == q
  {
    RunLocks(e, s, ts);
  }

  /** And a takeover from a holder can always go on to two holders. */
  lemma TakeoverAdmitsSecond(e: Env, s: Sys, ts: seq<Turn>, p: Pid, q: Pid) returns (us: seq<Turn>)
    requires var now := Run(e, s, ts); Holding(now.pc(p)) && p != q && TakesOver(now, Turn(q, Yes))
    ensures Holding(Run(e, s, us).pc(p)) && Holding(Run(e, s, us).pc(q)) && ts <= us
  {
    hide Step, Run;
    us := ts;
    YesStep(e, Run(e, s, us), q);
    us := SaysYes(e, s, us, q);
    if Run(e, s, us).pc(q).Probe? {
      YesStep(e, Run(e, s, us), q);
      us := SaysYes(e, s, us, q);
    }
    YesStep(e, Run(e, s, us), q);
    us := SaysYes(e, s, us, q);
  }

  /** What the answer yes does on the way to the download. */
  lemma YesStep(e: Env, s: Sys, p: Pid)
    ensures var t := Step(e, s, p, Yes);
      && (s.pc(p).Start? ==> t.pc(p) == Probe)
      && (s.pc(p).Probe? ==> t.pc(p) == if s.lock.Free? then Create else TakeStale)
      && (s.pc(p).Probe? && s.lock.Free? ==> t.lock.Free?)
      && (s.pc(p).TakeStale? ==> t.pc(p) == Create && t.lock.Free?)
      && (s.pc(p).Remove? ==> t.pc(p) == Probe && t.lock.Free?)
      && (s.pc(p).Create? && s.lock.Free? ==> t.pc(p) == Write && t.lock == Held(p, false))
      && (s.pc(p).Write? && s.lock == Held(p, false) ==> t.pc(p) == Attempt(1) && t.lock == Held(p, true))
      && (s.pc(p) == Attempt(1) && s.lock == Held(p, true) ==> t.pc(p) == Fetch(1))
      && (forall q: Pid | q != p :: t.pc(q) == s.pc(q))
  {
  }

  lemma RunMore(e: Env, s: Sys, ts: seq<Turn>, t: Turn)
    ensures Run(e, s, ts + [t]) == Step(e, Run(e, s, ts), t.pid, t.choice)
  {
    assert (ts + [t])[..|ts|] == ts;
  }

  lemma SaysYes(e: Env, s: Sys, ts: seq<Turn>, p: Pid) returns (us: seq<Turn>)
    ensures us == ts + [Turn(p, Yes)] && Run(e, s, us) == Step(e, Run(e, s, ts), p, Yes)
  {
    us := ts + [Turn(p, Yes)];
    RunMore(e, s, ts, Turn(p, Yes));
    YesStep(e, Run(e, s, ts), p);
  }

  /** An instance that begins can get to its download whoever holds the lock, while the
      others stand where they are. */
  lemma Seizes(e: Env, s: Sys, ts: seq<Turn>, p: Pid) returns (us: seq<Turn>)
    requires Run(e, s, ts).pc(p) == Start
    ensures Run(e, s, us).pc(p) == Fetch(1)
    ensures forall q: Pid | q != p :: Run(e, s, us).pc(q) == Run(e, s, ts).pc(q)
  {
    hide Step, Run;
    us := ts;
    YesStep(e, Run(e, s, us), p);
    us := SaysYes(e, s, us, p);
    YesStep(e, Run(e, s, us), p);
    us := SaysYes(e, s, us, p);
    if Run(e, s, us).pc(p).TakeStale? {
      YesStep(e, Run(e, s, us), p);
      us := SaysYes(e, s, us, p);
    }
    YesStep(e, Run(e, s, us), p);
    us := SaysYes(e, s, us, p);
    YesStep(e, Run(e, s, us), p);
    us := SaysYes(e, s, us, p);
    YesStep(e, Run(e, s, us), p);
    us := SaysYes(e, s, us, p);
  }

  /** The takeover of a lock judged stale leaves two downloads running at once. */
  lemma TwoHolders(e: Env, s: Sys, p: Pid, q: Pid) returns (ts: seq<Turn>)
    requires Initial(s) && p != q
    ensures Run(e, s, ts).pc(p) == Fetch(1) && Run(e, s, ts).pc(q) == Fetch(1)
  {
    hide Step;
    ts := Seizes(e, s, [], p);
    ts := Seizes(e, s, ts, q);
  }
}
