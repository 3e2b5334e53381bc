// mpp::process waiting: three caches on the main thread, a pool worker blocked in
// waitid, the completion callback, and a child the kernel lets be reaped once.
// Between any two actions of the main thread the rest of the system moves on.

module WaitProtocol {

  import opened AwaitWork
  import opened Common

  /** How the child ends (si_code and si_status). */
  datatype Fate = Exited(status: int) | Killed(signal: int) | Dumped(signal: int)

  function Decode(fate: Fate): int {
    match fate
    case Exited(status) => status
    case Killed(signal) => 0x80 + signal
    case Dumped(signal) => 0x80 + signal
  }

  /** A code tells how the child ended: below 128 it is the exit status, above it the signal. */
  lemma CodesApart(f: Fate, g: Fate)
    requires f.Exited? ==> f.status < 128
    requires g.Exited? ==> g.status < 128
    requires !f.Exited? ==> f.signal >= 1
    requires !g.Exited? ==> g.signal >= 1
    ensures Decode(f) == Decode(g) ==> (f.Exited? <==> g.Exited?)
    ensures Decode(f) == Decode(g) ==> if f.Exited? then f.status == g.status else f.signal == g.signal
  {
  }

  datatype Child = Running | Zombie | Reaped

  datatype Work = Work(phase: Phase, exitCode: int)

  datatype Sys = Sys(child: Child, reaps: nat, work: Option<Work>)

  /** One such event; a worker that wakes up reaps, waits on, or meets ECHILD. */
  function React(fate: Fate, s: Sys, e: Event): Sys {
    match e
    case SourceEnds => if s.child.Running? then s.(child := Zombie) else s
    case WorkerTakes =>
      if s.work.Some? && s.work.value.phase.Queued? then s.(work := Some(s.work.value.(phase := Blocked))) else s
    case WorkerWakes =>
      if s.work.None? || !s.work.value.phase.Blocked? then s else
      match s.child
      case Running => s
      case Zombie => Sys(Reaped, s.reaps + 1, Some(Work(Returned, Decode(fate))))
      case Reaped => s.(work := Some(Work(Returned, 0)))
  }

  function Reacts(fate: Fate, s: Sys, burst: seq<Event>): Sys
    decreases |burst|
  {
    if burst == [] then s else Reacts(fate, React(fate, s, burst[0]), burst[1..])
  }

  /** What the rest of the system does at one point; when its script has run out the pool
      still works, and a child that is mortal has ended. */
  const SETTLE := [SourceEnds, WorkerTakes, WorkerWakes]
  const POOL_WORKS := [WorkerTakes, WorkerWakes]

  function Burst(mortal: bool, script: seq<seq<Event>>): seq<Event> {
    if script != [] then script[0] else if mortal then SETTLE else POOL_WORKS
  }

  function Later(script: seq<seq<Event>>): seq<seq<Event>> {
    if script == [] then [] else script[1..]
  }

  /** The completion callbacks of one uv_run. */
  function Called(s: Sys): Sys {
    if s.work.None? then s else
    match s.work.value.phase
    case Returned => s.(work := Some(s.work.value.(phase := Done)))
    case Cancelled => s.(work := Some(s.work.value.(phase := Dropped)))
    case _ => s
  }

  /** uv_cancel: only a request no worker has taken. */
  function Cancel(s: Sys): Sys {
    if s.work.Some? && s.work.value.phase.Queued? then s.(work := Some(s.work.value.(phase := Cancelled))) else s
  }

  predicate IsDone(w: Work) { w.phase.Done? || w.phase.Dropped? }

  /** Still with the pool. */
  predicate InWork(w: Work) { w.phase.Queued? || w.phase.Blocked? }

  /** The destructor has not started on it. */
  predicate Unharmed(work: Option<Work>) {
    work.Some? ==> !work.value.phase.Cancelled? && !work.value.phase.Dropped?
  }

  predicate Collectable(work: Option<Work>) { work.Some? && (work.value.phase.Returned? || work.value.phase.Done?) }

  /** The kernel's reap count, and a reap by the worker kept in its work item. */
  ghost predicate Sound(fate: Fate, s: Sys, cached: bool) {
    && s.reaps == (if s.child.Reaped? then 1 else 0)
    && (cached ==> s.child.Reaped? && s.work.None?)
    && (s.child.Reaped? ==> cached || Collectable(s.work))
    && (Collectable(s.work) ==> s.child.Reaped? && s.work.value.exitCode == Decode(fate))
  }

  /** Nothing that is over starts again, and only the pool touches a work item. */
  ghost predicate Onward(a: Sys, b: Sys) {
    && (!a.child.Running? ==> !b.child.Running?)
    && (a.child.Reaped? ==> b.child.Reaped?)
    && a.work.Some? == b.work.Some?
    && (a.work.None? && !a.child.Running? ==> a.child == b.child)
    && (a.work.Some? && a.work.value.phase.Cancelled? ==> b.work == a.work)
    && (a.work.Some? && a.work.value.phase.Returned? ==> b.work == a.work)
    && (a.work.Some? ==> !a.work.value.phase.Cancelled? && !a.work.value.phase.Dropped? ==>
          !b.work.value.phase.Cancelled? && !b.work.value.phase.Dropped?)
    && (a.work.Some? ==> (a.work.value.phase.Done? <==> b.work.value.phase.Done?))
    && (a.work.Some? ==> (a.work.value.phase.Dropped? <==> b.work.value.phase.Dropped?))
  }

  lemma {:induction false} ReactsSound(fate: Fate, s: Sys, burst: seq<Event>, cached: bool)
    requires Sound(fate, s, cached)
    ensures Sound(fate, Reacts(fate, s, burst), cached)
    ensures Onward(s, Reacts(fate, s, burst))
    decreases |burst|
  {
    if burst != [] {
      ReactsSound(fate, React(fate, s, burst[0]), burst[1..], cached);
    }
  }

  /** Once the child has ended, or if it ends now, the pool's next round ends the wait. */
  lemma SettleSettles(fate: Fate, s: Sys, mortal: bool)
    requires mortal || !s.child.Running?
    ensures Settled(Reacts(fate, s, if mortal then SETTLE else POOL_WORKS))
  {
    var a := if mortal then React(fate, s, SourceEnds) else s;
    var b := React(fate, a, WorkerTakes);
    assert SETTLE[1..] == POOL_WORKS && POOL_WORKS[1..] == [WorkerWakes];
    assert Reacts(fate, b, [WorkerWakes]) == React(fate, b, WorkerWakes);
    assert Reacts(fate, a, POOL_WORKS) == React(fate, b, WorkerWakes);
  }

  predicate Settled(s: Sys) {
    && !s.child.Running?
    && (s.work.Some? ==> !InWork(s.work.value))
  }

  // ----- the destructor's wait, under any schedule -----

  /** await_work for the wait job after n turns. */
  function Awaited(fate: Fate, s: Sys, sched: Schedule, n: nat): Sys {
    if n == 0 then Cancel(s) else Called(Reacts(fate, Awaited(fate, s, sched, n - 1), sched(n - 1)))
  }

  /** The wait job as a job that waits for the child. */
  function AsJob(s: Sys): Job
    requires s.work.Some?
  {
    Job(s.child.Running?, s.work.value.phase)
  }

  lemma {:induction false} ReactsAsJob(fate: Fate, s: Sys, burst: seq<Event>)
    requires s.work.Some?
    ensures var t := Reacts(fate, s, burst);
            t.work.Some? && AsJob(t) == Steps(AsJob(s), burst)
    decreases |burst|
  {
    if burst != [] {
      ReactsAsJob(fate, React(fate, s, burst[0]), burst[1..]);
    }
  }

  lemma {:induction false} AwaitedAsJob(fate: Fate, s: Sys, sched: Schedule, n: nat)
    requires s.work.Some?
    ensures var t := Awaited(fate, s, sched, n);
            t.work.Some? && AsJob(t) == AfterTurns(AsJob(s), sched, n)
  {
    if n > 0 {
      AwaitedAsJob(fate, s, sched, n - 1);
      ReactsAsJob(fate, Awaited(fate, s, sched, n - 1), sched(n - 1));
    }
  }

  ghost predicate ReleasedIn(fate: Fate, s: Sys, sched: Schedule) {
    exists n: nat :: var t := Awaited(fate, s, sched, n); t.work.Some? && IsDone(t.work.value)
  }

  /** The destructor's wait ends exactly when the cancel wins, the worker is back, or the
      child ends: it never ends while a worker sits in waitid for a child that lives on. */
  lemma AwaitEndsIff(fate: Fate, s: Sys, sched: Schedule)
    requires s.work.Some? && Serves(sched)
    ensures ReleasedIn(fate, s, sched)
            <==> !s.work.value.phase.Blocked? || !s.child.Running? || SourceEndsIn(sched)
  {
    EndsIff(AsJob(s), sched);
    forall n: nat
      ensures var t := Awaited(fate, s, sched, n);
              t.work.Some? && (IsDone(t.work.value) <==> Released(AfterTurns(AsJob(s), sched, n)))
    {
      AwaitedAsJob(fate, s, sched, n);
    }
  }

  // ----- what a timed wait answers -----

  datatype Peek = StillRunning | Ended(fate: Fate) | NoChild

  /** A sleep runs to its end or is cut short with so much left. */
  datatype Nap = Full | Cut(rest: nat)

  function Interval(pollMs: int): int {
    (if pollMs < 1 then 1 else pollMs) * 1000000
  }

  /** The poll loop: at every look the rest of the system has moved on, and between two
      looks lies one sleep of at most poll nanoseconds. */
  function Countdown(fate: Fate, mortal: bool, s: Sys, script: seq<seq<Event>>, remaining: int, poll: int, naps: seq<Nap>)
      : Option<int>
    requires poll > 0
    decreases |naps|, if remaining > 0 then remaining else 0
  {
    var t := Reacts(fate, s, Burst(mortal, script));
    match t.child
    case Zombie => Some(Decode(fate))
    case Reaped => Some(0)
    case Running =>
      if remaining <= 0 then None
      else if naps == [] then Countdown(fate, mortal, t, Later(script), remaining - poll, poll, [])
      else Countdown(fate, mortal, t, Later(script), remaining - Slept(naps[0], poll), poll, naps[1..])
  }

  /** The part of the interval that was really slept. */
  function Slept(nap: Nap, poll: int): int {
    if nap.Cut? then poll - nap.rest else poll
  }

  /** The wait without a limit; None when it never ends. */
  function Blocking(fate: Fate, mortal: bool, s: Sys, script: seq<seq<Event>>): Option<int>
    decreases |script|
  {
    var t := Reacts(fate, s, Burst(mortal, script));
    match t.child
    case Zombie => Some(Decode(fate))
    case Reaped => Some(0)
    case Running => if script == [] then None else Blocking(fate, mortal, t, script[1..])
  }

  /** process::wait_timeout_ms. */
  function TimedAnswer(fate: Fate, mortal: bool, s: Sys, cached: Option<int>, timeoutMs: int, pollMs: int,
                       script: seq<seq<Event>>, naps: seq<Nap>): Option<int>
  {
    if cached.Some? then cached
    else if timeoutMs < 0 then Blocking(fate, mortal, s, script)
    else Countdown(fate, mortal, s, script, timeoutMs * 1000000, Interval(pollMs), naps)
  }

  predicate True(fate: Fate, answer: Option<int>) { answer.Some? ==> answer.value == Decode(fate) }

  predicate TrueOrZero(fate: Fate, answer: Option<int>) {
    answer.Some? ==> answer.value == Decode(fate) || answer.value == 0
  }

  /** Without a queued wait nobody else reaps. */
  lemma {:induction false} NobodyReaps(fate: Fate, s: Sys, burst: seq<Event>)
    requires s.work.None? && !s.child.Reaped?
    ensures var t := Reacts(fate, s, burst); t.work.None? && !t.child.Reaped?
    decreases |burst|
  {
    if burst != [] {
      NobodyReaps(fate, React(fate, s, burst[0]), burst[1..]);
    }
  }

  lemma {:induction false} CountdownTrue(fate: Fate, mortal: bool, s: Sys, script: seq<seq<Event>>, remaining: int,
                                         poll: int, naps: seq<Nap>)
    requires poll > 0
    ensures TrueOrZero(fate, Countdown(fate, mortal, s, script, remaining, poll, naps))
    ensures s.work.None? && !s.child.Reaped? ==> True(fate, Countdown(fate, mortal, s, script, remaining, poll, naps))
    decreases |naps|, if remaining > 0 then remaining else 0
  {
    var t := Reacts(fate, s, Burst(mortal, script));
    if s.work.None? && !s.child.Reaped? {
      NobodyReaps(fate, s, Burst(mortal, script));
    }
    if t.child.Running? && remaining > 0 {
      if naps == [] {
        CountdownTrue(fate, mortal, t, Later(script), remaining - poll, poll, []);
      } else {
        CountdownTrue(fate, mortal, t, Later(script), remaining - Slept(naps[0], poll), poll, naps[1..]);
      }
    }
  }

  lemma {:induction false} BlockingTrue(fate: Fate, mortal: bool, s: Sys, script: seq<seq<Event>>)
    ensures TrueOrZero(fate, Blocking(fate, mortal, s, script))
    ensures s.work.None? && !s.child.Reaped? ==> True(fate, Blocking(fate, mortal, s, script))
    decreases |script|
  {
    var t := Reacts(fate, s, Burst(mortal, script));
    if s.work.None? && !s.child.Reaped? {
      NobodyReaps(fate, s, Burst(mortal, script));
    }
    if t.child.Running? && script != [] {
      BlockingTrue(fate, mortal, t, script[1..]);
    }
  }

  /** With a wait queued the worker can always be the one who reaps. */
  const WORKER_FIRST := [WorkerTakes, SourceEnds, WorkerWakes]

  lemma WorkerReapsFirst(fate: Fate, s: Sys)
    requires Sound(fate, s, false) && s.work.Some? && Unharmed(s.work)
    ensures Reacts(fate, s, WORKER_FIRST).child.Reaped?
  {
    var a := React(fate, s, WorkerTakes);
    var b := React(fate, a, SourceEnds);
    assert WORKER_FIRST[1..] == [SourceEnds, WorkerWakes] && WORKER_FIRST[1..][1..] == [WorkerWakes];
    assert Reacts(fate, b, [WorkerWakes]) == React(fate, b, WorkerWakes);
  }

  /** A timed wait is truthful under every schedule exactly when the code is cached, no wait
      is queued, or the true code is the placeholder itself. */
  lemma TimedTruthIff(fate: Fate, mortal: bool, s: Sys, cached: Option<int>, timeoutMs: int, pollMs: int)
    requires Sound(fate, s, cached.Some?) && Unharmed(s.work) && True(fate, cached)
    ensures (forall script, naps :: True(fate, TimedAnswer(fate, mortal, s, cached, timeoutMs, pollMs, script, naps)))
            <==> cached.Some? || s.work.None? || Decode(fate) == 0
  {
    forall script, naps
      ensures cached.Some? || s.work.None? || Decode(fate) == 0 ==>
                True(fate, TimedAnswer(fate, mortal, s, cached, timeoutMs, pollMs, script, naps))
    {
      CountdownTrue(fate, mortal, s, script, timeoutMs * 1000000, Interval(pollMs), naps);
      BlockingTrue(fate, mortal, s, script);
    }
    if cached.None? && s.work.Some? {
      WorkerReapsFirst(fate, s);
      assert TimedAnswer(fate, mortal, s, cached, timeoutMs, pollMs, [WORKER_FIRST], []) == Some(0);
    }
  }

  // ----- the process object -----

  newtype int64 = x: int | -0x8000_0000_0000_0000 <= x < 0x8000_0000_0000_0000

  const INT_MAX := 0x7FFF_FFFF

  /** What outlives a call. */
  datatype View = View(exitCode: Option<int>, observed: bool, child: Child, reaps: nat, waiting: bool)

  /** Nothing known is forgotten or revised. */
  ghost predicate Follows(a: View, b: View) {
    && (a.exitCode.Some? ==> b.exitCode == a.exitCode)
    && (Known(a) ==> Known(b))
    && (!a.child.Running? ==> !b.child.Running?)
    && (a.child.Reaped? ==> b.child.Reaped?)
  }

  ghost predicate Known(v: View) { v.exitCode.Some? || v.observed }

  class Process {
    const fate: Fate
    /** Whether the child ends by itself in the end. */
    const mortal: bool
    var child: Child
    var reaps: nat
    /** What happens at each of the next points where something can. */
    var script: seq<seq<Event>>

    var exitCode: Option<int>
    var observedExited: bool
    var waitWork: Option<Work>
    /** The pool or the loop holds a work item that points here: a submission makes it so,
        and only the completion callback ends it. */
    var outstanding: bool
    /** The cancel came too late: a worker had taken the wait. */
    ghost var tooLate: bool

    constructor (fate: Fate, mortal: bool, script: seq<seq<Event>>)
      ensures Valid() && Open() && this.fate == fate && this.mortal == mortal && this.script == script
      ensures System() == Sys(Running, 0, None) && exitCode == None && !observedExited
    {
      this.fate, this.mortal, this.script := fate, mortal, script;
      child, reaps := Running, 0;
      exitCode, observedExited, waitWork, outstanding := None, false, None, false;
      tooLate := false;
    }

    ghost function Seen(): View
      reads this
    {
      View(exitCode, observedExited, child, reaps, waitWork.Some?)
    }

    ghost function System(): Sys
      reads this
    {
      Sys(child, reaps, waitWork)
    }

    /** The three caches agree with the kernel. */
    ghost predicate Valid()
      reads this
    {
      && Sound(fate, System(), exitCode.Some?)
      && (exitCode.Some? ==> exitCode.value == Decode(fate))
      && (observedExited ==> !child.Running?)
      && (outstanding <==> waitWork.Some? && !IsDone(waitWork.value))
      && (tooLate ==> Unharmed(waitWork) && (waitWork.None? ==> child.Reaped?))
    }

    /** The destructor has not started. */
    ghost predicate Open()
      reads this
    {
      Unharmed(waitWork)
    }

    /** The child has ended or will. */
    ghost predicate WillEnd()
      reads this
    {
      mortal || !child.Running?
    }

    /** The system after what happens next. */
    ghost function Next(): Sys
      reads this
    {
      Reacts(fate, System(), Burst(mortal, script))
    }

    ghost function Delay(): nat
      reads this
    {
      |script| + if Settled(System()) then 0 else 1
    }

    /** The rest of the system moves on by one burst. */
    method Others()
      requires Valid()
      modifies this`child, this`reaps, this`waitWork, this`script
      ensures System() == old(Next()) && script == Later(old(script))
      ensures Valid() && Onward(old(System()), System()) && Follows(old(Seen()), Seen())
      ensures Delay() <= old(Delay()) && (old(WillEnd()) ==> WillEnd())
      ensures old(WillEnd()) ==> Delay() < old(Delay()) || (Delay() == 0 && Settled(System()))
    {
      var burst := Burst(mortal, script);
      if mortal || !child.Running? {
        SettleSettles(fate, System(), mortal);
      }
      script := Later(script);
      ReactsSound(fate, System(), burst, exitCode.Some?);
      var next := Reacts(fate, Sys(child, reaps, waitWork), burst);
      child, reaps, waitWork := next.child, next.reaps, next.work;
    }

    /** uv_run(UV_RUN_NOWAIT): calls back what has finished by now. */
    method RunLoop()
      requires Valid()
      modifies this`child, this`reaps, this`waitWork, this`script, this`outstanding
      ensures System() == old(Called(Next())) && script == Later(old(script))
      ensures Valid() && Follows(old(Seen()), Seen()) && waitWork.Some? == old(waitWork.Some?)
      ensures old(Open()) ==> Open()
      ensures old(waitWork.Some? && waitWork.value.phase.Cancelled?) ==> waitWork.Some? && IsDone(waitWork.value)
      ensures Delay() <= old(Delay()) && (old(WillEnd()) ==> WillEnd())
      ensures old(WillEnd()) ==> Delay() < old(Delay()) || (Delay() == 0 && (waitWork.Some? ==> IsDone(waitWork.value)))
      ensures old(Releasing()) ==> Releasing()
      ensures old(Releasing() && waitWork.Some?) ==> Delay() < old(Delay()) || (waitWork.Some? && IsDone(waitWork.value))
      ensures old(Open()) && waitWork.Some? ==> IsDone(waitWork.value) || InWork(waitWork.value)
      ensures old(waitWork.Some? && IsDone(waitWork.value)) ==> waitWork.Some? && IsDone(waitWork.value)
    {
      Others();
      if waitWork.Some? {
        match waitWork.value.phase {
          case Returned =>
            waitWork := Some(waitWork.value.(phase := Done));
            outstanding := false;
          case Cancelled =>
            waitWork := Some(waitWork.value.(phase := Dropped));
            outstanding := false;
          case _ =>
        }
      }
    }

    // ----- src/process_unix_wait.cpp -----

    /** waitid with WNOHANG and WNOWAIT: looks without reaping. */
    method PollStatus() returns (peek: Peek)
      ensures peek == match child
                      case Running => StillRunning
                      case Zombie => Ended(fate)
                      case Reaped => NoChild
    {
      match child {
        case Running => peek := StillRunning;
        case Zombie => peek := Ended(fate);
        case Reaped => peek := NoChild;
      }
    }

    method ProcessExited() returns (b: bool)
      ensures b <==> !child.Running?
    {
      var status := PollStatus();
      match status {
        case Ended(_) => b := true;
        case NoChild => b := true;
        case StillRunning => b := false;
      }
    }

    /** The blocking wait on the main thread; interrupted or spurious returns go round again. */
    method WaitFor() returns (code: int)
      requires Valid() && Open() && exitCode.None? && WillEnd()
      modifies this`child, this`reaps, this`waitWork, this`script
      ensures Follows(old(Seen()), Seen()) && child.Reaped? && Open() && waitWork.Some? == old(waitWork.Some?)
      ensures old(waitWork.None?) ==> waitWork.None? && code == Decode(fate) && reaps == 1
      ensures old(waitWork.None?) && fate.Exited? ==> code == fate.status
      ensures old(waitWork.None?) && !fate.Exited? ==> code == 128 + fate.signal
      ensures Some(code) == old(Blocking(fate, mortal, System(), script))
    {
      while true
        invariant Valid() && Open() && Follows(old(Seen()), Seen()) && WillEnd()
        invariant Blocking(fate, mortal, System(), script) == old(Blocking(fate, mortal, System(), script))
        invariant waitWork.Some? == old(waitWork.Some?)
        decreases Delay(), child.Running?
      {
        Others();
        match child {
          case Running =>
          case Reaped => return 0;
          case Zombie =>
            child, reaps := Reaped, reaps + 1;
            return Decode(fate);
        }
      }
    }

    // ----- mpp::process -----

    method BeginWait(submitted: bool)
      requires Valid() && Open()
      modifies this`child, this`reaps, this`waitWork, this`script, this`outstanding
      ensures Valid() && Open() && Follows(old(Seen()), Seen()) && script == Later(old(script))
      ensures waitWork.Some? <==> old(waitWork.Some?) || (exitCode.None? && submitted)
      ensures System() == old(Next()).(work := if old(waitWork.None? && exitCode.None?) && submitted
                                                then Some(Work(Queued, 0)) else old(Next()).work)
    {
      Others();
      if exitCode.Some? || waitWork.Some? {
        return;
      }
      if !submitted {
        return;
      }
      waitWork := Some(Work(Queued, 0));
      outstanding := true;
    }

    /** A finished work item is moved into the cache. */
    method Collect()
      requires Valid() && Open() && waitWork.Some? && IsDone(waitWork.value)
      modifies this`exitCode, this`waitWork, this`observedExited
      ensures Valid() && Open() && Follows(old(Seen()), Seen())
      ensures exitCode == Some(Decode(fate)) && waitWork.None? && observedExited
    {
      exitCode := Some(waitWork.value.exitCode);
      waitWork := None;
      observedExited := true;
    }

    method PollWait() returns (b: bool)
      requires Valid() && Open()
      modifies this`child, this`reaps, this`waitWork, this`script, this`exitCode, this`observedExited, this`outstanding
      ensures Valid() && Open() && Follows(old(Seen()), Seen())
      ensures b <==> Known(Seen())
      ensures b ==> !child.Running?
      ensures !b ==> if waitWork.None? then child.Running? else InWork(waitWork.value)
    {
      Others();
      if exitCode.Some? || observedExited {
        return true;
      }
      if waitWork.None? {
        var exited := ProcessExited();
        if exited {
          observedExited := true;
          return true;
        }
        return false;
      }
      RunLoop();
      if IsDone(waitWork.value) {
        Collect();
        return true;
      }
      return false;
    }

    method HasExited() returns (b: bool)
      requires Valid() && Open()
      modifies this`child, this`reaps, this`waitWork, this`script, this`exitCode, this`observedExited, this`outstanding
      ensures Valid() && Open() && Follows(old(Seen()), Seen())
      ensures b <==> Known(Seen())
      ensures b ==> !child.Running?
      ensures !b ==> if waitWork.None? then child.Running? else InWork(waitWork.value)
    {
      Others();
      if exitCode.Some? || observedExited {
        return true;
      }
      if waitWork.Some? {
        RunLoop();
        if IsDone(waitWork.value) {
          Collect();
          return true;
        }
        return false;
      }
      var exited := ProcessExited();
      if exited {
        observedExited := true;
        return true;
      }
      return false;
    }

    method CollectWait() returns (code: int)
      requires Valid() && Open() && (exitCode.Some? || WillEnd())
      modifies this`child, this`reaps, this`waitWork, this`script, this`exitCode, this`observedExited, this`outstanding
      ensures Valid() && Open() && Follows(old(Seen()), Seen())
      ensures code == Decode(fate) && exitCode == Some(code) && child.Reaped? && waitWork.None?
      ensures fate.Exited? ==> code == fate.status
      ensures !fate.Exited? ==> code == 128 + fate.signal
    {
      Others();
      if exitCode.Some? {
        return exitCode.value;
      }
      if waitWork.Some? {
        while !IsDone(waitWork.value)
          invariant Valid() && Open() && Follows(old(Seen()), Seen()) && waitWork.Some? && WillEnd()
          decreases Delay(), !IsDone(waitWork.value)
        {
          RunLoop();
        }
        Collect();
        return exitCode.value;
      }
      var status := WaitFor();
      exitCode := Some(status);
      return exitCode.value;
    }

    /** uv_cancel on the queued wait: it wins only before a worker has taken it. */
    method CancelWait()
      requires Valid() && Open()
      modifies this`waitWork, this`tooLate
      ensures Valid() && System() == old(Cancel(System()))
      ensures tooLate <==> old(waitWork.Some? && !waitWork.value.phase.Queued?)
    {
      tooLate := waitWork.Some? && !waitWork.value.phase.Queued?;
      if waitWork.Some? && waitWork.value.phase.Queued? {
        waitWork := Some(waitWork.value.(phase := Cancelled));
      }
    }

    /** The work item is freed once the loop has called back. */
    method Release()
      requires Valid() && !outstanding
      modifies this`waitWork
      ensures waitWork.None? && !outstanding && reaps <= 1 && Follows(old(Seen()), Seen())
      ensures tooLate ==> child.Reaped?
    {
      waitWork := None;
    }

    /** The wait for the work item cannot go on for ever: the cancel has won, the worker is
        back, or the child ends. */
    ghost predicate Releasing()
      reads this
    {
      waitWork.Some? && InWork(waitWork.value) ==> WillEnd()
    }

    /** Part of ~member_holder: afterwards neither the pool nor the loop holds anything that
        points here, and a worker that had taken the wait has been waited for until it
        reaped.  It ends when the child does, or when the cancel comes before a worker. */
    method AwaitWork()
      requires Valid() && Open()
      requires waitWork.Some? && waitWork.value.phase.Blocked? ==> WillEnd()
      modifies this`child, this`reaps, this`waitWork, this`script, this`outstanding, this`tooLate
      ensures waitWork.None? && !outstanding && reaps <= 1 && Follows(old(Seen()), Seen())
      ensures old(waitWork.Some? && !waitWork.value.phase.Queued?) ==> child.Reaped?
    {
      if waitWork.None? {
        return;
      }
      CancelWait();
      while !IsDone(waitWork.value)
        invariant Valid() && waitWork.Some? && Releasing() && Follows(old(Seen()), Seen())
        invariant tooLate <==> old(!waitWork.value.phase.Queued?)
        decreases Delay(), !IsDone(waitWork.value)
      {
        RunLoop();
      }
      Release();
    }

    /** The reap that follows a look which found the child ended. */
    method ReapNow()
      requires Valid()
      modifies this`child, this`reaps, this`waitWork, this`script
      ensures waitWork.Some? == old(waitWork.Some?) && Follows(old(Seen()), Seen())
      ensures old(waitWork.None? && child.Zombie?) ==> child.Reaped? && reaps == 1
    {
      Others();
      if child.Zombie? {
        child, reaps := Reaped, reaps + 1;
      }
    }

    /** One look of wait_timeout_ms: the status of a child found ended, which is then reaped,
        and 0 when the kernel knows of no child. */
    method LookAndReap() returns (status: Option<int>)
      requires Valid() && Open() && exitCode.None?
      modifies this`child, this`reaps, this`waitWork, this`script
      ensures Follows(old(Seen()), Seen()) && waitWork.Some? == old(waitWork.Some?)
      ensures status == match old(Next()).child
                        case Running => None
                        case Zombie => Some(Decode(fate))
                        case Reaped => Some(0)
      ensures status.None? ==> Valid() && Open() && System() == old(Next()) && script == Later(old(script))
      ensures status.Some? && old(waitWork.None?) ==> status.value == Decode(fate) && child.Reaped? && reaps == 1
    {
      Others();
      var peek := PollStatus();
      match peek {
        case Ended(f) =>
          status := Some(Decode(f));
          ReapNow();
        case NoChild => status := Some(0);
        case StillRunning => status := None;
      }
    }

    /** wait_timeout_ms: a countdown in nanoseconds over sleeps that signals may cut short.
        slept is the time really spent asleep. */
    method TimedWait(timeoutMs: int, pollMs: int, naps: seq<Nap>)
        returns (exited: bool, code: int, ghost slept: int)
      requires Valid() && Open() && exitCode.None? && (timeoutMs < 0 ==> WillEnd())
      requires timeoutMs <= INT_MAX && pollMs <= INT_MAX
      requires Possible(naps, pollMs)
      modifies this`child, this`reaps, this`waitWork, this`script
      ensures Follows(old(Seen()), Seen()) && waitWork.Some? == old(waitWork.Some?)
      ensures old(waitWork.None?) && exited ==> code == Decode(fate) && child.Reaped? && reaps == 1
      ensures (if exited then Some(code) else None)
              == old(TimedAnswer(fate, mortal, System(), None, timeoutMs, pollMs, script, naps))
      ensures !exited ==> Valid() && Open() && timeoutMs >= 0 && child.Running?
      ensures !exited ==> timeoutMs * 1000000 <= slept < (timeoutMs + if pollMs < 1 then 1 else pollMs) * 1000000
      ensures exited && timeoutMs >= 0 ==> slept < (timeoutMs + if pollMs < 1 then 1 else pollMs) * 1000000
    {
      slept := 0;
      if timeoutMs < 0 {
        code := WaitFor();
        return true, code, slept;
      }
      var pollNs: int64 := (if pollMs < 1 then 1 else pollMs) as int64 * 1000000;
      var remainingNs: int64 := timeoutMs as int64 * 1000000;
      ghost var answer := Countdown(fate, mortal, System(), script, timeoutMs * 1000000, Interval(pollMs), naps);
      var i := 0;
      while remainingNs > 0
        invariant 0 <= i <= |naps|
        invariant Valid() && Open() && Follows(old(Seen()), Seen()) && exitCode.None?
        invariant waitWork.Some? == old(waitWork.Some?)
        invariant remainingNs as int == timeoutMs * 1000000 - slept
        invariant 0 <= slept < timeoutMs * 1000000 + pollNs as int
        invariant answer == Countdown(fate, mortal, System(), script, remainingNs as int, Interval(pollMs), naps[i..])
        decreases |naps| - i, remainingNs
      {
        CountdownStep(fate, mortal, System(), script, remainingNs as int, Interval(pollMs), naps, i);
        var status := LookAndReap();
        if status.Some? {
          return true, status.value, slept;
        }
        var nap := if i < |naps| then naps[i] else Full;
        i := if i < |naps| then i + 1 else i;
        match nap {
          case Cut(rest) =>
            var interruptedNs: int64 := rest as int64;
            remainingNs := remainingNs - (pollNs - interruptedNs);
            slept := slept + (pollNs - interruptedNs) as int;
          case Full =>
            remainingNs := remainingNs - pollNs;
            slept := slept + pollNs as int;
        }
      }
      var status := LookAndReap();
      if status.Some? {
        return true, status.value, slept;
      }
      return false, 0, slept;
    }

    /** process::wait_timeout_ms. */
    method WaitTimeoutMs(timeoutMs: int, pollMs: int, naps: seq<Nap>) returns (r: Option<int>)
      requires Valid() && Open() && (timeoutMs < 0 ==> exitCode.Some? || WillEnd())
      requires timeoutMs <= INT_MAX && pollMs <= INT_MAX
      requires Possible(naps, pollMs)
      modifies this`child, this`reaps, this`waitWork, this`script, this`exitCode
      ensures Follows(old(Seen()), Seen())
      ensures r == old(TimedAnswer(fate, mortal, System(), exitCode, timeoutMs, pollMs, script, naps)) == exitCode
      ensures timeoutMs < 0 ==> r.Some?
      ensures old(waitWork.None?) ==> Valid() && Open() && waitWork.None?
      ensures old(waitWork.None?) && r.Some? ==> r.value == Decode(fate) && child.Reaped?
      ensures old(waitWork.None?) && r.Some? && fate.Exited? ==> r.value == fate.status
      ensures old(waitWork.None?) && r.Some? && !fate.Exited? ==> r.value == 128 + fate.signal
      ensures r.None? ==> Valid() && Open() && child.Running?
    {
      if exitCode.Some? {
        return exitCode;
      }
      var exited, code, _ := TimedWait(timeoutMs, pollMs, naps);
      if exited {
        exitCode := Some(code);
        return Some(code);
      }
      return None;
    }
  }

  /** A sleep cannot leave more than it was given. */
  ghost predicate Possible(naps: seq<Nap>, pollMs: int) {
    forall n :: n in naps && n.Cut? ==> n.rest <= Interval(pollMs)
  }

  lemma CountdownStep(fate: Fate, mortal: bool, s: Sys, script: seq<seq<Event>>, remaining: int, poll: int,
                      naps: seq<Nap>, i: nat)
    requires poll > 0 && i <= |naps|
    ensures var t := Reacts(fate, s, Burst(mortal, script));
            Countdown(fate, mortal, s, script, remaining, poll, naps[i..])
            == match t.child
               case Zombie => Some(Decode(fate))
               case Reaped => Some(0)
               case Running =>
                 if remaining <= 0 then None
                 else if i == |naps| then Countdown(fate, mortal, t, Later(script), remaining - poll, poll, naps[i..])
                 else Countdown(fate, mortal, t, Later(script), remaining - Slept(naps[i], poll), poll, naps[i + 1..])
  {
    if i < |naps| {
      assert naps[i..][1..] == naps[i + 1..];
    }
  }

  /** From the start to a wrong answer: a wait is queued, the worker reaps in time, and the
      timed wait says 0 whatever the child's code. */
  method TimedPlaceholder(fate: Fate) returns (r: Option<int>)
    ensures r == Some(0)
  {
    var p := new Process(fate, true, [[], WORKER_FIRST]);
    p.BeginWait(true);
    WorkerReapsFirst(fate, p.System());
    r := p.WaitTimeoutMs(5, 1, []);
  }

  // ----- any client -----

  datatype Op =
    | Begin(submitted: bool)
    | Poll
    | Has
    | Collect
    | Timed(timeoutMs: int, pollMs: int, naps: seq<Nap>)

  datatype Answer = Silent | Over(b: bool) | Code(code: int)

  /** A call that waits without a limit needs a child that ends. */
  ghost predicate Callable(op: Op, mortal: bool) {
    match op
    case Collect => mortal
    case Timed(timeoutMs, pollMs, naps) =>
      && (timeoutMs < 0 ==> mortal) && timeoutMs <= INT_MAX && pollMs <= INT_MAX && Possible(naps, pollMs)
    case _ => true
  }

  /** What a call must say when it leaves the process as in v; a timed wait is left out while
      a queued wait is outstanding. */
  ghost predicate Says(op: Op, a: Answer, v: View) {
    match op
    case Begin(submitted) => a.Silent? && (submitted ==> v.waiting || v.exitCode.Some?)
    case Poll => a.Over? && (a.b <==> Known(v)) && (!a.b ==> v.waiting || v.child.Running?)
    case Has => a.Over? && (a.b <==> Known(v)) && (!a.b ==> v.waiting || v.child.Running?)
    case Collect => a.Code? && v.exitCode == Some(a.code)
    case Timed(_, _, _) =>
      if a.Silent? then v.waiting || (v.exitCode.None? && v.child.Running?) else a.Code? && v.exitCode == Some(a.code)
  }

  predicate SaysOver(a: Answer) { a.Code? || a == Over(true) }

  /** True codes only, and never "still running" after "has exited" or after a code. */
  ghost predicate Truthful(fate: Fate, answers: seq<Answer>) {
    && (forall i :: 0 <= i < |answers| && answers[i].Code? ==>
          (fate.Exited? ==> answers[i].code == fate.status) && (!fate.Exited? ==> answers[i].code == 128 + fate.signal))
    && (forall i, j :: 0 <= i < j < |answers| && SaysOver(answers[i]) ==> answers[j] != Over(false))
  }

  /** An answer true to the child and to what was known before, and an end it speaks of
      is known after it. */
  ghost predicate Fits(fate: Fate, before: View, a: Answer, after: View) {
    && (a.Code? ==> a.code == Decode(fate))
    && (Known(before) ==> a != Over(false) && Known(after))
    && (SaysOver(a) ==> Known(after))
  }

  ghost predicate TruthfulUpTo(fate: Fate, answers: seq<Answer>, v: View) {
    Truthful(fate, answers) && forall i :: 0 <= i < |answers| && SaysOver(answers[i]) ==> Known(v)
  }

  lemma TruthfulMore(fate: Fate, answers: seq<Answer>, v: View, a: Answer, after: View)
    requires TruthfulUpTo(fate, answers, v) && Fits(fate, v, a, after)
    ensures TruthfulUpTo(fate, answers + [a], after)
  {
  }

  method Perform(p: Process, op: Op) returns (a: Answer)
    requires p.Valid() && p.Open() && Callable(op, p.mortal)
    modifies p
    ensures p.Valid() && p.Open() && Follows(old(p.Seen()), p.Seen())
    ensures Says(op, a, p.Seen()) && Fits(p.fate, old(p.Seen()), a, p.Seen())
  {
    a := Silent;
    match op {
      case Begin(submitted) => p.BeginWait(submitted);
      case Poll =>
        var b := p.PollWait();
        a := Over(b);
      case Has =>
        var b := p.HasExited();
        a := Over(b);
      case Collect =>
        var code := p.CollectWait();
        a := Code(code);
      case Timed(timeoutMs, pollMs, naps) =>
        if p.waitWork.None? {
          var r := p.WaitTimeoutMs(timeoutMs, pollMs, naps);
          a := if r.Some? then Code(r.value) else Silent;
        }
    }
  }

  /** Any sequence of calls, under any interleaving with the child, the worker and the
      loop: every answer is what its call says of the process at that time. */
  method Client(p: Process, ops: seq<Op>) returns (answers: seq<Answer>, ghost views: seq<View>)
    requires p.Valid() && p.Open() && forall op :: op in ops ==> Callable(op, p.mortal)
    modifies p
    ensures p.Valid() && p.Open() && p.reaps <= 1
    ensures |answers| == |ops| && |views| == |ops| + 1 && views[0] == old(p.Seen()) && views[|ops|] == p.Seen()
    ensures forall k :: 0 <= k < |ops| ==> Says(ops[k], answers[k], views[k + 1]) && Follows(views[k], views[k + 1])
    ensures Truthful(p.fate, answers)
    ensures (exists a :: a in answers && SaysOver(a)) ==> !p.child.Running?
  {
    answers, views := [], [p.Seen()];
    for k := 0 to |ops|
      invariant p.Valid() && p.Open()
      invariant |answers| == k && |views| == k + 1 && views[0] == old(p.Seen()) && views[k] == p.Seen()
      invariant forall i :: 0 <= i < k ==> Says(ops[i], answers[i], views[i + 1]) && Follows(views[i], views[i + 1])
      invariant TruthfulUpTo(p.fate, answers, p.Seen())
    {
      assert ops[k] in ops;
      var answer := Perform(p, ops[k]);
      TruthfulMore(p.fate, answers, views[k], answer, p.Seen());
      answers, views := answers + [answer], views + [p.Seen()];
    }
  }
}
