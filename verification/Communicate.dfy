// communicate(): every child writes into bounded pipes while wait and reader jobs
// share libuv's FIFO thread pool.  Interleavings are the steps of one machine.

module Communicate {

  // ----- the machine -----

  datatype Write = Out(b: char) | Err(b: char)

  /** A child with its two pipes, the text its readers have collected, and what the
      waiter stored.  A stream is captured when the parent owns its read end. */
  datatype Proc = Proc(
    outCaptured: bool, errCaptured: bool,
    script: seq<Write>, status: int, exited: bool,
    outPipe: string, errPipe: string,
    outText: string, errText: string, code: int)

  datatype Kind = Wait | ReadOut | ReadErr

  datatype Job = Job(proc: nat, kind: Kind)

  /** The queue holds the jobs of the processes in `order`; the first `started` of them
      have been taken by a thread, those in `running` are still on one, and the
      completion callbacks of those in `done` have run. */
  datatype State = State(procs: seq<Proc>, order: seq<nat>, started: nat, running: set<nat>, done: set<nat>)

  datatype Config = Config(threads: nat, capacity: nat)

  datatype Step =
    | Begin(p: nat)
    | Emit(p: nat)
    | Exit(p: nat)
    | Start
    | Read(j: nat, n: nat)
    | Finish(j: nat)
    | Callback(j: nat)

  const BUFFER_SIZE := 1024

  /** The order in which begin_communicate submits. */
  function JobsOf(procs: seq<Proc>, p: nat): (jobs: seq<Job>)
    requires p < |procs|
    ensures 1 <= |jobs| <= 3
  {
    [Job(p, Wait)]
    + (if procs[p].outCaptured then [Job(p, ReadOut)] else [])
    + (if procs[p].errCaptured then [Job(p, ReadErr)] else [])
  }

  predicate InRange(procs: seq<Proc>, order: seq<nat>) {
    forall i :: 0 <= i < |order| ==> order[i] < |procs|
  }

  function Queue(procs: seq<Proc>, order: seq<nat>): seq<Job>
    requires InRange(procs, order)
  {
    if order == [] then [] else
    Queue(procs, order[..|order| - 1]) + JobsOf(procs, order[|order| - 1])
  }

  predicate WellFormed(s: State) {
    && InRange(s.procs, s.order)
    && s.started <= |Queue(s.procs, s.order)|
    && (forall j :: j in s.running ==> j < s.started)
  }

  function Jobs(s: State): seq<Job>
    requires WellFormed(s)
  {
    Queue(s.procs, s.order)
  }

  function Pipe(x: Proc, k: Kind): string {
    match k
    case Wait => ""
    case ReadOut => x.outPipe
    case ReadErr => x.errPipe
  }

  /** Whether the next thing in the script can be written. */
  predicate Room(c: Config, x: Proc)
    requires x.script != []
  {
    match x.script[0]
    case Out(_) => x.outCaptured ==> |x.outPipe| < c.capacity
    case Err(_) => x.errCaptured ==> |x.errPipe| < c.capacity
  }

  predicate Enabled(c: Config, s: State, step: Step)
    requires WellFormed(s)
  {
    match step
    case Begin(p) => p < |s.procs| && p !in s.order
    case Emit(p) => p < |s.procs| && !s.procs[p].exited && s.procs[p].script != [] && Room(c, s.procs[p])
    case Exit(p) => p < |s.procs| && !s.procs[p].exited && s.procs[p].script == []
    case Start => s.started < |Jobs(s)| && |s.running| < c.threads
    case Read(j, n) =>
      && j in s.running
      && var job := Jobs(s)[j];
      && job.proc < |s.procs|
      && 1 <= n <= BUFFER_SIZE && n <= |Pipe(s.procs[job.proc], job.kind)|
    case Finish(j) =>
      && j in s.running
      && var job := Jobs(s)[j];
      && job.proc < |s.procs|
      && s.procs[job.proc].exited && Pipe(s.procs[job.proc], job.kind) == ""
    case Callback(j) => j < s.started && j !in s.running && j !in s.done
  }

  function Emitted(x: Proc): Proc
    requires x.script != []
  {
    var y := x.(script := x.script[1..]);
    match x.script[0]
    case Out(b) => if x.outCaptured then y.(outPipe := x.outPipe + [b]) else y
    case Err(b) => if x.errCaptured then y.(errPipe := x.errPipe + [b]) else y
  }

  function Drained(x: Proc, k: Kind, n: nat): Proc
    requires n <= |Pipe(x, k)|
  {
    match k
    case Wait => x
    case ReadOut => x.(outPipe := x.outPipe[n..], outText := x.outText + x.outPipe[..n])
    case ReadErr => x.(errPipe := x.errPipe[n..], errText := x.errText + x.errPipe[..n])
  }

  function Apply(c: Config, s: State, step: Step): State
    requires WellFormed(s) && Enabled(c, s, step)
  {
    match step
    case Begin(p) => s.(order := s.order + [p])
    case Emit(p) => s.(procs := s.procs[p := Emitted(s.procs[p])])
    case Exit(p) => s.(procs := s.procs[p := s.procs[p].(exited := true)])
    case Start => s.(started := s.started + 1, running := s.running + {s.started})
    case Read(j, n) =>
      var job := Jobs(s)[j];
      s.(procs := s.procs[job.proc := Drained(s.procs[job.proc], job.kind, n)])
    case Finish(j) =>
      var job := Jobs(s)[j];
      var x := s.procs[job.proc];
      s.(running := s.running - {j},
         procs := s.procs[job.proc := if job.kind.Wait? then x.(code := x.status) else x])
    case Callback(j) => s.(done := s.done + {j})
  }

  // ----- lemmas about the queue -----

  ghost predicate SameShape(procs: seq<Proc>, others: seq<Proc>) {
    && |procs| == |others|
    && forall p :: 0 <= p < |procs| ==>
         procs[p].outCaptured == others[p].outCaptured && procs[p].errCaptured == others[p].errCaptured
  }

  lemma {:induction false} QueueShape(procs: seq<Proc>, others: seq<Proc>, order: seq<nat>)
    requires SameShape(procs, others)
    requires InRange(procs, order)
    ensures Queue(procs, order) == Queue(others, order)
  {
    if order != [] {
      QueueShape(procs, others, order[..|order| - 1]);
    }
  }

  /** The jobs of one process stand together in the queue. */
  lemma {:induction false} BlockOf(procs: seq<Proc>, order: seq<nat>, j: nat) returns (a: nat, p: nat)
    requires InRange(procs, order)
    requires j < |Queue(procs, order)|
    ensures p in order
    ensures a <= j < a + |JobsOf(procs, p)| <= |Queue(procs, order)|
    ensures Queue(procs, order)[a..a + |JobsOf(procs, p)|] == JobsOf(procs, p)
  {
    var init, last := order[..|order| - 1], order[|order| - 1];
    if j < |Queue(procs, init)| {
      a, p := BlockOf(procs, init, j);
    } else {
      a, p := |Queue(procs, init)|, last;
    }
  }

  // ----- the invariant -----

  /** What a child writes to a captured stream, in order. */
  function OutOf(script: seq<Write>): string {
    if script == [] then "" else (if script[0].Out? then [script[0].b] else "") + OutOf(script[1..])
  }

  function ErrOf(script: seq<Write>): string {
    if script == [] then "" else (if script[0].Err? then [script[0].b] else "") + ErrOf(script[1..])
  }

  /** Nothing a child wrote is lost, doubled or reordered on its way to the reader. */
  ghost predicate Conserved(x: Proc, origin: Proc) {
    && x.outCaptured == origin.outCaptured && x.errCaptured == origin.errCaptured
    && x.status == origin.status
    && (x.exited ==> x.script == [])
    && (if x.outCaptured then x.outText + x.outPipe + OutOf(x.script) == OutOf(origin.script)
        else x.outText == "" == x.outPipe)
    && (if x.errCaptured then x.errText + x.errPipe + ErrOf(x.script) == ErrOf(origin.script)
        else x.errText == "" == x.errPipe)
  }

  /** A finished job has seen its process through to the end. */
  ghost predicate Settled(x: Proc, k: Kind) {
    x.exited && Pipe(x, k) == "" && (k.Wait? ==> x.code == x.status)
  }

  ghost predicate Inv(c: Config, origin: seq<Proc>, s: State) {
    && WellFormed(s)
    && |s.procs| == |origin|
    && (forall p :: 0 <= p < |origin| ==> Conserved(s.procs[p], origin[p]))
    && (forall i, j :: 0 <= i < j < |s.order| ==> s.order[i] != s.order[j])
    && |s.running| <= c.threads
    && (forall j :: j in s.done ==> j < s.started && j !in s.running)
    && (forall j :: 0 <= j < s.started && j !in s.running ==>
          Jobs(s)[j].proc < |s.procs| && Settled(s.procs[Jobs(s)[j].proc], Jobs(s)[j].kind))
  }

  /** Children just started, nothing submitted. */
  ghost predicate Initial(s: State) {
    && s.order == [] && s.started == 0 && s.running == {} && s.done == {}
    && forall x :: x in s.procs ==>
         !x.exited && x.outPipe == x.errPipe == x.outText == x.errText == ""
  }

  lemma InitialInv(c: Config, s: State)
    requires Initial(s)
    ensures Inv(c, s.procs, s)
  {
    forall p | 0 <= p < |s.procs| ensures Conserved(s.procs[p], s.procs[p]) {
      assert s.procs[p] in s.procs;
      assert "" + "" + OutOf(s.procs[p].script) == OutOf(s.procs[p].script);
      assert "" + "" + ErrOf(s.procs[p].script) == ErrOf(s.procs[p].script);
    }
  }

  lemma EmittedConserved(c: Config, x: Proc, origin: Proc)
    requires x.script != [] && !x.exited && Conserved(x, origin)
    ensures Conserved(Emitted(x), origin)
  {
    var y := Emitted(x);
    var b := x.script[0].b;
    if x.script[0].Out? {
      assert x.outText + x.outPipe + ([b] + OutOf(x.script[1..])) == x.outText + (x.outPipe + [b]) + OutOf(x.script[1..]);
      assert ErrOf(x.script) == ErrOf(x.script[1..]);
    } else {
      assert x.errText + x.errPipe + ([b] + ErrOf(x.script[1..])) == x.errText + (x.errPipe + [b]) + ErrOf(x.script[1..]);
      assert OutOf(x.script) == OutOf(x.script[1..]);
    }
  }

  lemma DrainedConserved(x: Proc, k: Kind, n: nat, origin: Proc)
    requires 1 <= n <= |Pipe(x, k)| && Conserved(x, origin)
    ensures Conserved(Drained(x, k, n), origin)
  {
    var pipe := Pipe(x, k);
    assert pipe[..n] + pipe[n..] == pipe;
    match k
    case ReadOut =>
      assert (x.outText + pipe[..n]) + pipe[n..] == x.outText + x.outPipe;
    case ReadErr =>
      assert (x.errText + pipe[..n]) + pipe[n..] == x.errText + x.errPipe;
  }

  /** A step that only changes one process keeps the invariant when that process
      stays conserved and its finished jobs stay settled. */
  lemma ChangeProc(c: Config, origin: seq<Proc>, s: State, p: nat, y: Proc)
    requires Inv(c, origin, s) && p < |s.procs|
    requires Conserved(y, origin[p])
    requires forall k :: Settled(s.procs[p], k) ==> Settled(y, k)
    ensures Inv(c, origin, s.(procs := s.procs[p := y]))
    ensures Queue(s.procs[p := y], s.order) == Jobs(s)
  {
    var t := s.(procs := s.procs[p := y]);
    assert SameShape(s.procs, t.procs);
    QueueShape(s.procs, t.procs, s.order);
  }

  lemma BeginInv(c: Config, origin: seq<Proc>, s: State, p: nat)
    requires Inv(c, origin, s) && Enabled(c, s, Begin(p))
    ensures Inv(c, origin, Apply(c, s, Begin(p)))
    ensures Jobs(Apply(c, s, Begin(p))) == Jobs(s) + JobsOf(s.procs, p)
  {
    var t := Apply(c, s, Begin(p));
    assert t.order[..|t.order| - 1] == s.order;
    assert Queue(t.procs, t.order) == Jobs(s) + JobsOf(s.procs, p);
  }

  lemma FinishInv(c: Config, origin: seq<Proc>, s: State, j: nat)
    requires Inv(c, origin, s) && Enabled(c, s, Finish(j))
    ensures Inv(c, origin, Apply(c, s, Finish(j)))
  {
    var job := Jobs(s)[j];
    var x := s.procs[job.proc];
    var y := if job.kind.Wait? then x.(code := x.status) else x;
    ChangeProc(c, origin, s, job.proc, y);
    var t := Apply(c, s, Finish(j));
    assert Settled(y, job.kind);
    Shrinks(s.running, j);
  }

  lemma Shrinks(a: set<nat>, j: nat)
    ensures |a - {j}| <= |a|
    ensures j !in a ==> |a + {j}| == |a| + 1
    ensures j in a ==> |a - {j}| == |a| - 1
  {
  }

  lemma ReadInv(c: Config, origin: seq<Proc>, s: State, j: nat, n: nat)
    requires Inv(c, origin, s) && Enabled(c, s, Read(j, n))
    ensures Inv(c, origin, Apply(c, s, Read(j, n)))
  {
    var job := Jobs(s)[j];
    DrainedConserved(s.procs[job.proc], job.kind, n, origin[job.proc]);
    ChangeProc(c, origin, s, job.proc, Drained(s.procs[job.proc], job.kind, n));
  }

  lemma EmitInv(c: Config, origin: seq<Proc>, s: State, p: nat)
    requires Inv(c, origin, s) && Enabled(c, s, Emit(p))
    ensures Inv(c, origin, Apply(c, s, Emit(p)))
  {
    EmittedConserved(c, s.procs[p], origin[p]);
    ChangeProc(c, origin, s, p, Emitted(s.procs[p]));
  }

  lemma ExitInv(c: Config, origin: seq<Proc>, s: State, p: nat)
    requires Inv(c, origin, s) && Enabled(c, s, Exit(p))
    ensures Inv(c, origin, Apply(c, s, Exit(p)))
  {
    ChangeProc(c, origin, s, p, s.procs[p].(exited := true));
  }

  lemma StartInv(c: Config, origin: seq<Proc>, s: State)
    requires Inv(c, origin, s) && Enabled(c, s, Start)
    ensures Inv(c, origin, Apply(c, s, Start))
  {
    Shrinks(s.running, s.started);
  }

  lemma StepInv(c: Config, origin: seq<Proc>, s: State, step: Step)
    requires Inv(c, origin, s) && Enabled(c, s, step)
    ensures Inv(c, origin, Apply(c, s, step))
  {
    match step
    case Begin(p) => BeginInv(c, origin, s, p);
    case Emit(p) => EmitInv(c, origin, s, p);
    case Exit(p) => ExitInv(c, origin, s, p);
    case Start => StartInv(c, origin, s);
    case Read(j, n) => ReadInv(c, origin, s, j, n);
    case Finish(j) => FinishInv(c, origin, s, j);
    case Callback(j) =>
  }

  // ----- progress -----

  ghost predicate Pending(s: State)
    requires WellFormed(s)
  {
    exists j :: 0 <= j < |Jobs(s)| && j !in s.done
  }

  /** Something other than a further begin_communicate can happen. */
  ghost predicate CanMove(c: Config, s: State)
    requires WellFormed(s)
  {
    exists step: Step :: !step.Begin? && Enabled(c, s, step)
  }

  predicate Unfinished(s: State, j: nat) { j >= s.started || j in s.running }

  lemma {:induction false} FirstUnfinished(s: State, n: nat) returns (j: nat)
    requires Unfinished(s, n)
    ensures j <= n && Unfinished(s, j)
    ensures forall i: nat :: i < j ==> !Unfinished(s, i)
    decreases n
  {
    if i: nat :| i < n && Unfinished(s, i) {
      j := FirstUnfinished(s, i);
    } else {
      j := n;
    }
  }

  lemma SmallSet(a: set<nat>, x: nat)
    requires forall j :: j in a ==> j == x || j == x + 1
    ensures |a| <= 2
  {
    assert a <= {x, x + 1};
    Subset(a, {x, x + 1});
  }

  lemma {:induction false} Subset(a: set<nat>, b: set<nat>)
    requires a <= b
    ensures |a| <= |b|
  {
    if x :| x in a {
      Subset(a - {x}, b - {x});
    }
  }

  /** Once all jobs of a process are on threads, the process or one of its jobs moves. */
  lemma BlockMoves(c: Config, origin: seq<Proc>, s: State, a: nat, p: nat, j: nat)
    requires c.capacity >= 1 && Inv(c, origin, s)
    requires p < |s.procs|
    requires a <= j < a + |JobsOf(s.procs, p)| <= s.started
    requires Jobs(s)[a..a + |JobsOf(s.procs, p)|] == JobsOf(s.procs, p)
    requires j in s.running
    ensures CanMove(c, s)
  {
    var x := s.procs[p];
    var jobs := JobsOf(s.procs, p);
    assert forall i :: 0 <= i < |jobs| ==> Jobs(s)[a + i] == jobs[i];
    if x.exited {
      assert Jobs(s)[j] == jobs[j - a];
      var pipe := Pipe(x, Jobs(s)[j].kind);
      if pipe == "" {
        assert Enabled(c, s, Finish(j));
      } else {
        assert Enabled(c, s, Read(j, 1));
      }
    } else if x.script == [] {
      assert Enabled(c, s, Exit(p));
    } else if Room(c, x) {
      assert Enabled(c, s, Emit(p));
    } else {
      var r := if x.script[0].Out? then a + 1 else a + |jobs| - 1;
      var kind := if x.script[0].Out? then ReadOut else ReadErr;
      assert jobs[r - a] == Job(p, kind);
      assert Jobs(s)[r] == Job(p, kind);
      assert r in s.running;
      assert Enabled(c, s, Read(r, 1));
    }
  }

  /** Nothing older than the jobs of process p, at a and behind it, is unfinished, and
      job j of them is. */
  ghost predicate Oldest(s: State, a: nat, p: nat, j: nat)
    requires WellFormed(s)
  {
    && p in s.order
    && a <= j < a + |JobsOf(s.procs, p)| <= |Jobs(s)|
    && Jobs(s)[a..a + |JobsOf(s.procs, p)|] == JobsOf(s.procs, p)
    && Unfinished(s, j) && forall i: nat :: i < j ==> !Unfinished(s, i)
  }

  /** With three threads the jobs of the oldest unfinished process have all been taken
      by a thread, or a thread is free for the next of them. */
  lemma OldestRuns(c: Config, origin: seq<Proc>, s: State, n: nat) returns (a: nat, p: nat, j: nat)
    requires c.threads >= 3 && Inv(c, origin, s)
    requires n < |Jobs(s)| && Unfinished(s, n)
    ensures Oldest(s, a, p, j)
    ensures || (a + |JobsOf(s.procs, p)| <= s.started && j in s.running)
            || (a <= s.started < a + |JobsOf(s.procs, p)| && |s.running| < c.threads && Enabled(c, s, Start))
  {
    j := FirstUnfinished(s, n);
    a, p := BlockOf(s.procs, s.order, j);
    assert forall i :: i in s.running ==> Unfinished(s, i);
    assert Unfinished(s, s.started);
    if s.started < a + |JobsOf(s.procs, p)| {
      SmallSet(s.running, a);
    }
  }

  /** While a job is unfinished or its callback has not run, something can happen. */
  lemma Progress(c: Config, origin: seq<Proc>, s: State)
    requires c.threads >= 3 && c.capacity >= 1
    requires Inv(c, origin, s) && Pending(s)
    ensures CanMove(c, s)
  {
    var n :| 0 <= n < |Jobs(s)| && n !in s.done;
    if n < s.started && n !in s.running {
      assert Enabled(c, s, Callback(n));
    } else {
      var a, p, j := OldestRuns(c, origin, s, n);
      if a + |JobsOf(s.procs, p)| <= s.started {
        BlockMoves(c, origin, s, a, p, j);
      } else {
        assert Enabled(c, s, Start);
      }
    }
  }

  // ----- every run ends -----

  function Weight(x: Proc): nat {
    2 * |x.script| + |x.outPipe| + |x.errPipe| + (if x.exited then 0 else 1)
  }

  function Load(procs: seq<Proc>): nat {
    if procs == [] then 0 else Load(procs[..|procs| - 1]) + Weight(procs[|procs| - 1])
  }

  lemma {:induction false} LoadChange(procs: seq<Proc>, p: nat, y: Proc)
    requires p < |procs|
    ensures Load(procs[p := y]) == Load(procs) - Weight(procs[p]) + Weight(y)
  {
    var n := |procs| - 1;
    if p < n {
      assert procs[p := y][..n] == procs[..n][p := y];
      LoadChange(procs[..n], p, y);
    } else {
      assert procs[p := y][..n] == procs[..n];
    }
  }

  /** Three moves per job, nine to queue those of one process, and the children's work. */
  function Measure(s: State): int
    requires WellFormed(s)
  {
    Load(s.procs)
    + 10 * (|s.procs| - |s.order|)
    + 2 * (|Jobs(s)| - s.started) + |s.running|
    + |Jobs(s)| - |s.done|
  }

  lemma {:induction false} Bounded(a: set<nat>, n: nat)
    requires forall j :: j in a ==> j < n
    ensures |a| <= n
  {
    if n > 0 {
      Bounded(a - {n - 1}, n - 1);
      Shrinks(a, n - 1);
    } else {
      assert a == {};
    }
  }

  lemma {:induction false} DistinctBounded(order: seq<nat>, a: set<nat>)
    requires forall i :: 0 <= i < |order| ==> order[i] in a
    requires forall i, j :: 0 <= i < j < |order| ==> order[i] != order[j]
    ensures |order| <= |a|
  {
    if order != [] {
      var last := order[|order| - 1];
      DistinctBounded(order[..|order| - 1], a - {last});
      Shrinks(a, last);
    }
  }

  function UpTo(n: nat): (a: set<nat>)
    ensures forall i: nat :: i in a <==> i < n
    ensures |a| == n
  {
    if n == 0 then {} else UpTo(n - 1) + {n - 1}
  }

  lemma MeasureNonNegative(c: Config, origin: seq<Proc>, s: State)
    requires Inv(c, origin, s)
    ensures Measure(s) >= 0
  {
    DistinctBounded(s.order, UpTo(|s.procs|));
    Bounded(s.done, s.started);
  }

  lemma ProcMeasure(c: Config, origin: seq<Proc>, s: State, p: nat, y: Proc)
    requires Inv(c, origin, s) && p < |s.procs|
    requires Conserved(y, origin[p])
    requires forall k :: Settled(s.procs[p], k) ==> Settled(y, k)
    ensures var t := s.(procs := s.procs[p := y]);
            WellFormed(t) && Measure(t) == Measure(s) - Weight(s.procs[p]) + Weight(y)
  {
    ChangeProc(c, origin, s, p, y);
    LoadChange(s.procs, p, y);
  }

  lemma DrainedLighter(x: Proc, k: Kind, n: nat)
    requires 1 <= n <= |Pipe(x, k)|
    ensures Weight(Drained(x, k, n)) < Weight(x)
    ensures forall kk :: Settled(x, kk) ==> Settled(Drained(x, k, n), kk)
  {
  }

  lemma ReadDecreases(c: Config, origin: seq<Proc>, s: State, j: nat, n: nat)
    requires Inv(c, origin, s) && Enabled(c, s, Read(j, n))
    ensures var t := Apply(c, s, Read(j, n));
            WellFormed(t) && Measure(t) < Measure(s)
  {
    var job := Jobs(s)[j];
    var x := s.procs[job.proc];
    var y := Drained(x, job.kind, n);
    DrainedConserved(x, job.kind, n, origin[job.proc]);
    DrainedLighter(x, job.kind, n);
    ProcMeasure(c, origin, s, job.proc, y);
    assert Apply(c, s, Read(j, n)) == s.(procs := s.procs[job.proc := y]);
  }

  lemma FinishDecreases(c: Config, origin: seq<Proc>, s: State, j: nat)
    requires Inv(c, origin, s) && Enabled(c, s, Finish(j))
    ensures var t := Apply(c, s, Finish(j));
            WellFormed(t) && Measure(t) < Measure(s)
  {
    var job := Jobs(s)[j];
    var x := s.procs[job.proc];
    var y := if job.kind.Wait? then x.(code := x.status) else x;
    ProcMeasure(c, origin, s, job.proc, y);
    ChangeProc(c, origin, s, job.proc, y);
    Shrinks(s.running, j);
  }

  /** Every step, whichever it is, makes the measure smaller. */
  lemma StepDecreases(c: Config, origin: seq<Proc>, s: State, step: Step)
    requires Inv(c, origin, s) && Enabled(c, s, step)
    ensures WellFormed(Apply(c, s, step)) && Measure(Apply(c, s, step)) < Measure(s)
  {
    match step
    case Begin(p) => BeginInv(c, origin, s, p);
    case Emit(p) =>
      EmittedConserved(c, s.procs[p], origin[p]);
      ProcMeasure(c, origin, s, p, Emitted(s.procs[p]));
    case Exit(p) =>
      ProcMeasure(c, origin, s, p, s.procs[p].(exited := true));
    case Start => Shrinks(s.running, s.started);
    case Read(j, n) => ReadDecreases(c, origin, s, j, n);
    case Finish(j) => FinishDecreases(c, origin, s, j);
    case Callback(j) => Shrinks(s.done, j);
  }

  // ----- whole runs -----

  ghost predicate Run(c: Config, s: State, steps: seq<Step>, t: State)
    decreases |steps|
  {
    if steps == [] then s == t else
    WellFormed(s) && Enabled(c, s, steps[0]) && Run(c, Apply(c, s, steps[0]), steps[1..], t)
  }

  /** A run keeps the invariant and has no more steps than the measure allows. */
  lemma {:induction false} RunBounded(c: Config, origin: seq<Proc>, s: State, steps: seq<Step>, t: State)
    requires Inv(c, origin, s) && Run(c, s, steps, t)
    ensures Inv(c, origin, t)
    ensures |steps| + Measure(t) <= Measure(s)
    decreases |steps|
  {
    if steps != [] {
      StepInv(c, origin, s, steps[0]);
      StepDecreases(c, origin, s, steps[0]);
      RunBounded(c, origin, Apply(c, s, steps[0]), steps[1..], t);
    }
  }

  /** Waiting for something that cannot happen any more. */
  ghost predicate Stuck(c: Config, s: State)
    requires WellFormed(s)
  {
    Pending(s) && !CanMove(c, s)
  }

  ghost predicate DeadlockFree(c: Config) {
    forall s, steps, t :: Initial(s) && Run(c, s, steps, t) && WellFormed(t) ==> !Stuck(c, t)
  }

  lemma ThreeThreadsSuffice(c: Config)
    requires c.capacity >= 1 && c.threads >= 3
    ensures DeadlockFree(c)
  {
    forall s, steps, t | Initial(s) && Run(c, s, steps, t) && WellFormed(t)
      ensures !Stuck(c, t)
    {
      InitialInv(c, s);
      RunBounded(c, s.procs, s, steps, t);
      if Pending(t) {
        Progress(c, s.procs, t);
      }
    }
  }

  // ----- two threads do not suffice -----

  function Repeat(n: nat): seq<Write> {
    if n == 0 then [] else [Err('x')] + Repeat(n - 1)
  }

  /** A child that has written n of capacity + 1 characters to stderr. */
  function Writer(c: Config, n: nat): Proc
    requires n <= c.capacity + 1
  {
    Proc(true, true, Repeat(c.capacity + 1 - n), 0, false, "", seq(n, _ => 'x'), "", "", 0)
  }

  function Jammed(c: Config, n: nat): State
    requires n <= c.capacity + 1 && c.threads <= 2
  {
    State([Writer(c, n)], [0], c.threads, UpTo(c.threads), {})
  }

  lemma {:induction false} RunExtend(c: Config, s: State, steps: seq<Step>, t: State, step: Step)
    requires Run(c, s, steps, t) && WellFormed(t) && Enabled(c, t, step)
    ensures Run(c, s, steps + [step], Apply(c, t, step))
    decreases |steps|
  {
    if steps == [] {
      assert ([] + [step])[1..] == [];
    } else {
      assert (steps + [step])[1..] == steps[1..] + [step];
      RunExtend(c, Apply(c, s, steps[0]), steps[1..], t, step);
    }
  }

  lemma JammedQueue(procs: seq<Proc>, order: seq<nat>)
    requires |procs| == 1 && procs[0].outCaptured && procs[0].errCaptured && order == [0]
    ensures Queue(procs, order) == [Job(0, Wait), Job(0, ReadOut), Job(0, ReadErr)]
  {
    assert Queue(procs, order[..0]) == [];
  }

  /** The child begun and the first threads at work on it. */
  lemma {:induction false} ReachThreads(c: Config, n: nat) returns (steps: seq<Step>)
    requires n <= c.threads <= 2
    ensures var s := State([Writer(c, 0)], [], 0, {}, {});
            Run(c, s, steps, State([Writer(c, 0)], [0], n, UpTo(n), {}))
  {
    var s := State([Writer(c, 0)], [], 0, {}, {});
    JammedQueue(s.procs, [0]);
    if n == 0 {
      steps := [Begin(0)];
      assert [] + [0 as nat] == [0];
      RunExtend(c, s, [], s, Begin(0));
    } else {
      steps := ReachThreads(c, n - 1);
      var t := State([Writer(c, 0)], [0], n - 1, UpTo(n - 1), {});
      RunExtend(c, s, steps, t, Start);
      steps := steps + [Start];
    }
  }

  lemma {:induction false} ReachJam(c: Config, n: nat) returns (steps: seq<Step>)
    requires c.threads <= 2 && n <= c.capacity
    ensures Run(c, State([Writer(c, 0)], [], 0, {}, {}), steps, Jammed(c, n))
  {
    if n == 0 {
      steps := ReachThreads(c, c.threads);
    } else {
      steps := ReachJam(c, n - 1);
      var t := Jammed(c, n - 1);
      JammedQueue(t.procs, [0]);
      var x := t.procs[0];
      assert x.script[1..] == Repeat(c.capacity + 1 - n);
      assert x.errPipe + ['x'] == Writer(c, n).errPipe;
      assert t.procs[0 := Emitted(x)] == [Writer(c, n)];
      RunExtend(c, State([Writer(c, 0)], [], 0, {}, {}), steps, t, Emit(0));
      steps := steps + [Emit(0)];
    }
  }

  /** The waiter and the stdout reader hold both threads, the child waits for room on
      stderr, and its reader waits for a thread. */
  lemma JamIsStuck(c: Config)
    requires c.threads <= 2
    ensures WellFormed(Jammed(c, c.capacity)) && Stuck(c, Jammed(c, c.capacity))
  {
    var s := Jammed(c, c.capacity);
    JammedQueue(s.procs, [0]);
    assert 2 !in s.done;
    forall step: Step | !step.Begin? ensures !Enabled(c, s, step) {
      assert s.procs[0].script[0] == Err('x');
    }
  }

  /** Three pool threads are exactly what communicate() needs, for every pipe size. */
  lemma DeadlockFreeIff(c: Config)
    requires c.capacity >= 1
    ensures DeadlockFree(c) <==> c.threads >= 3
  {
    if c.threads >= 3 {
      ThreeThreadsSuffice(c);
    } else {
      var steps := ReachJam(c, c.capacity);
      JamIsStuck(c);
      assert Initial(State([Writer(c, 0)], [], 0, {}, {}));
    }
  }

  // ----- what communicate() returns -----

  /** What communicate() hands over for a process that started as origin. */
  ghost predicate Delivered(x: Proc, origin: Proc) {
    && x.code == origin.status
    && x.outText == (if origin.outCaptured then OutOf(origin.script) else "")
    && x.errText == (if origin.errCaptured then ErrOf(origin.script) else "")
  }

  lemma SettledDelivered(c: Config, origin: seq<Proc>, t: State, k: nat)
    requires Inv(c, origin, t) && !Pending(t) && k < |t.order|
    ensures Delivered(t.procs[t.order[k]], origin[t.order[k]])
  {
    var x := t.procs[t.order[k]];
    var jobs := JobsOf(t.procs, t.order[k]);
    assert jobs[0].kind == Wait;
    JobSettled(c, origin, t, k, 0);
    if x.outCaptured {
      assert jobs[1].kind == ReadOut;
      JobSettled(c, origin, t, k, 1);
    }
    if x.errCaptured {
      assert jobs[|jobs| - 1].kind == ReadErr;
      JobSettled(c, origin, t, k, |jobs| - 1);
    }
    SettledTexts(x, origin[t.order[k]]);
  }

  /** When nothing is pending any more, every process that was begun has handed over
      all it wrote to its captured streams, and its real exit status. */
  lemma CompleteResults(c: Config, s: State, steps: seq<Step>, t: State)
    requires Initial(s) && Run(c, s, steps, t) && WellFormed(t) && !Pending(t)
    ensures |s.procs| == |t.procs|
    ensures forall p :: p in t.order ==> Delivered(t.procs[p], s.procs[p])
  {
    InitialInv(c, s);
    RunBounded(c, s.procs, s, steps, t);
    forall p | p in t.order ensures Delivered(t.procs[p], s.procs[p]) {
      var k :| 0 <= k < |t.order| && t.order[k] == p;
      SettledDelivered(c, s.procs, t, k);
    }
  }

  lemma SettledTexts(x: Proc, origin: Proc)
    requires Conserved(x, origin) && x.exited
    requires (x.outCaptured ==> x.outPipe == "") && (x.errCaptured ==> x.errPipe == "")
    ensures x.outText == (if origin.outCaptured then OutOf(origin.script) else "")
    ensures x.errText == (if origin.errCaptured then ErrOf(origin.script) else "")
  {
    assert x.outText + "" + "" == x.outText;
    assert x.errText + "" + "" == x.errText;
  }

  lemma JobSettled(c: Config, origin: seq<Proc>, t: State, k: nat, i: nat)
    requires Inv(c, origin, t) && !Pending(t) && k < |t.order|
    requires i < |JobsOf(t.procs, t.order[k])|
    ensures Settled(t.procs[t.order[k]], JobsOf(t.procs, t.order[k])[i].kind)
  {
    var jobs := JobsOf(t.procs, t.order[k]);
    var a := BlockFrom(t.procs, t.order, k);
    assert Jobs(t)[a..a + |jobs|][i] == jobs[i];
    assert a + i in t.done;
  }

  lemma {:induction false} BlockFrom(procs: seq<Proc>, order: seq<nat>, k: nat) returns (a: nat)
    requires InRange(procs, order) && k < |order|
    ensures a + |JobsOf(procs, order[k])| <= |Queue(procs, order)|
    ensures Queue(procs, order)[a..a + |JobsOf(procs, order[k])|] == JobsOf(procs, order[k])
  {
    var init := order[..|order| - 1];
    if k < |init| {
      a := BlockFrom(procs, init, k);
    } else {
      a := |Queue(procs, init)|;
    }
  }

  /** Any run can be carried on until everything begun is complete: it ends within the
      measure, until then there is always a next step, and then all results are there. */
  lemma RunsComplete(c: Config, s: State, steps: seq<Step>, t: State)
    requires c.capacity >= 1 && c.threads >= 3
    requires Initial(s) && Run(c, s, steps, t)
    ensures WellFormed(s) && WellFormed(t) && |s.procs| == |t.procs|
    ensures |steps| <= Measure(s)
    ensures Pending(t) ==> CanMove(c, t)
    ensures !Pending(t) ==> forall p :: p in t.order ==> Delivered(t.procs[p], s.procs[p])
  {
    InitialInv(c, s);
    RunBounded(c, s.procs, s, steps, t);
    MeasureNonNegative(c, s.procs, t);
    if Pending(t) {
      Progress(c, s.procs, t);
    } else {
      CompleteResults(c, s, steps, t);
    }
  }

  /** A run that cannot go on at all has delivered everything, for every child. */
  lemma MaximalRunDelivers(c: Config, s: State, steps: seq<Step>, t: State)
    requires c.capacity >= 1 && c.threads >= 3
    requires Initial(s) && Run(c, s, steps, t)
    requires WellFormed(t) && forall step :: !Enabled(c, t, step)
    ensures |s.procs| == |t.procs|
    ensures forall p :: 0 <= p < |s.procs| ==> Delivered(t.procs[p], s.procs[p])
  {
    RunsComplete(c, s, steps, t);
    forall p | 0 <= p < |s.procs| ensures p in t.order {
      assert !Enabled(c, t, Begin(p));
    }
  }
}
