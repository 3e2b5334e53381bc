// await_work on one queued job, whatever it does: the cancel that wins only before a worker
// has the job, and the loop that waits for the callback, under every endless schedule.

module AwaitWork {

  /** The life of one queued job: taken by a worker, back from its call, called back; or
      cancelled while still queued and then called back. */
  datatype Phase = Queued | Blocked | Returned | Done | Cancelled | Dropped

  /** What happens on its own: what the job waits for ends (the child, or the last writer of
      a stream), a worker takes the job, the worker's call returns if it can. */
  datatype Event = SourceEnds | WorkerTakes | WorkerWakes

  datatype Job = Job(running: bool, phase: Phase)

  function Step(j: Job, e: Event): Job {
    match e
    case SourceEnds => j.(running := false)
    case WorkerTakes => if j.phase.Queued? then j.(phase := Blocked) else j
    case WorkerWakes => if j.phase.Blocked? && !j.running then j.(phase := Returned) else j
  }

  function Steps(j: Job, burst: seq<Event>): Job
    decreases |burst|
  {
    if burst == [] then j else Steps(Step(j, burst[0]), burst[1..])
  }

  /** The completion callback. */
  function CalledBack(j: Job): Job {
    match j.phase
    case Returned => j.(phase := Done)
    case Cancelled => j.(phase := Dropped)
    case _ => j
  }

  /** uv_cancel: only a request no worker has taken. */
  function Withdrawn(j: Job): Job {
    if j.phase.Queued? then j.(phase := Cancelled) else j
  }

  /** What happens between the turns of a loop, for ever. */
  type Schedule = nat -> seq<Event>

  /** The pool keeps serving. */
  ghost predicate Serves(sched: Schedule) {
    forall n: nat :: ServesFrom(sched, n)
  }

  ghost predicate ServesFrom(sched: Schedule, n: nat) {
    exists m: nat :: m >= n && WorkerWakes in sched(m)
  }

  ghost predicate SourceEndsIn(sched: Schedule) {
    exists n: nat :: SourceEnds in sched(n)
  }

  /** await_work after n turns. */
  function AfterTurns(j: Job, sched: Schedule, n: nat): Job {
    if n == 0 then Withdrawn(j) else CalledBack(Steps(AfterTurns(j, sched, n - 1), sched(n - 1)))
  }

  predicate Released(j: Job) { j.phase.Done? || j.phase.Dropped? }

  ghost predicate EverReleased(j: Job, sched: Schedule) {
    exists n: nat :: Released(AfterTurns(j, sched, n))
  }

  /** A worker is held up by something that goes on. */
  predicate Held(j: Job) { j.phase.Blocked? && j.running }

  lemma {:induction false} NobodyWakes(j: Job, burst: seq<Event>)
    requires Held(j) && SourceEnds !in burst
    ensures Steps(j, burst) == j
    decreases |burst|
  {
    if burst != [] {
      NobodyWakes(j, burst[1..]);
    }
  }

  lemma {:induction false} StaysBack(j: Job, burst: seq<Event>)
    requires !j.phase.Queued? && !j.phase.Blocked?
    ensures Steps(j, burst).phase == j.phase
    decreases |burst|
  {
    if burst != [] {
      StaysBack(Step(j, burst[0]), burst[1..]);
    }
  }

  lemma {:induction false} WorkerComesBack(j: Job, burst: seq<Event>)
    requires j.phase.Blocked?
    ensures var t := Steps(j, burst);
            && (t.phase.Blocked? || t.phase.Returned?)
            && (t.phase.Blocked? && (!j.running || SourceEnds in burst) ==> !t.running)
            && (!j.running && WorkerWakes in burst ==> t.phase.Returned?)
    decreases |burst|
  {
    if burst != [] {
      var t := Step(j, burst[0]);
      if t.phase.Blocked? {
        WorkerComesBack(t, burst[1..]);
      } else {
        StaysBack(t, burst[1..]);
      }
    }
  }

  lemma {:induction false} AwaitedSpins(j: Job, sched: Schedule, n: nat)
    requires Held(j) && !SourceEndsIn(sched)
    ensures AfterTurns(j, sched, n) == j
  {
    if n > 0 {
      AwaitedSpins(j, sched, n - 1);
      NobodyWakes(j, sched(n - 1));
    }
  }

  /** A worker in its call is waited for, turn by turn. */
  lemma {:induction false} AwaitedBlocked(j: Job, sched: Schedule, n: nat, e: nat)
    requires j.phase.Blocked? && (!j.running || SourceEnds in sched(e))
    ensures var t := AfterTurns(j, sched, n);
            Released(t) || (t.phase.Blocked? && (n > e || !j.running ==> !t.running))
  {
    if n > 0 {
      AwaitedBlocked(j, sched, n - 1, e);
      var t := AfterTurns(j, sched, n - 1);
      if t.phase.Blocked? {
        WorkerComesBack(t, sched(n - 1));
      } else {
        StaysBack(t, sched(n - 1));
      }
    }
  }

  lemma AwaitedEnds(j: Job, sched: Schedule) returns (n: nat)
    requires Serves(sched) && (!Held(j) || SourceEndsIn(sched))
    ensures Released(AfterTurns(j, sched, n))
  {
    if !j.phase.Blocked? {
      n := 1;
      assert AfterTurns(j, sched, 0) == Withdrawn(j);
      StaysBack(Withdrawn(j), sched(0));
    } else {
      var e: nat := 0;
      if j.running {
        e :| SourceEnds in sched(e);
      }
      assert ServesFrom(sched, e + 1);
      var m: nat :| m >= e + 1 && WorkerWakes in sched(m);
      AwaitedBlocked(j, sched, m, e);
      n := m + 1;
      var t := AfterTurns(j, sched, m);
      if t.phase.Blocked? {
        WorkerComesBack(t, sched(m));
      } else {
        StaysBack(t, sched(m));
      }
    }
  }

  /** The wait for a job ends exactly when the cancel wins, the job is back, or what a worker
      is held up by ends. */
  lemma EndsIff(j: Job, sched: Schedule)
    requires Serves(sched)
    ensures EverReleased(j, sched) <==> !Held(j) || SourceEndsIn(sched)
  {
    if !Held(j) || SourceEndsIn(sched) {
      var n := AwaitedEnds(j, sched);
    } else {
      forall n: nat ensures !Released(AfterTurns(j, sched, n)) {
        AwaitedSpins(j, sched, n);
      }
    }
  }

  /** A worker held up by a child that lives on, or by a stream that stays open: the pool
      serves at every turn, and the wait goes on for ever. */
  lemma HeldForEver(n: nat)
    ensures !Released(AfterTurns(Job(true, Blocked), _ => [WorkerWakes], n))
  {
    AwaitedSpins(Job(true, Blocked), _ => [WorkerWakes], n);
  }
}
