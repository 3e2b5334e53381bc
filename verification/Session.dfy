// communicate() as a whole: stdin closed, a queued wait and two queued readers, the
// results collected, mixed with waits and with reads through the streams, repeated at
// will, and ended by a destructor that joins all jobs before it closes a descriptor.

module Session {

  import opened Common
  import A = AwaitWork
  import C = CreateProcess
  import D = Descriptors
  import S = StreamBuf
  import W = WaitProtocol

  /** A queued read_work_cb: taken by a worker after a while, reading for a while and until
      the stream ends, back, called back; or cancelled while still queued and called back. */
  datatype Job =
    | Queued(delay: nat, length: nat)
    | Reading(length: nat)
    | Returned(text: string)
    | Done(text: string)
    | Cancelled
    | Dropped

  /** A finished job still holds its text. */
  predicate Holding(job: Option<Job>) { job.Some? && (job.value.Returned? || job.value.Done?) }

  predicate Ready(job: Option<Job>) { job.None? || job.value.Done? || job.value.Dropped? }

  /** How far a job is from ready. */
  function Delay(job: Option<Job>): nat {
    if Ready(job) then 0 else
    match job.value
    case Queued(delay, length) => 3 + delay + length
    case Reading(length) => 2 + length
    case _ => 1
  }

  /** A job the pool has not given back needs a stream that ends. */
  predicate Finishes(job: Option<Job>, ends: bool) {
    job.Some? && (job.value.Queued? || job.value.Reading?) ==> ends
  }

  predicate InQueue(job: Option<Job>) { job.Some? && job.value.Queued? }

  /** A worker has had it: it can no longer be cancelled. */
  predicate Taken(job: Option<Job>) {
    job.Some? && (job.value.Reading? || job.value.Returned? || job.value.Done?)
  }

  /** The destructor has left it alone. */
  predicate Open(job: Option<Job>) { job.Some? ==> !job.value.Cancelled? && !job.value.Dropped? }

  /** A channel: whether it is captured, its stream ends and its reads may fail; all the bytes
      of the stream, and up to where they have been handed to the caller; its job, and
      whether a read has failed. */
  datatype View = View(captured: bool, ends: bool, faulty: bool, data: string, given: nat,
                       job: Option<Job>, failed: bool)
  {
    /** Nothing is missing, but for a read that failed. */
    predicate Whole() { given == |data| || failed }

    predicate Completes() { Finishes(job, ends) }
  }

  /** What never changes and what never comes back. */
  ghost predicate Onward(a: View, b: View) {
    && b.captured == a.captured && b.ends == a.ends && b.faulty == a.faulty && b.data == a.data
    && (a.Completes() ==> b.Completes()) && (Open(a.job) ==> Open(b.job))
    && (a.failed ==> b.failed) && (b.failed ==> b.faulty)
  }

  /** Nothing is delivered on the side. */
  ghost predicate Kept(a: View, b: View) {
    && Onward(a, b) && b.given == a.given
    && (b.job.Some? <==> a.job.Some?) && (Taken(a.job) ==> Taken(b.job))
  }

  /** A turn of the loop delivers nothing but brings a job that finishes closer. */
  ghost predicate Advances(a: View, b: View) {
    Kept(a, b) && (Ready(a.job) ==> Ready(b.job)) && (a.Completes() ==> Ready(b.job) || Delay(b.job) < Delay(a.job))
  }

  /** A captured stream without a job gets one if it is submitted. */
  ghost predicate Started(a: View, b: View, submitted: bool) {
    && b == a.(job := b.job)
    && if a.job.Some? || !a.captured || !submitted then b == a else b.job.Some? && b.job.value.Queued?
  }

  /** The text is the stream from where the caller was to where he is now. */
  ghost predicate Delivered(a: View, b: View, text: string) {
    b.data == a.data && a.given <= b.given <= |a.data| && text == a.data[a.given..b.given]
  }

  lemma OneByte(d: string, p: nat)
    requires p < |d|
    ensures d[p..p + 1] == [d[p]]
  {
  }

  /** A pending job hands over its text, all that was left unless a read failed; without a
      job the text is empty. */
  ghost predicate Handed(a: View, b: View, text: string) {
    && Onward(a, b) && Delivered(a, b, text) && b.job.None?
    && if a.job.Some? then b.Whole() else b.given == a.given
  }

  /** A byte read through the stream; none only at the end or after an error. */
  ghost predicate Took(a: View, b: View, text: string) {
    && Delivered(a, b, text) && b.given <= a.given + 1 && (b.given == a.given ==> b.Whole())
    && b == a.(given := b.given, failed := b.failed)
    && (a.failed ==> b.failed) && (b.failed ==> b.faulty)
  }

  /** One captured stream of the child with its reader job. */
  class Channel {
    const stream: S.FdInBuf
    /** The parent holds a descriptor for it. */
    const captured: bool
    /** Whether all writers close it in the end. */
    const ends: bool
    var job: Option<Job>
    /** The pool or the loop holds a job that points at the stream: a submission makes it so,
        and only the completion callback ends it. */
    var outstanding: bool
    /** The stream position up to which the caller has the bytes. */
    ghost var given: nat

    constructor (stream: S.FdInBuf, captured: bool, ends: bool)
      requires stream.Valid() && stream.OnStream() && stream.Position() <= |stream.fd.data|
      ensures Valid() && this.stream == stream && this.captured == captured && this.ends == ends && job.None?
      ensures given == stream.Position()
    {
      this.stream, this.captured, this.ends := stream, captured, ends;
      job, outstanding, given := None, false, stream.Position();
    }

    ghost function Stream(): string { stream.fd.data }

    /** Conservation: a finished job holds what lies between the caller and the stream's
        position, all that was left unless a read failed; otherwise nothing does. */
    ghost predicate Valid()
      reads this, stream, stream.buffer, stream.fd
    {
      && stream.Valid() && stream.OnStream()
      && given <= stream.Position() <= |Stream()|
      && (job.Some? ==> captured) && (outstanding <==> !Ready(job))
      && if Holding(job) then job.value.text == Stream()[given..stream.Position()]
                           && (stream.Position() == |Stream()| || stream.fd.failed)
         else given == stream.Position()
    }

    ghost function Seen(): View
      reads this, stream.fd
    {
      View(captured, ends, stream.fd.faulty, Stream(), given, job, stream.fd.failed)
    }

    method Begin(submitted: bool, delay: nat, length: nat)
      requires Valid()
      modifies this`job, this`outstanding
      ensures Valid() && Started(old(Seen()), Seen(), submitted)
    {
      if captured && job.None? && submitted {
        job, outstanding := Some(Queued(delay, length)), true;
      }
    }

    /** read_work_cb: the worker reads up to the end. */
    method ReadAll()
      requires Valid() && job.Some? && job.value.Reading? && ends
      modifies this`job, stream, stream.buffer, stream.fd
      ensures Valid() && job.Some? && job.value.Returned?
      ensures old(stream.fd.failed) ==> stream.fd.failed
    {
      var text := stream.Drain();
      job := Some(Returned(text));
    }

    /** The worker moves on, and the loop calls back a job that is back. */
    method RunLoop()
      requires Valid()
      modifies this`job, this`outstanding, stream, stream.buffer, stream.fd
      ensures Valid() && Advances(old(Seen()), Seen())
    {
      if job.None? {
        return;
      }
      match job.value {
        case Queued(delay, length) =>
          job := Some(if delay > 0 then Queued(delay - 1, length) else Reading(length));
        case Reading(length) =>
          if length > 0 {
            job := Some(Reading(length - 1));
          } else if ends {
            ReadAll();
          }
        case Returned(text) => job, outstanding := Some(Done(text)), false;
        case Cancelled => job, outstanding := Some(Dropped), false;
        case _ =>
      }
    }

    /** The tail of end_communicate for one stream. */
    method Collect() returns (text: string)
      requires Valid() && Ready(job) && Open(job)
      modifies this`job, this`given
      ensures Valid() && job.None? && Handed(old(Seen()), Seen(), text)
    {
      if job.None? {
        return "";
      }
      text := job.value.text;
      job := None;
      given := stream.Position();
    }

    /** uv_cancel: it wins only before a worker has taken the job. */
    method CancelJob()
      requires Valid()
      modifies this`job
      ensures Valid() && job == if old(job.Some? && job.value.Queued?) then Some(Cancelled) else old(job)
    {
      if job.Some? && job.value.Queued? {
        job := Some(Cancelled);
      }
    }

    /** The stream has been read to its end, unless a read failed. */
    ghost predicate ReadOut()
      reads stream, stream.buffer, stream.fd
    {
      stream.Valid() && (stream.Position() == |Stream()| || stream.fd.failed)
    }

    /** The job is freed once the loop has called back; a text that came back is dropped. */
    method Release()
      requires Valid() && !outstanding
      modifies this`job
      ensures job.None? && (old(Taken(job)) ==> ReadOut())
    {
      job := None;
    }

    /** One byte read by the caller through the stream. */
    method Take() returns (text: string)
      requires Valid() && job.None?
      modifies this, stream, stream.buffer, stream.fd
      ensures Valid() && Took(old(Seen()), Seen(), text)
    {
      var c := stream.Get();
      given := stream.Position();
      if c.None? {
        return "";
      }
      OneByte(Stream(), old(given));
      text := [c.value];
    }
  }

  datatype Result = Result(out: string, err: string, exitCode: int)

  /** Whether uv_queue_work takes the jobs, how long the readers wait for a worker, and how
      long they then read. */
  datatype Submission = Submission(wait: bool, out: bool, err: bool,
                                   outDelay: nat, outLength: nat, errDelay: nat, errLength: nat)

  /** The table is base and, apart from it and from each other, what the handle owns. */
  ghost predicate Owns(info: C.Info, fds: D.Fds, base: D.Fds) {
    && fds.Keys == base.Keys + C.Owned(info) && C.Owned(info) !! base.Keys
    && (forall fd :: fd in base ==> fds[fd] == base[fd])
    && (info.stdin == D.FD_INVALID || (info.stdin != info.stdout && info.stdin != info.stderr))
    && (info.stdout == D.FD_INVALID || info.stdout != info.stderr)
  }

  lemma OwnsLess(info: C.Info, fds: D.Fds, base: D.Fds)
    requires Owns(info, fds, base)
    ensures fds - C.Owned(info) == base
  {
    var left := fds - C.Owned(info);
    assert left.Keys == base.Keys;
    assert forall fd :: fd in base ==> left[fd] == base[fd];
  }

  /** A process object: its streams, what it knows of the exit, and the descriptors it owns. */
  datatype Moment = Moment(out: View, err: View, exit: W.View, info: C.Info)

  /** The descriptors behind a close_stdin. */
  function Closed(info: C.Info): C.Info {
    if info.stdinClosed then info else info.(stdin := D.FD_INVALID, stdinClosed := true)
  }

  /** What a call returns: text, something about the exit, whether the readers are ready. */
  datatype Reply = Reply(out: string, err: string, exit: W.Answer, ready: bool)

  const SILENT := Reply("", "", W.Silent, false)

  // ----- what each call does -----

  /** begin_communicate: a wait is queued unless there is one or the code is known, and a
      reader for each captured stream without one. */
  ghost predicate Began(sub: Submission, a: Moment, b: Moment) {
    && b.info == Closed(a.info) && W.Follows(a.exit, b.exit)
    && (b.exit.waiting <==> a.exit.waiting || (a.exit.exitCode.None? && sub.wait))
    && Started(a.out, b.out, sub.out) && Started(a.err, b.err, sub.err)
  }

  /** One turn of the loop. */
  ghost predicate Turned(a: Moment, b: Moment) {
    && b.info == a.info && W.Follows(a.exit, b.exit)
    && Advances(a.out, b.out) && Advances(a.err, b.err)
  }

  /** end_communicate. */
  ghost predicate Ended(a: Moment, b: Moment, r: Result) {
    && b.info == a.info && W.Follows(a.exit, b.exit)
    && Handed(a.out, b.out, r.out) && Handed(a.err, b.err, r.err)
    && b.exit.exitCode == Some(r.exitCode)
  }

  /** A read through out() while no job holds the stream. */
  ghost predicate TookOut(a: Moment, b: Moment, text: string) {
    b == a.(out := b.out) && if a.out.job.Some? then b == a && text == "" else Took(a.out, b.out, text)
  }

  /** Likewise through err(). */
  ghost predicate TookErr(a: Moment, b: Moment, text: string) {
    b == a.(err := b.err) && if a.err.job.Some? then b == a && text == "" else Took(a.err, b.err, text)
  }

  /** One of the waiting calls; it does not touch the streams. */
  ghost predicate Waited(op: W.Op, a: Moment, b: Moment, answer: W.Answer) {
    b == a.(exit := b.exit) && W.Follows(a.exit, b.exit) && W.Says(op, answer, b.exit)
  }

  /** An mpp::process with everything it owns. */
  class Session {
    const handle: C.Handle
    const proc: W.Process
    const stdin: S.FdOutBuf
    const out: Channel
    const err: Channel
    /** The child ends, and its streams with it, only behind the end of its input. */
    ghost const needsEof: bool
    /** The descriptor table without what the handle owns, and its record of bad closes. */
    ghost const base: D.Fds
    ghost const badCloses: nat

    constructor (handle: C.Handle, proc: W.Process, stdin: S.FdOutBuf, out: Channel, err: Channel,
                 ghost base: D.Fds, ghost needsEof: bool)
      requires out != err && out.stream != err.stream
      requires out.stream.buffer != err.stream.buffer && out.stream.fd != err.stream.fd
      requires proc.Valid() && proc.Open() && out.Valid() && err.Valid() && out.job.None? && err.job.None?
      requires Owns(handle.info, handle.table.fds, base) && !handle.info.stdinClosed
      requires out.captured <==> handle.info.stdout != D.FD_INVALID
      requires err.captured <==> handle.info.stderr != D.FD_INVALID
      ensures Valid()
      ensures this.handle == handle && this.proc == proc && this.stdin == stdin && this.out == out && this.err == err
      ensures this.base == base && badCloses == handle.table.badCloses && this.needsEof == needsEof
    {
      this.handle, this.proc, this.stdin, this.out, this.err := handle, proc, stdin, out, err;
      this.base, badCloses, this.needsEof := base, handle.table.badCloses, needsEof;
    }

    /** Nothing keeps a child that ends from ending: it has its end of input if it needs one. */
    ghost predicate InputOver()
      reads handle, proc
    {
      needsEof ==> handle.info.stdinClosed || !proc.child.Running?
    }

    /** The two streams share nothing, and conserve their bytes. */
    ghost predicate Readers()
      reads out, out.stream, out.stream.buffer, out.stream.fd
      reads err, err.stream, err.stream.buffer, err.stream.fd
    {
      && out != err && out.stream != err.stream
      && out.stream.buffer != err.stream.buffer && out.stream.fd != err.stream.fd
      && out.Valid() && err.Valid()
    }

    /** The descriptors are open for as long as a reader may use them. */
    ghost predicate Holds()
      reads handle, handle.table, stdin
    {
      && Owns(handle.info, handle.table.fds, base) && handle.table.badCloses == badCloses
      && (out.captured <==> handle.info.stdout != D.FD_INVALID)
      && (err.captured <==> handle.info.stderr != D.FD_INVALID)
      && (handle.info.stdinClosed ==> !stdin.valid)
    }

    ghost predicate Valid()
      reads handle, handle.table, stdin, proc
      reads out, out.stream, out.stream.buffer, out.stream.fd
      reads err, err.stream, err.stream.buffer, err.stream.fd
    {
      Readers() && Holds() && proc.Valid() && proc.Open() && Open(out.job) && Open(err.job)
    }

    ghost function Now(): Moment
      reads handle, proc, out, out.stream.fd, err, err.stream.fd
    {
      Moment(out.Seen(), err.Seen(), proc.Seen(), handle.info)
    }

    /** close_stdin; nothing else is touched. */
    method CloseStdin()
      requires Holds()
      modifies handle, handle.table, stdin
      ensures Holds() && handle.info == Closed(old(handle.info)) && !stdin.valid
    {
      if handle.info.stdinClosed {
        return;
      }
      stdin.Invalidate();
      handle.CloseStdin();
    }

    /** The first two steps of begin_communicate. */
    method CloseAndWait(submitted: bool)
      requires Valid()
      modifies handle, handle.table, stdin, proc
      ensures Valid() && handle.info == Closed(old(handle.info)) && !stdin.valid
      ensures W.Follows(old(proc.Seen()), proc.Seen())
      ensures proc.Seen().waiting <==> old(proc.Seen().waiting) || (old(proc.Seen().exitCode.None?) && submitted)
    {
      CloseStdin();
      proc.BeginWait(submitted);
    }

    method QueueReaders(sub: Submission)
      requires Valid()
      modifies out`job, out`outstanding, err`job, err`outstanding
      ensures Valid()
      ensures Started(old(out.Seen()), out.Seen(), sub.out) && Started(old(err.Seen()), err.Seen(), sub.err)
    {
      out.Begin(sub.out, sub.outDelay, sub.outLength);
      err.Begin(sub.err, sub.errDelay, sub.errLength);
    }

    method BeginCommunicate(sub: Submission)
      requires Valid()
      modifies handle, handle.table, stdin, proc, out`job, out`outstanding, err`job, err`outstanding
      ensures Valid() && !stdin.valid && Began(sub, old(Now()), Now())
    {
      CloseAndWait(sub.wait);
      QueueReaders(sub);
    }

    /** A read through out(); not while a job holds the stream. */
    method TakeOut() returns (text: string)
      requires Valid()
      modifies out, out.stream, out.stream.buffer, out.stream.fd
      ensures Valid() && TookOut(old(Now()), Now(), text)
    {
      text := "";
      if out.job.None? {
        text := out.Take();
      }
    }

    /** A read through err(), likewise. */
    method TakeErr() returns (text: string)
      requires Valid()
      modifies err, err.stream, err.stream.buffer, err.stream.fd
      ensures Valid() && TookErr(old(Now()), Now(), text)
    {
      text := "";
      if err.job.None? {
        text := err.Take();
      }
    }

    /** One of the waiting calls. */
    method WaitCall(op: W.Op) returns (a: W.Answer)
      requires Valid() && W.Callable(op, proc.mortal && InputOver())
      modifies proc
      ensures Valid() && Waited(op, old(Now()), Now(), a) && W.Fits(proc.fate, old(proc.Seen()), a, proc.Seen())
    {
      a := W.Perform(proc, op);
    }

    /** The readers' part of one uv_run; their descriptors must be open. */
    method RunReaders()
      requires Readers() && Holds()
      modifies out, out.stream, out.stream.buffer, out.stream.fd,
               err, err.stream, err.stream.buffer, err.stream.fd
      ensures Readers()
      ensures Advances(old(out.Seen()), out.Seen()) && Advances(old(err.Seen()), err.Seen())
    {
      out.RunLoop();
      err.RunLoop();
    }

    /** The wait job's part. */
    method RunWait()
      requires Valid()
      modifies proc
      ensures Valid() && Now() == old(Now()).(exit := Now().exit) && W.Follows(old(proc.Seen()), proc.Seen())
      ensures old(proc.WillEnd()) ==> proc.WillEnd()
    {
      proc.RunLoop();
    }

    /** uv_run(UV_RUN_NOWAIT) with everything that hangs on the loop. */
    method RunLoop()
      requires Valid()
      modifies proc, out, out.stream, out.stream.buffer, out.stream.fd,
               err, err.stream, err.stream.buffer, err.stream.fd
      ensures Valid() && Turned(old(Now()), Now())
      ensures old(proc.WillEnd()) ==> proc.WillEnd()
    {
      RunWait();
      RunReaders();
    }

    /** True exactly when end_communicate need not wait for a reader. */
    method PollCommunicate() returns (b: bool)
      requires Valid()
      modifies proc, out, out.stream, out.stream.buffer, out.stream.fd,
               err, err.stream, err.stream.buffer, err.stream.fd
      ensures Valid() && Turned(old(Now()), Now())
      ensures b <==> Ready(out.job) && Ready(err.job)
    {
      RunLoop();
      b := Ready(out.job) && Ready(err.job);
    }

    /** The wait for the stdout reader; meanwhile the others go on. */
    method AwaitOutReader()
      requires Valid() && Finishes(out.job, out.ends) && proc.WillEnd()
      modifies proc, out, out.stream, out.stream.buffer, out.stream.fd,
               err, err.stream, err.stream.buffer, err.stream.fd
      ensures Valid() && Ready(out.job) && proc.WillEnd() && W.Follows(old(proc.Seen()), proc.Seen())
      ensures Kept(old(out.Seen()), out.Seen()) && Kept(old(err.Seen()), err.Seen())
    {
      while !Ready(out.job)
        invariant Valid() && proc.WillEnd() && W.Follows(old(proc.Seen()), proc.Seen())
        invariant Kept(old(out.Seen()), out.Seen()) && Kept(old(err.Seen()), err.Seen())
        decreases Delay(out.job)
      {
        RunLoop();
      }
    }

    /** What end_communicate does for stdout. */
    method FinishOut() returns (text: string)
      requires Valid() && Finishes(out.job, out.ends) && proc.WillEnd()
      modifies proc, out, out.stream, out.stream.buffer, out.stream.fd,
               err, err.stream, err.stream.buffer, err.stream.fd
      ensures Valid() && proc.WillEnd() && W.Follows(old(proc.Seen()), proc.Seen())
      ensures Handed(old(out.Seen()), out.Seen(), text) && Kept(old(err.Seen()), err.Seen())
    {
      AwaitOutReader();
      text := out.Collect();
    }

    /** The wait for the stderr reader; meanwhile the others go on. */
    method AwaitErrReader()
      requires Valid() && Finishes(err.job, err.ends) && proc.WillEnd()
      modifies proc, out, out.stream, out.stream.buffer, out.stream.fd,
               err, err.stream, err.stream.buffer, err.stream.fd
      ensures Valid() && Ready(err.job) && proc.WillEnd() && W.Follows(old(proc.Seen()), proc.Seen())
      ensures Kept(old(out.Seen()), out.Seen()) && Kept(old(err.Seen()), err.Seen())
    {
      while !Ready(err.job)
        invariant Valid() && proc.WillEnd() && W.Follows(old(proc.Seen()), proc.Seen())
        invariant Kept(old(out.Seen()), out.Seen()) && Kept(old(err.Seen()), err.Seen())
        decreases Delay(err.job)
      {
        RunLoop();
      }
    }

    /** What end_communicate does for stderr. */
    method FinishErr() returns (text: string)
      requires Valid() && Finishes(err.job, err.ends) && proc.WillEnd()
      modifies proc, out, out.stream, out.stream.buffer, out.stream.fd,
               err, err.stream, err.stream.buffer, err.stream.fd
      ensures Valid() && proc.WillEnd() && W.Follows(old(proc.Seen()), proc.Seen())
      ensures Kept(old(out.Seen()), out.Seen()) && Handed(old(err.Seen()), err.Seen(), text)
    {
      AwaitErrReader();
      text := err.Collect();
    }

    /** The tail of end_communicate. */
    method CollectCode() returns (code: int)
      requires Valid() && proc.WillEnd()
      modifies proc
      ensures Valid() && W.Follows(old(proc.Seen()), proc.Seen())
      ensures code == W.Decode(proc.fate) && proc.exitCode == Some(code)
    {
      code := proc.CollectWait();
    }

    /** Both readers, one after the other. */
    method FinishBoth() returns (outText: string, errText: string)
      requires Valid() && Finishes(out.job, out.ends) && Finishes(err.job, err.ends) && proc.WillEnd()
      modifies proc, out, out.stream, out.stream.buffer, out.stream.fd,
               err, err.stream, err.stream.buffer, err.stream.fd
      ensures Valid() && W.Follows(old(proc.Seen()), proc.Seen()) && proc.WillEnd()
      ensures Handed(old(out.Seen()), out.Seen(), outText) && Handed(old(err.Seen()), err.Seen(), errText)
    {
      outText := FinishOut();
      errText := FinishErr();
    }

    /** The texts, each once, and the code; it ends for a child and streams that end, and so
        not before the end of input of a child that waits for it. */
    method EndCommunicate() returns (r: Result)
      requires InputOver()
      requires Valid() && Finishes(out.job, out.ends) && Finishes(err.job, err.ends) && proc.WillEnd()
      modifies proc, out, out.stream, out.stream.buffer, out.stream.fd,
               err, err.stream, err.stream.buffer, err.stream.fd
      ensures Valid() && Ended(old(Now()), Now(), r) && r.exitCode == W.Decode(proc.fate)
      ensures proc.fate.Exited? ==> r.exitCode == proc.fate.status
      ensures !proc.fate.Exited? ==> r.exitCode == 128 + proc.fate.signal
    {
      var outText, errText := FinishBoth();
      var code := CollectCode();
      r := Result(outText, errText, code);
    }

    /** communicate(), for a child and streams that end, be it only behind the end of input. */
    method Communicate(sub: Submission) returns (r: Result)
      requires Valid() && proc.WillEnd() && out.ends && err.ends
      modifies handle, handle.table, stdin, proc, out, out.stream, out.stream.buffer, out.stream.fd,
               err, err.stream, err.stream.buffer, err.stream.fd
      ensures Valid() && !stdin.valid && Communicated(sub, old(Now()), Now(), r) && r.exitCode == W.Decode(proc.fate)
      ensures proc.fate.Exited? ==> r.exitCode == proc.fate.status
      ensures !proc.fate.Exited? ==> r.exitCode == 128 + proc.fate.signal
    {
      ghost var a := Now();
      BeginCommunicate(sub);
      ghost var m := Now();
      r := EndCommunicate();
      BothParts(sub, a, m, Now(), r);
    }

    // ----- ~member_holder -----

    /** The destructor is waiting for the wait job. */
    ghost predicate Leaving()
      reads handle, handle.table, stdin, proc
      reads out, out.stream, out.stream.buffer, out.stream.fd
      reads err, err.stream, err.stream.buffer, err.stream.fd
    {
      Readers() && Holds() && proc.Valid() && proc.waitWork.Some? && proc.Releasing()
    }

    /** One turn of the loop while the destructor waits. */
    method Turn()
      requires Leaving()
      modifies proc`child, proc`reaps, proc`waitWork, proc`script, proc`outstanding
      modifies out, out.stream, out.stream.buffer, out.stream.fd,
               err, err.stream, err.stream.buffer, err.stream.fd
      ensures Leaving()
      ensures Kept(old(out.Seen()), out.Seen()) && Kept(old(err.Seen()), err.Seen())
      ensures proc.Delay() < old(proc.Delay()) || W.IsDone(proc.waitWork.value)
      ensures proc.Delay() <= old(proc.Delay())
    {
      proc.RunLoop();
      RunReaders();
    }

    /** The loop of await_work for the wait job; meanwhile the readers go on. */
    method SpinWait()
      requires Leaving()
      modifies proc`child, proc`reaps, proc`waitWork, proc`script, proc`outstanding
      modifies out, out.stream, out.stream.buffer, out.stream.fd,
               err, err.stream, err.stream.buffer, err.stream.fd
      ensures Leaving() && W.IsDone(proc.waitWork.value)
      ensures Kept(old(out.Seen()), out.Seen()) && Kept(old(err.Seen()), err.Seen())
    {
      while !W.IsDone(proc.waitWork.value)
        invariant Leaving()
        invariant Kept(old(out.Seen()), out.Seen()) && Kept(old(err.Seen()), err.Seen())
        decreases proc.Delay(), !W.IsDone(proc.waitWork.value)
      {
        Turn();
      }
    }

    /** The cancel. */
    method WithdrawWait()
      requires Readers() && Holds() && proc.Valid() && proc.Open() && proc.waitWork.Some?
      requires proc.waitWork.value.phase.Blocked? ==> proc.WillEnd()
      modifies proc`waitWork, proc`tooLate
      ensures Leaving() && (proc.tooLate <==> old(!proc.waitWork.value.phase.Queued?))
    {
      proc.CancelWait();
    }

    /** The release; nothing else is touched. */
    method ReleaseWait()
      requires Leaving() && W.IsDone(proc.waitWork.value)
      modifies proc`waitWork
      ensures proc.waitWork.None? && !proc.outstanding && proc.reaps <= 1
      ensures proc.tooLate ==> proc.child.Reaped?
    {
      proc.Release();
    }

    /** The cancel and the loop. */
    method DrainWait()
      requires Readers() && Holds() && proc.Valid() && proc.Open() && proc.waitWork.Some?
      requires proc.waitWork.value.phase.Blocked? ==> proc.WillEnd()
      modifies proc`child, proc`reaps, proc`waitWork, proc`script, proc`outstanding, proc`tooLate
      modifies out, out.stream, out.stream.buffer, out.stream.fd,
               err, err.stream, err.stream.buffer, err.stream.fd
      ensures Leaving() && W.IsDone(proc.waitWork.value)
      ensures proc.tooLate <==> old(!proc.waitWork.value.phase.Queued?)
      ensures Kept(old(out.Seen()), out.Seen()) && Kept(old(err.Seen()), err.Seen())
    {
      WithdrawWait();
      SpinWait();
    }

    /** await_work for a wait job that is there: a worker that has taken it is waited for
        until it has reaped. */
    method JoinWait()
      requires Readers() && Holds() && proc.Valid() && proc.Open() && proc.waitWork.Some?
      requires proc.waitWork.value.phase.Blocked? ==> proc.WillEnd()
      modifies proc, out, out.stream, out.stream.buffer, out.stream.fd,
               err, err.stream, err.stream.buffer, err.stream.fd
      ensures Readers() && proc.waitWork.None? && !proc.outstanding && proc.reaps <= 1
      ensures old(!proc.waitWork.value.phase.Queued?) ==> proc.child.Reaped?
      ensures Kept(old(out.Seen()), out.Seen()) && Kept(old(err.Seen()), err.Seen())
    {
      DrainWait();
      ReleaseWait();
    }

    /** await_work for the wait job. */
    method AwaitWait()
      requires Readers() && Holds() && proc.Valid() && proc.Open()
      requires proc.waitWork.Some? && proc.waitWork.value.phase.Blocked? ==> proc.WillEnd()
      modifies proc, out, out.stream, out.stream.buffer, out.stream.fd,
               err, err.stream, err.stream.buffer, err.stream.fd
      ensures Readers() && proc.waitWork.None? && !proc.outstanding && proc.reaps <= 1
      ensures old(proc.waitWork.Some? && !proc.waitWork.value.phase.Queued?) ==> proc.child.Reaped?
      ensures Kept(old(out.Seen()), out.Seen()) && Kept(old(err.Seen()), err.Seen())
      ensures old(proc.waitWork.None?) ==> out.job == old(out.job) && err.job == old(err.job)
    {
      if proc.waitWork.Some? {
        JoinWait();
      }
    }

    /** The loop of await_work for the stdout reader; meanwhile the other reader goes on. */
    method SpinOut()
      requires Readers() && Holds() && Finishes(out.job, out.ends)
      modifies out, out.stream, out.stream.buffer, out.stream.fd,
               err, err.stream, err.stream.buffer, err.stream.fd
      ensures Readers() && Ready(out.job) && (old(Taken(out.job)) ==> Taken(out.job))
      ensures Kept(old(err.Seen()), err.Seen())
    {
      while !Ready(out.job)
        invariant Readers() && Finishes(out.job, out.ends) && (old(Taken(out.job)) ==> Taken(out.job))
        invariant Kept(old(err.Seen()), err.Seen())
        decreases Delay(out.job)
      {
        RunReaders();
      }
    }

    /** await_work for the stdout reader: one that a worker has taken is waited for until it
        has read to the end. */
    method AwaitOut()
      requires Readers() && Holds() && (Finishes(out.job, out.ends) || InQueue(out.job))
      modifies out, out.stream, out.stream.buffer, out.stream.fd,
               err, err.stream, err.stream.buffer, err.stream.fd
      ensures out.job.None? && !out.outstanding && (old(Taken(out.job)) ==> out.ReadOut())
      ensures err.Valid() && Kept(old(err.Seen()), err.Seen())
      ensures old(out.job.None?) ==> err.job == old(err.job)
    {
      if out.job.Some? {
        out.CancelJob();
        SpinOut();
        out.Release();
      }
    }

    /** await_work for the stderr reader, the last job on the loop. */
    method AwaitErr()
      requires err.Valid() && Holds() && (Finishes(err.job, err.ends) || InQueue(err.job))
      modifies err, err.stream, err.stream.buffer, err.stream.fd
      ensures err.job.None? && !err.outstanding && (old(Taken(err.job)) ==> err.ReadOut())
    {
      if err.job.None? {
        return;
      }
      err.CancelJob();
      while !Ready(err.job)
        invariant err.Valid() && err.job.Some? && Finishes(err.job, err.ends)
        invariant old(Taken(err.job)) ==> Taken(err.job)
        decreases Delay(err.job)
      {
        err.RunLoop();
      }
      err.Release();
    }

    method JoinReaders()
      requires Readers() && Holds()
      requires Finishes(out.job, out.ends) || InQueue(out.job)
      requires Finishes(err.job, err.ends) || (InQueue(err.job) && out.job.None?)
      modifies out, out.stream, out.stream.buffer, out.stream.fd,
               err, err.stream, err.stream.buffer, err.stream.fd
      ensures Left(out) && Left(err)
      ensures (old(Taken(out.job)) ==> out.ReadOut()) && (old(Taken(err.job)) ==> err.ReadOut())
    {
      AwaitOut();
      AwaitErr();
    }

    /** All three jobs are joined while the descriptors are still open: neither the pool nor
        the loop holds one any more, a worker that was waiting has reaped, and one that was
        reading has read to the end. */
    method Join()
      requires Valid()
      requires proc.waitWork.Some? && proc.waitWork.value.phase.Blocked? ==> proc.WillEnd()
      requires Finishes(out.job, out.ends) || (InQueue(out.job) && proc.waitWork.None?)
      requires Finishes(err.job, err.ends) || (InQueue(err.job) && proc.waitWork.None? && out.job.None?)
      modifies proc, out, out.stream, out.stream.buffer, out.stream.fd,
               err, err.stream, err.stream.buffer, err.stream.fd
      ensures proc.waitWork.None? && !proc.outstanding && proc.reaps <= 1 && Left(out) && Left(err)
      ensures old(proc.waitWork.Some? && !proc.waitWork.value.phase.Queued?) ==> proc.child.Reaped?
      ensures (old(Taken(out.job)) ==> out.ReadOut()) && (old(Taken(err.job)) ==> err.ReadOut())
    {
      AwaitWait();
      JoinReaders();
    }

    /** close_process, with nobody left who could use a descriptor. */
    method CloseAll()
      requires Holds() && !proc.outstanding && !out.outstanding && !err.outstanding
      modifies handle, handle.table
      ensures handle.table.fds == base && handle.table.badCloses == badCloses && C.Owned(handle.info) == {}
    {
      OwnsLess(handle.info, handle.table.fds, base);
      handle.Destroy();
    }

    /** ~member_holder, with any of the three jobs in flight: all are joined while their
        descriptors are still open, and then every descriptor owned is closed once.  A job
        is waited for if its child or stream ends, or if the cancel comes before a worker;
        stdin is closed too late for a child that waits for it. */
    method Destroy()
      requires Valid()
      requires proc.waitWork.Some? && proc.waitWork.value.phase.Blocked? ==> proc.WillEnd() && InputOver()
      requires Finishes(out.job, out.ends && InputOver()) || (InQueue(out.job) && proc.waitWork.None?)
      requires Finishes(err.job, err.ends && InputOver()) || (InQueue(err.job) && proc.waitWork.None? && out.job.None?)
      modifies handle, handle.table, proc, out, out.stream, out.stream.buffer, out.stream.fd,
               err, err.stream, err.stream.buffer, err.stream.fd
      ensures proc.waitWork.None? && !proc.outstanding && proc.reaps <= 1 && Left(out) && Left(err)
      ensures old(proc.waitWork.Some? && !proc.waitWork.value.phase.Queued?) ==> proc.child.Reaped?
      ensures (old(Taken(out.job)) ==> out.ReadOut()) && (old(Taken(err.job)) ==> err.ReadOut())
      ensures handle.table.fds == base && handle.table.badCloses == badCloses && C.Owned(handle.info) == {}
    {
      Join();
      CloseAll();
    }
  }

  /** Nothing points at the stream any more, neither the owner nor the pool. */
  predicate Left(c: Channel)
    reads c
  {
    c.job.None? && !c.outstanding
  }

  /** What communicate() gives for one stream: a reader queued by it, or found, has read all
      that was left unless a read failed; without one the text is empty. */
  ghost predicate Gave(a: View, b: View, text: string, submitted: bool) {
    && Onward(a, b) && Delivered(a, b, text) && b.job.None?
    && if a.job.Some? || (a.captured && submitted) then b.Whole() else text == ""
  }

  ghost predicate Communicated(sub: Submission, a: Moment, b: Moment, r: Result) {
    && b.info == Closed(a.info) && W.Follows(a.exit, b.exit) && b.exit.exitCode == Some(r.exitCode)
    && Gave(a.out, b.out, r.out, sub.out) && Gave(a.err, b.err, r.err, sub.err)
  }

  lemma BothParts(sub: Submission, a: Moment, m: Moment, b: Moment, r: Result)
    requires Began(sub, a, m) && Ended(m, b, r) && (a.out.failed ==> a.out.faulty) && (a.err.failed ==> a.err.faulty)
    ensures Communicated(sub, a, b, r)
  {
  }

  // ----- what a caller sees -----

  /** The first communicate() returns all that is left of the captured streams; the second
      returns nothing more, and the same exit code. */
  method CommunicateTwice(s: Session, first: Submission, second: Submission) returns (a: Result, b: Result)
    requires s.Valid() && first.out && first.err
    requires s.proc.WillEnd() && s.out.ends && s.err.ends
    modifies s.handle, s.handle.table, s.stdin, s.proc, s.out, s.out.stream, s.out.stream.buffer, s.out.stream.fd,
             s.err, s.err.stream, s.err.stream.buffer, s.err.stream.fd
    ensures s.Valid()
    ensures s.out.captured && !s.out.stream.fd.failed ==> a.out == s.out.Stream()[old(s.out.given)..] && b.out == ""
    ensures s.err.captured && !s.err.stream.fd.failed ==> a.err == s.err.Stream()[old(s.err.given)..] && b.err == ""
    ensures !s.out.captured ==> a.out == b.out == ""
    ensures !s.err.captured ==> a.err == b.err == ""
    ensures a.exitCode == b.exitCode == W.Decode(s.proc.fate) && s.proc.reaps == 1
  {
    a := s.Communicate(first);
    b := s.Communicate(second);
  }

  /** communicate() is Begin followed by End; the waiting calls go to the process object. */
  datatype Call = CloseStdin | TakeOut | TakeErr | Begin(sub: Submission) | Poll | End | Wait(op: W.Op)

  /** Collecting without a limit needs a child and streams that end. */
  ghost predicate Callable(call: Call, mortal: bool, ends: bool) {
    match call
    case End => mortal && ends
    case Wait(op) => W.Callable(op, mortal)
    case _ => true
  }

  /** What a call does and answers. */
  ghost predicate Does(call: Call, r: Reply, a: Moment, b: Moment) {
    match call
    case CloseStdin => r == SILENT && b == a.(info := Closed(a.info))
    case TakeOut => r == SILENT.(out := r.out) && TookOut(a, b, r.out)
    case TakeErr => r == SILENT.(err := r.err) && TookErr(a, b, r.err)
    case Begin(sub) => r == SILENT && Began(sub, a, b)
    case Poll => r == SILENT.(ready := r.ready) && Turned(a, b) && (r.ready <==> Ready(b.out.job) && Ready(b.err.job))
    case End => r.exit.Code? && !r.ready && Ended(a, b, Result(r.out, r.err, r.exit.code))
    case Wait(op) => r == SILENT.(exit := r.exit) && Waited(op, a, b, r.exit)
  }

  /** One of the first k calls closes stdin. */
  ghost predicate ClosedBefore(calls: seq<Call>, k: nat) {
    exists i :: 0 <= i < k && i < |calls| && Closes(calls[i])
  }

  predicate Closes(call: Call) { call.CloseStdin? || call.Begin? }

  method Perform(s: Session, call: Call) returns (r: Reply)
    requires s.Valid() && Callable(call, s.proc.mortal && s.InputOver(), s.out.ends && s.err.ends)
    modifies s.handle, s.handle.table, s.stdin, s.proc, s.out, s.out.stream, s.out.stream.buffer, s.out.stream.fd,
             s.err, s.err.stream, s.err.stream.buffer, s.err.stream.fd
    ensures s.Valid() && Does(call, r, old(s.Now()), s.Now())
    ensures W.Fits(s.proc.fate, old(s.Now()).exit, r.exit, s.Now().exit)
  {
    r := SILENT;
    match call {
      case CloseStdin => s.CloseStdin();
      case TakeOut =>
        var text := s.TakeOut();
        r := r.(out := text);
      case TakeErr =>
        var text := s.TakeErr();
        r := r.(err := text);
      case Begin(sub) => s.BeginCommunicate(sub);
      case Poll =>
        var ready := s.PollCommunicate();
        r := r.(ready := ready);
      case End =>
        var result := s.EndCommunicate();
        r := Reply(result.out, result.err, W.Code(result.exitCode), false);
      case Wait(op) =>
        var exit := s.WaitCall(op);
        r := r.(exit := exit);
    }
  }

  /** Every reply is what its call did between one moment and the next. */
  ghost predicate Logged(fate: W.Fate, calls: seq<Call>, replies: seq<Reply>, log: seq<Moment>) {
    && |replies| == |calls| && |log| == |calls| + 1
    && forall k :: 0 <= k < |calls| ==> Stands(fate, calls[k], replies[k], log[k], log[k + 1])
  }

  ghost predicate Stands(fate: W.Fate, call: Call, r: Reply, a: Moment, b: Moment) {
    Does(call, r, a, b) && W.Fits(fate, a.exit, r.exit, b.exit)
  }

  lemma LoggedMore(fate: W.Fate, calls: seq<Call>, replies: seq<Reply>, log: seq<Moment>, call: Call, r: Reply,
                   m: Moment)
    requires Logged(fate, calls, replies, log) && Stands(fate, call, r, log[|calls|], m)
    ensures Logged(fate, calls + [call], replies + [r], log + [m])
  {
  }

  /** Stdin stays closed once a call has closed it. */
  lemma {:induction false} ClosedBy(fate: W.Fate, calls: seq<Call>, k: nat, replies: seq<Reply>, log: seq<Moment>)
    requires k <= |calls| && Logged(fate, calls[..k], replies, log)
    requires log[0].info.stdinClosed || ClosedBefore(calls, k)
    ensures log[k].info.stdinClosed
    decreases k
  {
    if k > 0 {
      var n := k - 1;
      assert calls[..k][..n] == calls[..n] && calls[..k][n] == calls[n];
      if log[0].info.stdinClosed || ClosedBefore(calls, n) {
        ClosedBy(fate, calls, n, replies[..n], log[..n + 1]);
      }
      assert Does(calls[n], replies[n], log[n], log[n + 1]);
    }
  }

  datatype Which = Out | Err

  function On(m: Moment, w: Which): View { if w.Out? then m.out else m.err }

  /** All the text the replies give for a stream. */
  function Text(replies: seq<Reply>, w: Which): string {
    if replies == [] then "" else
    var r := replies[|replies| - 1];
    Text(replies[..|replies| - 1], w) + (if w.Out? then r.out else r.err)
  }

  function Exits(replies: seq<Reply>): (answers: seq<W.Answer>)
    ensures |answers| == |replies|
  {
    if replies == [] then [] else Exits(replies[..|replies| - 1]) + [replies[|replies| - 1].exit]
  }

  /** A reader was queued for the stream, and collected later. */
  ghost predicate Collects(calls: seq<Call>, w: Which) {
    exists i, j :: 0 <= i < j < |calls| && Submits(calls[i], w) && calls[j].End?
  }

  predicate Submits(call: Call, w: Which) {
    call.Begin? && if w.Out? then call.sub.out else call.sub.err
  }

  predicate Sane(v: View) { v.given <= |v.data| && (v.failed ==> v.faulty) && (v.job.Some? ==> v.captured) }

  /** One step, as one stream sees it. */
  lemma StepOn(call: Call, r: Reply, a: Moment, b: Moment, w: Which)
    requires Does(call, r, a, b) && Sane(On(a, w))
    ensures Delivered(On(a, w), On(b, w), if w.Out? then r.out else r.err) && Sane(On(b, w))
    ensures On(b, w).captured == On(a, w).captured && On(b, w).faulty == On(a, w).faulty
    ensures On(a, w).Whole() ==> On(b, w).Whole()
    ensures On(a, w).job.Some? ==> On(b, w).job.Some? || On(b, w).Whole()
    ensures On(a, w).captured && Submits(call, w) ==> On(b, w).job.Some?
    ensures call.End? && On(a, w).job.Some? ==> On(b, w).Whole()
  {
  }

  lemma DeliveredMore(a: View, b: View, c: View, text: string, more: string)
    requires Delivered(a, b, text) && Delivered(b, c, more)
    ensures Delivered(a, c, text + more)
  {
  }

  /** The texts of the replies joined are the stream, in order and without a gap. */
  lemma {:induction false} TextsJoined(fate: W.Fate, calls: seq<Call>, replies: seq<Reply>, log: seq<Moment>,
                                       w: Which)
    requires Logged(fate, calls, replies, log) && Sane(On(log[0], w))
    ensures var a, b := On(log[0], w), On(log[|calls|], w);
            && Delivered(a, b, Text(replies, w)) && Sane(b)
            && b.captured == a.captured && b.faulty == a.faulty
    decreases |calls|
  {
    if calls != [] {
      var n := |calls| - 1;
      TextsJoined(fate, calls[..n], replies[..n], log[..n + 1], w);
      StepOn(calls[n], replies[n], log[n], log[n + 1], w);
      var r := replies[n];
      DeliveredMore(On(log[0], w), On(log[n], w), On(log[n + 1], w), Text(replies[..n], w),
                    if w.Out? then r.out else r.err);
    }
  }

  /** From a submission on a job is pending or nothing is missing, and behind a collection
      nothing is. */
  lemma {:induction false} CollectedUpTo(fate: W.Fate, calls: seq<Call>, replies: seq<Reply>, log: seq<Moment>,
                                         w: Which, i: nat, j: nat, k: nat)
    requires Logged(fate, calls, replies, log) && Sane(On(log[0], w)) && On(log[0], w).captured
    requires i < j < |calls| && Submits(calls[i], w) && calls[j].End? && i < k <= |calls|
    ensures On(log[k], w).job.Some? || On(log[k], w).Whole()
    ensures k > j ==> On(log[k], w).Whole()
    decreases k
  {
    var n := k - 1;
    TextsJoined(fate, calls[..n], replies[..n], log[..n + 1], w);
    if n > i {
      CollectedUpTo(fate, calls, replies, log, w, i, j, n);
    }
    StepOn(calls[n], replies[n], log[n], log[n + 1], w);
  }

  /** Whatever else is called in between: a captured stream whose reader was queued and later
      collected has been handed over whole, unless a read failed. */
  lemma CollectedWhole(fate: W.Fate, calls: seq<Call>, replies: seq<Reply>, log: seq<Moment>, w: Which)
    requires Logged(fate, calls, replies, log) && Sane(On(log[0], w)) && On(log[0], w).captured && Collects(calls, w)
    ensures On(log[|calls|], w).Whole()
  {
    var i, j :| 0 <= i < j < |calls| && Submits(calls[i], w) && calls[j].End?;
    CollectedUpTo(fate, calls, replies, log, w, i, j, |calls|);
  }

  /** No answer about the exit contradicts an earlier one or the child. */
  lemma {:induction false} ExitsTruthful(fate: W.Fate, calls: seq<Call>, replies: seq<Reply>, log: seq<Moment>)
    requires Logged(fate, calls, replies, log)
    ensures W.TruthfulUpTo(fate, Exits(replies), log[|calls|].exit)
    decreases |calls|
  {
    if calls != [] {
      var n := |calls| - 1;
      ExitsTruthful(fate, calls[..n], replies[..n], log[..n + 1]);
      W.TruthfulMore(fate, Exits(replies[..n]), log[n].exit, replies[n].exit, log[n + 1].exit);
    }
  }

  /** What a caller can rely on between the first moment and the last. */
  ghost predicate Complete(calls: seq<Call>, replies: seq<Reply>, a: View, b: View, w: Which) {
    && Delivered(a, b, Text(replies, w))
    && (a.captured && Collects(calls, w) ==> b.Whole())
    && (b.failed ==> a.faulty)
  }

  /** Any sequence of reads, waits and communicate calls, whole or in parts, under any
      interleaving: what the caller got is the stream, in order, and nothing of it is missing
      once a reader was queued and collected; every reply is what its call says of the
      process at that time, and none about the exit contradicts an earlier one.  A stream is
      read only while no job holds it. */
  method Client(s: Session, calls: seq<Call>) returns (replies: seq<Reply>, ghost log: seq<Moment>)
    requires s.Valid()
    requires forall k :: 0 <= k < |calls| ==>
               Callable(calls[k], s.proc.mortal && (s.needsEof ==> s.handle.info.stdinClosed || ClosedBefore(calls, k)),
                        s.out.ends && s.err.ends)
    modifies s.handle, s.handle.table, s.stdin, s.proc, s.out, s.out.stream, s.out.stream.buffer, s.out.stream.fd,
             s.err, s.err.stream, s.err.stream.buffer, s.err.stream.fd
    ensures s.Valid() && s.proc.reaps <= 1
    ensures Logged(s.proc.fate, calls, replies, log) && log[0] == old(s.Now()) && log[|calls|] == s.Now()
    ensures Complete(calls, replies, old(s.out.Seen()), s.out.Seen(), Out)
    ensures Complete(calls, replies, old(s.err.Seen()), s.err.Seen(), Err)
    ensures W.Truthful(s.proc.fate, Exits(replies))
  {
    replies, log := [], [s.Now()];
    for k := 0 to |calls|
      invariant s.Valid()
      invariant Logged(s.proc.fate, calls[..k], replies, log) && log[0] == old(s.Now()) && log[k] == s.Now()
    {
      assert calls[..k + 1] == calls[..k] + [calls[k]];
      if log[0].info.stdinClosed || ClosedBefore(calls, k) {
        ClosedBy(s.proc.fate, calls, k, replies, log);
      }
      var r := Perform(s, calls[k]);
      LoggedMore(s.proc.fate, calls[..k], replies, log, calls[k], r, s.Now());
      replies, log := replies + [r], log + [s.Now()];
    }
    assert calls[..|calls|] == calls;
    LogComplete(s.proc.fate, calls, replies, log);
  }

  lemma LogComplete(fate: W.Fate, calls: seq<Call>, replies: seq<Reply>, log: seq<Moment>)
    requires Logged(fate, calls, replies, log) && Sane(log[0].out) && Sane(log[0].err)
    ensures Complete(calls, replies, log[0].out, log[|calls|].out, Out)
    ensures Complete(calls, replies, log[0].err, log[|calls|].err, Err)
    ensures W.Truthful(fate, Exits(replies))
  {
    forall w: Which
      ensures Complete(calls, replies, On(log[0], w), On(log[|calls|], w), w)
    {
      TextsJoined(fate, calls, replies, log, w);
      if On(log[0], w).captured && Collects(calls, w) {
        CollectedWhole(fate, calls, replies, log, w);
      }
    }
    assert Complete(calls, replies, On(log[0], Out), On(log[|calls|], Out), Out);
    assert Complete(calls, replies, On(log[0], Err), On(log[|calls|], Err), Err);
    ExitsTruthful(fate, calls, replies, log);
  }

  /** The outside of one process: how the child ends and what it writes, whether it waits for
      the end of its input, and how everybody else moves. */
  datatype Outside = Outside(fate: W.Fate, script: seq<seq<A.Event>>, needsEof: bool,
                             out: string, outReads: seq<S.Answer>, err: string, errReads: seq<S.Answer>)

  /** What comes through a stream: nothing if it reads from FD_INVALID. */
  function Through(captured: bool, data: string): string { if captured then data else "" }

  /** A channel nobody has used. */
  ghost function Unused(captured: bool, data: string, chunks: seq<S.Answer>): View {
    View(captured, true, captured && S.Fail in chunks, Through(captured, data), 0, None, false)
  }

  /** A process object nobody has used. */
  ghost function AtStart(s: D.Startup, k: C.Kernel, world: Outside): Moment
    requires C.Granted(s, k)
  {
    Moment(Unused(s.PipesStdout(), world.out, world.outReads), Unused(s.PipesStderr(), world.err, world.errReads),
           W.View(None, false, W.Running, 0, false), C.ParentEnds(s, k))
  }

  method MakeChannel(data: string, chunks: seq<S.Answer>, captured: bool) returns (c: Channel)
    ensures fresh(c) && fresh(c.stream) && fresh(c.stream.buffer) && fresh(c.stream.fd)
    ensures c.Valid() && c.Seen() == Unused(captured, data, chunks)
  {
    var source := new S.Source(Through(captured, data), if captured then chunks else []);
    var stream := new S.FdInBuf(source);
    c := new Channel(stream, captured, true);
  }

  /** Two of them, with nothing in common. */
  method MakeChannels(s: D.Startup, world: Outside) returns (out: Channel, err: Channel)
    ensures fresh(out) && fresh(out.stream) && fresh(out.stream.buffer) && fresh(out.stream.fd)
    ensures fresh(err) && fresh(err.stream) && fresh(err.stream.buffer) && fresh(err.stream.fd)
    ensures out != err && out.stream != err.stream
    ensures out.stream.buffer != err.stream.buffer && out.stream.fd != err.stream.fd
    ensures out.Valid() && out.Seen() == Unused(s.PipesStdout(), world.out, world.outReads)
    ensures err.Valid() && err.Seen() == Unused(s.PipesStderr(), world.err, world.errReads)
  {
    out := MakeChannel(world.out, world.outReads, s.PipesStdout());
    err := MakeChannel(world.err, world.errReads, s.PipesStderr());
  }

  lemma OwnsAtStart(s: D.Startup, k: C.Kernel, before: D.Fds, after: D.Fds, info: C.Info)
    requires C.HandedOver(s, k, before, after, info) && C.Fresh(k, before)
    ensures Owns(info, after, before)
    ensures info.stdout != D.FD_INVALID <==> s.PipesStdout()
    ensures info.stderr != D.FD_INVALID <==> s.PipesStderr()
  {
    assert info.stdin != D.FD_INVALID ==> info.stdin in C.New(k.stdin);
    assert info.stdout != D.FD_INVALID ==> info.stdout in C.New(k.stdout);
    assert info.stderr != D.FD_INVALID ==> info.stderr in C.New(k.stderr);
    assert s.PipesStdout() ==> k.stdout.r in C.New(k.stdout);
    assert s.PipesStderr() ==> k.stderr.r in C.New(k.stderr);
  }

  /** create_process and the handle on what it hands over. */
  method MakeHandle(t: D.FdTable, s: D.Startup, k: C.Kernel) returns (handle: C.Handle)
    requires C.Fresh(k, t.fds) && s.TargetsOpen(t.fds) && C.Succeeds(s, k)
    requires forall fd :: fd in t.fds ==> 0 <= fd <= D.MAX_UINT
    modifies t
    ensures fresh(handle) && handle.table == t && t.badCloses == old(t.badCloses)
    ensures Owns(handle.info, t.fds, old(t.fds)) && handle.info == C.ParentEnds(s, k)
    ensures handle.info.stdout != D.FD_INVALID <==> s.PipesStdout()
    ensures handle.info.stderr != D.FD_INVALID <==> s.PipesStderr()
  {
    ghost var before := t.fds;
    var r, _ := C.Create(t, s, k);
    OwnsAtStart(s, k, before, t.fds, r.info);
    handle := new C.Handle(t, r.info);
  }

  /** create_process and the object built on what it hands over. */
  method Start(t: D.FdTable, s: D.Startup, k: C.Kernel, world: Outside) returns (session: Session)
    requires C.Fresh(k, t.fds) && s.TargetsOpen(t.fds) && C.Succeeds(s, k)
    requires forall fd :: fd in t.fds ==> 0 <= fd <= D.MAX_UINT
    modifies t
    ensures fresh(session) && fresh(session.handle) && session.handle.table == t
    ensures fresh(session.stdin) && fresh(session.proc)
    ensures fresh(session.out) && fresh(session.out.stream)
    ensures fresh(session.out.stream.buffer) && fresh(session.out.stream.fd)
    ensures fresh(session.err) && fresh(session.err.stream)
    ensures fresh(session.err.stream.buffer) && fresh(session.err.stream.fd)
    ensures session.Valid() && session.Now() == AtStart(s, k, world)
    ensures session.base == old(t.fds) && session.badCloses == old(t.badCloses)
    ensures session.proc.fate == world.fate && session.proc.mortal && session.needsEof == world.needsEof
  {
    var channelOut, channelErr := MakeChannels(s, world);
    var process := new W.Process(world.fate, true, world.script);
    var sink := new S.Sink([]);
    var stdin := new S.FdOutBuf(sink);
    ghost var base := t.fds;
    var handle := MakeHandle(t, s, k);
    session := new Session(handle, process, stdin, channelOut, channelErr, base, world.needsEof);
  }

  /** What a caller got of one stream in the end: the beginning of what the child wrote to it,
      and all of it if a reader was queued and collected and no read fails. */
  ghost predicate Got(calls: seq<Call>, replies: seq<Reply>, w: Which, captured: bool, data: string,
                      chunks: seq<S.Answer>)
  {
    && Text(replies, w) <= Through(captured, data)
    && (captured && Collects(calls, w) && S.Fail !in chunks ==> Text(replies, w) == data)
  }

  lemma CompleteGot(calls: seq<Call>, replies: seq<Reply>, b: View, w: Which, captured: bool, data: string,
                    chunks: seq<S.Answer>)
    requires Complete(calls, replies, Unused(captured, data, chunks), b, w)
    ensures Got(calls, replies, w, captured, data, chunks)
  {
  }

  lemma WholeLife(s: D.Startup, k: C.Kernel, world: Outside, calls: seq<Call>, replies: seq<Reply>, log: seq<Moment>)
    requires C.Granted(s, k) && Logged(world.fate, calls, replies, log) && log[0] == AtStart(s, k, world)
    requires Complete(calls, replies, log[0].out, log[|calls|].out, Out)
    requires Complete(calls, replies, log[0].err, log[|calls|].err, Err)
    ensures Got(calls, replies, Out, s.PipesStdout(), world.out, world.outReads)
    ensures Got(calls, replies, Err, s.PipesStderr(), world.err, world.errReads)
    ensures ClosedBefore(calls, |calls|) ==> log[|calls|].info.stdinClosed
  {
    CompleteGot(calls, replies, log[|calls|].out, Out, s.PipesStdout(), world.out, world.outReads);
    CompleteGot(calls, replies, log[|calls|].err, Err, s.PipesStderr(), world.err, world.errReads);
    assert calls[..|calls|] == calls;
    if ClosedBefore(calls, |calls|) {
      ClosedBy(world.fate, calls, |calls|, replies, log);
    }
  }

  /** From create_process over any calls to the destructor: the table is as before, every
      descriptor opened has been closed exactly once and only after the jobs were joined;
      every reply is what its call did, from an unused object with the parent's pipe ends
      on, and the texts are what the child wrote. */
  method Lifetime(t: D.FdTable, s: D.Startup, k: C.Kernel, world: Outside, calls: seq<Call>)
      returns (replies: seq<Reply>, ghost log: seq<Moment>)
    requires C.Fresh(k, t.fds) && s.TargetsOpen(t.fds) && C.Succeeds(s, k)
    requires forall fd :: fd in t.fds ==> 0 <= fd <= D.MAX_UINT
    requires forall k :: 0 <= k < |calls| ==> Callable(calls[k], world.needsEof ==> ClosedBefore(calls, k), true)
    requires world.needsEof ==> ClosedBefore(calls, |calls|)
    modifies t
    ensures t.fds == old(t.fds) && t.badCloses == old(t.badCloses)
    ensures Logged(world.fate, calls, replies, log) && log[0] == AtStart(s, k, world)
    ensures Got(calls, replies, Out, s.PipesStdout(), world.out, world.outReads)
    ensures Got(calls, replies, Err, s.PipesStderr(), world.err, world.errReads)
    ensures W.Truthful(world.fate, Exits(replies))
  {
    var session := Start(t, s, k, world);
    replies, log := Client(session, calls);
    WholeLife(s, k, world, calls, replies, log);
    session.Destroy();
  }
}
