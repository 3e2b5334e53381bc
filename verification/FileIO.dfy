// Deadline-bounded file reads and writes: one libuv request at a time, a worker
// thread, a cancel that races with it, and the positions kept by mpp::file.

module FileIO {

  import opened Common

  const UV_ECANCELED := -125
  const UV_EBUSY := -16
  /** Error results are negated errno values. */
  const MIN_ERROR := -4095
  const UINT_MAX := 0xFFFF_FFFF
  const INT_MAX := 0x7FFF_FFFF

  /** static_cast<int> of the request's ssize_t result. */
  function ToInt(n: int): (r: int)
    ensures -INT_MAX - 1 <= r <= INT_MAX
    ensures -INT_MAX - 1 <= n <= INT_MAX ==> r == n
    ensures 0 <= n <= UINT_MAX && r > 0 ==> r == n
  {
    (n + INT_MAX + 1) % (UINT_MAX + 1) - INT_MAX - 1
  }

  /** An offset of -1 stands for the end of the file. */
  datatype Request = Read(offset: nat, size: nat) | Write(at: int, data: string) | Sync

  datatype Phase = Idle | Queued | Running | Performed | Cancelled | Delivered

  /** How the operating system answers: so many bytes, or an error after which a write
      may have left anything in the range it was given. */
  datatype Answer = Bytes(n: nat) | Error(code: int, debris: string)

  /** What the clock and the worker do on their own. */
  datatype Event = Tick(ms: nat) | Take | Perform(answer: Answer)

  /** pwrite: bytes past the end are filled with NUL. */
  function Overwrite(contents: string, at: nat, data: string): (r: string)
    ensures |r| >= |contents|
    ensures at <= |contents| ==> |r| >= at + |data| && r[..at + |data|] == contents[..at] + data
    ensures at == |contents| ==> r == contents + data
    ensures data == "" && at <= |contents| ==> r == contents
  {
    var padded := contents + seq(if at > |contents| then at - |contents| else 0, _ => '\0');
    var rest := if at + |data| < |padded| then padded[at + |data|..] else "";
    padded[..at] + data + rest
  }

  function Where(req: Request, contents: string): nat
    requires req.Write?
  {
    if req.at < 0 then |contents| else req.at
  }

  /** Everything a request may have done to the file by the time it has a result. */
  ghost predicate Outcome(req: Request, before: string, after: string, buffer: string, raw: int) {
    raw >= MIN_ERROR &&
    match req
    case Read(offset, size) =>
      && after == before
      && (raw >= 0 ==> |buffer| == raw <= size && offset + raw <= (if offset > |before| then offset else |before|))
      && (raw > 0 ==> buffer == before[offset..offset + raw])
      && (raw == 0 && size > 0 ==> offset >= |before|)
    case Write(_, data) =>
      && raw <= |data|
      && exists written: string :: Wrote(req, before, after, written) && (raw >= 0 ==> written == data[..raw])
    case Sync => after == before && buffer == ""
  }

  ghost predicate Wrote(req: Request, before: string, after: string, written: string)
    requires req.Write?
  {
    |written| <= |req.data| && after == Overwrite(before, Where(req, before), written)
  }

  /** Whatever becomes of a write, the bytes in front of it stay, and an acknowledged
      prefix stands behind them. */
  lemma WriteLeaves(req: Request, before: string, after: string, buffer: string, raw: int)
    requires req.Write? && Where(req, before) <= |before| && Outcome(req, before, after, buffer, raw)
    ensures var at := Where(req, before);
            && |after| >= |before| && after[..at] == before[..at]
            && (raw >= 0 ==> at + raw <= |after| && after[..at + raw] == before[..at] + req.data[..raw])
            && (raw >= 0 && at == |before| ==> after == before + req.data[..raw])
  {
    var at := Where(req, before);
    var written: string :| Wrote(req, before, after, written) && (raw >= 0 ==> written == req.data[..raw]);
    assert after[..at] == after[..at + |written|][..at];
  }

  /** When the wait for a request began, when the request was cancelled if it was, in time or
      not, and when the loop last came back without it. */
  datatype Times = Times(begun: nat, cancelled: Option<nat>, idle: Option<nat>)
  {
    predicate Late() { cancelled.Some? }

    /** Cancelled only by a deadline that had passed, and spared only if it had not when the
        loop last came back empty; a negative deadline never passes. */
    predicate Within(deadlineMs: int) {
      && (cancelled.Some? ==> deadlineMs >= 0 && cancelled.value >= begun + deadlineMs)
      && (cancelled.None? && deadlineMs >= 0 && idle.Some? ==> idle.value < begun + deadlineMs)
    }
  }

  /** A request carried through to its callback, and the result stored. */
  datatype Served = Served(req: Request, result: int, times: Times)

  /** The time that passes in a burst. */
  function Ticks(burst: seq<Event>): nat
    decreases |burst|
  {
    if burst == [] then 0 else (if burst[0].Tick? then burst[0].ms else 0) + Ticks(burst[1..])
  }

  /** The time that passes until the loop is next looked at. */
  function Lag(script: seq<seq<Event>>): nat { if script == [] then 0 else Ticks(script[0]) }

  lemma {:induction false} TicksMore(burst: seq<Event>, i: nat)
    requires i < |burst|
    ensures Ticks(burst[..i + 1]) == Ticks(burst[..i]) + if burst[i].Tick? then burst[i].ms else 0
    decreases i
  {
    var head := burst[..i + 1];
    if i == 0 {
      assert head[1..] == [] && burst[..0] == [];
    } else {
      assert head[1..] == burst[1..][..i] && burst[..i][1..] == burst[1..][..i - 1];
      TicksMore(burst[1..], i - 1);
    }
  }

  /** The file on disk, the loop, and the one request bundle. */
  class Loop {
    var contents: string
    var req: Request
    var phase: Phase
    var raw: int
    var buffer: string
    var clock: nat
    var script: seq<seq<Event>>

    // the bundle's state
    var done: bool
    var result: int

    var callbacks: nat
    var cancelWon: bool
    ghost var before: string
    ghost var times: Times
    /** All requests so far. */
    ghost var history: seq<Served>

    constructor (contents: string, script: seq<seq<Event>>)
      ensures Valid() && InFlight() == false && this.contents == contents
    {
      this.contents, this.script := contents, script;
      req, phase, raw, buffer, clock := Sync, Idle, 0, "", 0;
      done, result, callbacks, cancelWon, before := false, UV_ECANCELED, 0, false, contents;
      times, history := Times(0, None, None), [];
    }

    predicate InFlight()
      reads this
    {
      !phase.Idle? && !phase.Delivered?
    }

    ghost predicate Valid()
      reads this
    {
      && (phase.Queued? || phase.Running? ==> contents == before && !cancelWon)
      && (phase.Performed? ==> Outcome(req, before, contents, buffer, raw) && !cancelWon)
      && (phase.Cancelled? ==> cancelWon)
      && (phase.Delivered? ==> done && callbacks == 1 && result == ToInt(raw))
      && (phase.Delivered? && !cancelWon ==> Outcome(req, before, contents, buffer, raw))
      && (cancelWon ==> contents == before && raw == UV_ECANCELED && times.Late())
      && (InFlight() ==> !done && callbacks == 0 && result == UV_ECANCELED)
    }

    ghost function Delay(): nat
      reads this
    {
      |script| + if phase.Queued? || phase.Running? then 1 else 0
    }

    // ----- the worker and the clock -----

    /** The operating system carries the request out. */
    method Serve(answer: Answer)
      requires Valid() && phase.Running?
      modifies this`contents, this`phase, this`raw, this`buffer
      ensures Valid() && phase.Performed?
    {
      buffer := "";
      if answer.Error? {
        raw := if MIN_ERROR <= answer.code < 0 then answer.code else -1;
        if req.Write? {
          var junk := if |answer.debris| <= |req.data| then answer.debris else answer.debris[..|req.data|];
          contents := Overwrite(contents, Where(req, contents), junk);
          assert Wrote(req, before, contents, junk);
        }
      } else if req.Read? {
        var rest := if req.offset < |contents| then |contents| - req.offset else 0;
        var most := if req.size < rest then req.size else rest;
        raw := if most == 0 then 0 else if answer.n == 0 then 1 else if answer.n < most then answer.n else most;
        buffer := if raw > 0 then contents[req.offset..req.offset + raw] else "";
      } else if req.Write? {
        raw := if answer.n < |req.data| then answer.n else |req.data|;
        contents := Overwrite(contents, Where(req, contents), req.data[..raw]);
        assert Wrote(req, before, contents, req.data[..raw]);
      } else {
        raw := 0;
      }
      phase := Performed;
    }

    method Move(e: Event)
      requires Valid()
      modifies this`contents, this`phase, this`raw, this`buffer, this`clock
      ensures Valid() && clock == old(clock) + if e.Tick? then e.ms else 0
      ensures phase == old(phase) || (old(phase).Queued? && phase.Running?) || (old(phase).Running? && phase.Performed?)
      ensures e.Take? ==> !phase.Queued?
      ensures e.Perform? && old(phase).Running? ==> phase.Performed?
    {
      match e {
        case Tick(ms) => clock := clock + ms;
        case Take =>
          if phase.Queued? {
            phase := Running;
          }
        case Perform(answer) =>
          if phase.Running? {
            Serve(answer);
          }
      }
    }

    /** One burst of the script; when it has run out, the request is carried out. */
    method Others()
      requires Valid()
      modifies this`contents, this`phase, this`raw, this`buffer, this`clock, this`script
      ensures Valid() && clock == old(clock) + Lag(old(script))
      ensures script == if old(script) == [] then [] else old(script)[1..]
      ensures InFlight() == old(InFlight())
      ensures phase.Cancelled? == old(phase).Cancelled? && phase.Idle? == old(phase).Idle?
      ensures Delay() < old(Delay()) || (Delay() == 0 && !phase.Queued? && !phase.Running?)
    {
      var burst := [Take, Perform(Bytes(UINT_MAX))];
      if script != [] {
        burst := script[0];
        script := script[1..];
        for i := 0 to |burst|
          invariant Valid() && clock == old(clock) + Ticks(burst[..i]) && script == old(script)[1..]
          invariant InFlight() == old(InFlight())
          invariant phase.Cancelled? == old(phase).Cancelled? && phase.Idle? == old(phase).Idle?
          invariant old(phase.Queued? || phase.Running?) || !(phase.Queued? || phase.Running?)
        {
          TicksMore(burst, i);
          Move(burst[i]);
        }
        assert burst[..|burst|] == burst;
      } else {
        Move(burst[0]);
        Move(burst[1]);
      }
    }

    // ----- libuv -----

    /** Only when nothing is in flight may a request be queued. */
    method Submit(r: Request)
      requires Valid() && !InFlight()
      modifies this`req, this`phase, this`raw, this`buffer, this`done, this`result,
               this`callbacks, this`cancelWon, this`before, this`times
      ensures Valid() && phase.Queued? && req == r && before == contents && times == Times(clock, None, None)
    {
      req, phase, raw, buffer := r, Queued, 0, "";
      done, result, callbacks, cancelWon := false, UV_ECANCELED, 0, false;
      before, times := contents, Times(clock, None, None);
    }

    /** What goes on record about the request. */
    ghost function Record(): Served
      reads this
    {
      Served(req, result, times)
    }

    /** uv_fs_complete. */
    method Complete()
      requires Valid() && (phase.Performed? || phase.Cancelled?)
      modifies this`result, this`done, this`callbacks, this`phase, this`history
      ensures Valid() && phase.Delivered? && history == old(history) + [Record()]
    {
      history := history + [Served(req, ToInt(raw), times)];
      result := ToInt(raw);
      done := true;
      callbacks := callbacks + 1;
      phase := Delivered;
    }

    /** uv_run(UV_RUN_NOWAIT): calls back what has finished by now. */
    method RunLoop()
      requires Valid() && InFlight()
      modifies this`contents, this`phase, this`raw, this`buffer, this`clock, this`script,
               this`result, this`done, this`callbacks, this`times, this`history
      ensures history == if done then old(history) + [Record()] else old(history)
      ensures Valid() && clock >= old(clock)
      ensures times == if done then old(times) else old(times).(idle := Some(clock))
      ensures !done ==> phase.Queued? || phase.Running?
      ensures InFlight() || phase.Delivered?
      ensures done <==> phase.Delivered?
      ensures Delay() < old(Delay()) || done
    {
      Others();
      if phase.Performed? || phase.Cancelled? {
        Complete();
      } else {
        times := times.(idle := Some(clock));
      }
    }

    /** uv_cancel: wins only against a request no worker has taken. */
    method Cancel() returns (rc: int)
      requires Valid() && InFlight() && !times.Late()
      modifies this`phase, this`raw, this`cancelWon, this`times
      ensures Valid() && InFlight() && times == old(times).(cancelled := Some(clock))
      ensures rc == 0 <==> old(phase).Queued?
      ensures rc == 0 ==> phase.Cancelled?
      ensures rc != 0 ==> rc == UV_EBUSY && phase == old(phase)
    {
      times := times.(cancelled := Some(clock));
      if phase.Queued? {
        phase, raw, cancelWon := Cancelled, UV_ECANCELED, true;
        return 0;
      }
      return UV_EBUSY;
    }

    // ----- uv_wait_fs_with_deadline -----

    /** The deadline counts from the time the wait begins, which is when the first burst
        behind the submission is over.  Late means that it had passed when it was last looked
        at; on time, that it had not when the loop last came back with nothing. */
    method WaitWithDeadline(deadlineMs: int) returns (onTime: bool)
      requires Valid() && InFlight() && times == Times(clock, None, None)
      modifies this`contents, this`phase, this`raw, this`buffer, this`clock, this`script,
               this`result, this`done, this`callbacks, this`cancelWon, this`times, this`history
      ensures history == old(history) + [Record()]
      ensures Valid() && phase.Delivered? && done && callbacks == 1 && (onTime <==> !times.Late())
      ensures times.begun == old(clock) + Lag(old(script)) && times.Within(deadlineMs)
      ensures cancelWon ==> !onTime && contents == before && result == UV_ECANCELED
      ensures !cancelWon ==> Outcome(req, before, contents, buffer, raw)
    {
      Others();
      times := Times(clock, None, None);
      onTime := Drive(deadlineMs);
    }

    /** The loop of the wait. */
    method Drive(deadlineMs: int) returns (onTime: bool)
      requires Valid() && InFlight() && times == Times(clock, None, None)
      modifies this`contents, this`phase, this`raw, this`buffer, this`clock, this`script,
               this`result, this`done, this`callbacks, this`cancelWon, this`times, this`history
      ensures history == old(history) + [Record()]
      ensures Valid() && phase.Delivered? && done && callbacks == 1 && (onTime <==> !times.Late())
      ensures times.begun == old(clock) && times.Within(deadlineMs)
    {
      var deadlineReached := false;
      var hasDeadline := deadlineMs >= 0;
      var deadline := clock + if hasDeadline then deadlineMs else 0;
      while !done
        invariant Valid() && (InFlight() || phase.Delivered?)
        invariant history == if done then old(history) + [Record()] else old(history)
        invariant times.begun == old(clock) && times.Within(deadlineMs) && (deadlineReached <==> times.Late())
        invariant done <==> phase.Delivered?
        decreases Delay(), !done
      {
        RunLoop();
        if done {
          break;
        }
        Others();
        if hasDeadline && !deadlineReached && clock >= deadline {
          deadlineReached := true;
          var rc := Cancel();
          if rc == 0 {
            continue;
          }
        }
      }
      onTime := !deadlineReached;
    }

    /** A request submitted and waited for. */
    method Carry(r: Request, deadlineMs: int) returns (onTime: bool)
      requires Valid() && !InFlight()
      modifies this
      ensures Valid() && !InFlight() && req == r && history == old(history) + [Record()]
      ensures (onTime <==> !times.Late()) && times.begun == old(clock + Lag(script)) && times.Within(deadlineMs)
      ensures if cancelWon then contents == old(contents) && result == UV_ECANCELED && !onTime
              else Outcome(r, old(contents), contents, buffer, raw) && result == ToInt(raw)
    {
      Submit(r);
      onTime := WaitWithDeadline(deadlineMs);
    }
  }

  // ----- mpp::file with the read, write and flush of the script binding -----

  /** What a file object and its disk look like between two calls, and when a wait that is
      started now begins to count. */
  datatype Status = Status(contents: string, readPos: nat, writePos: nat, closed: bool, fd: int,
                           history: seq<Served>, due: nat)

  /** How the file was opened. */
  datatype Mode = Mode(readable: bool, writable: bool, append: bool)

  /** No call reaches the disk without these. */
  predicate Reaches(allowed: bool, submitted: bool, closed: bool, fd: int) {
    allowed && !closed && fd >= 0 && submitted
  }

  /** Exactly one request was served, it was this one, and it was given its time. */
  ghost predicate OneServed(a: Status, b: Status, req: Request, deadlineMs: int, s: Served) {
    b.history == a.history + [s] && s.req == req && s.times.begun == a.due && s.times.Within(deadlineMs)
  }

  /** A read that reached the disk: data only if the result is positive and on time, and then
      the file's bytes at the old position; empty at the end; otherwise null, and the
      position stays. */
  ghost predicate Came(size: int, r: Option<string>, a: Status, b: Status, s: Served) {
    && b == a.(readPos := b.readPos, history := b.history, due := b.due) && s.result <= size
    && if s.result > 0 && !s.times.Late() then
         b.readPos == a.readPos + s.result <= |a.contents| && r == Some(a.contents[a.readPos..b.readPos])
       else if s.result == 0 then b.readPos == a.readPos >= |a.contents| && r == Some("")
       else b.readPos == a.readPos && r == None
  }

  ghost predicate DidRead(m: Mode, size: int, deadlineMs: int, submitted: bool, r: Option<string>,
                          a: Status, b: Status)
  {
    if size > 0 && Reaches(m.readable, submitted, a.closed, a.fd) then
      exists s :: OneServed(a, b, Request.Read(a.readPos, size), deadlineMs, s) && Came(size, r, a, b, s)
    else b == a && r == if m.readable && !a.closed && size <= 0 then Some("") else None
  }

  /** What of the data a write acknowledged. */
  function Taken(data: string, r: int): string { if 0 < r <= |data| then data[..r] else "" }

  /** A write that reached the disk: a late one is -1 whatever the disk did, and the
      position moves by exactly what is acknowledged. */
  ghost predicate Went(append: bool, data: string, r: int, a: Status, b: Status, s: Served) {
    && b == a.(contents := b.contents, writePos := b.writePos, history := b.history, due := b.due)
    && r == (if s.times.Late() then -1 else s.result) && r <= |data|
    && a.writePos <= |a.contents| <= |b.contents|
    && if append then
         b.writePos == a.writePos && a.contents <= b.contents
         && (r > 0 ==> b.contents == a.contents + Taken(data, r))
       else
         b.writePos == a.writePos + |Taken(data, r)| <= |b.contents|
         && b.contents[..b.writePos] == a.contents[..a.writePos] + Taken(data, r)
  }

  ghost predicate DidWrite(m: Mode, data: string, deadlineMs: int, submitted: bool, r: int, a: Status, b: Status) {
    if |data| <= 0xFFFF_FFFF && Reaches(m.writable, submitted, a.closed, a.fd) then
      exists s :: OneServed(a, b, Request.Write(if m.append then -1 else a.writePos, data), deadlineMs, s)
                  && Went(m.append, data, r, a, b, s)
    else b == a && r == -1
  }

  ghost predicate DidFlush(m: Mode, deadlineMs: int, submitted: bool, ok: bool, a: Status, b: Status) {
    if Reaches(m.writable, submitted, a.closed, a.fd) then
      exists s :: OneServed(a, b, Sync, deadlineMs, s)
                  && b == a.(history := b.history, due := b.due) && (ok <==> s.result >= 0 && !s.times.Late())
    else b == a && !ok
  }

  /** The first close alone releases the descriptor. */
  ghost predicate DidClose(released: int, a: Status, b: Status) {
    && b == a.(closed := true, fd := if released >= 0 then -1 else a.fd)
    && released == if !a.closed && a.fd >= 0 then a.fd else -1
  }

  class File {
    const loop: Loop
    const readable: bool
    const writable: bool
    const append: bool
    var closed: bool
    var fd: int
    var readPos: nat
    var writePos: nat

    constructor (loop: Loop, fd: int, readable: bool, writable: bool, append: bool)
      requires loop.Valid() && !loop.InFlight()
      ensures Valid() && this.loop == loop && Opened() == Mode(readable, writable, append)
      ensures Now() == Status(loop.contents, 0, 0, false, fd, loop.history, loop.clock + Lag(loop.script))
    {
      this.loop, this.fd := loop, fd;
      this.readable, this.writable, this.append := readable, writable, append;
      closed, readPos, writePos := false, 0, 0;
    }

    /** No request of an earlier call is still in flight. */
    ghost predicate Valid()
      reads this, loop
    {
      && loop.Valid() && !loop.InFlight()
      && writePos <= |loop.contents|
      && (append ==> writePos == 0)
    }

    ghost function Opened(): Mode { Mode(readable, writable, append) }

    ghost function Now(): Status
      reads this, loop
    {
      Status(loop.contents, readPos, writePos, closed, fd, loop.history, loop.clock + Lag(loop.script))
    }

    /** Idempotent: released is the descriptor closed by this call, or -1. */
    method CloseFile() returns (released: int)
      requires Valid()
      modifies this`closed, this`fd
      ensures Valid() && DidClose(released, old(Now()), Now())
    {
      if closed {
        return -1;
      }
      closed := true;
      released := -1;
      if fd >= 0 {
        released := fd;
        fd := -1;
      }
    }

    /** None is null: not readable, an error, or late. */
    method Read(size: int, deadlineMs: int, submitted: bool) returns (r: Option<string>)
      requires Valid() && size <= INT_MAX
      modifies this`readPos, loop
      ensures Valid() && DidRead(Opened(), size, deadlineMs, submitted, r, old(Now()), Now())
    {
      if !readable || closed {
        return None;
      }
      if size <= 0 {
        return Some("");
      }
      if fd < 0 {
        return None;
      }
      if !submitted {
        return None;
      }
      ghost var s;
      r, s := ReadThrough(size, deadlineMs);
    }

    /** The read once it is submitted. */
    method ReadThrough(size: nat, deadlineMs: int) returns (r: Option<string>, ghost s: Served)
      requires Valid() && 0 < size <= INT_MAX
      modifies this`readPos, loop
      ensures Valid() && OneServed(old(Now()), Now(), Request.Read(old(readPos), size), deadlineMs, s)
      ensures Came(size, r, old(Now()), Now(), s)
    {
      var onTime := loop.Carry(Request.Read(readPos, size), deadlineMs);
      var n := loop.result;
      s := loop.Record();
      if n > 0 {
        if !onTime {
          return None, s;
        }
        readPos := readPos + n;
        return Some(loop.buffer), s;
      }
      if n == 0 {
        return Some(""), s;
      }
      return None, s;
    }

    /** The bytes acknowledged, or a value below 1. */
    method Write(data: string, deadlineMs: int, submitted: bool) returns (r: int)
      requires Valid()
      modifies this`writePos, loop
      ensures Valid() && DidWrite(Opened(), data, deadlineMs, submitted, r, old(Now()), Now())
    {
      if !writable || closed {
        return -1;
      }
      if |data| > UINT_MAX {
        return -1;
      }
      if fd < 0 {
        return -1;
      }
      if !submitted {
        return -1;
      }
      ghost var s;
      r, s := WriteThrough(data, deadlineMs);
    }

    /** The write once it is submitted. */
    method WriteThrough(data: string, deadlineMs: int) returns (r: int, ghost s: Served)
      requires Valid() && |data| <= UINT_MAX
      modifies this`writePos, loop
      ensures Valid()
      ensures OneServed(old(Now()), Now(), Request.Write(if append then -1 else old(writePos), data), deadlineMs, s)
      ensures Went(append, data, r, old(Now()), Now(), s)
    {
      ghost var before := loop.contents;
      var onTime := loop.Carry(Request.Write(if append then -1 else writePos, data), deadlineMs);
      var result := loop.result;
      s := loop.Record();
      if !loop.cancelWon {
        WriteLeaves(loop.req, before, loop.contents, loop.buffer, loop.raw);
      }
      if result > 0 {
        if !onTime {
          return -1, s;
        }
        if !append {
          writePos := writePos + result;
        }
        return result, s;
      }
      if !onTime {
        return -1, s;
      }
      return result, s;
    }

    method Flush(deadlineMs: int, submitted: bool) returns (ok: bool)
      requires Valid()
      modifies loop
      ensures Valid() && DidFlush(Opened(), deadlineMs, submitted, ok, old(Now()), Now())
    {
      if !writable || closed {
        return false;
      }
      if fd < 0 || !submitted {
        return false;
      }
      var onTime := loop.Carry(Sync, deadlineMs);
      assert OneServed(old(Now()), Now(), Sync, deadlineMs, loop.Record());
      return loop.result >= 0 && onTime;
    }
  }

  // ----- any sequence of calls -----

  datatype Call =
    | ReadCall(size: int, deadlineMs: int, submitted: bool)
    | WriteCall(data: string, deadlineMs: int, submitted: bool)
    | FlushCall(deadlineMs: int, submitted: bool)
    | CloseCall

  datatype Reply = Text(text: Option<string>) | Count(n: int) | Flushed(ok: bool) | Released(fd: int)

  /** What a call does and answers. */
  ghost predicate Does(m: Mode, call: Call, r: Reply, a: Status, b: Status) {
    match call
    case ReadCall(size, deadlineMs, submitted) => r.Text? && DidRead(m, size, deadlineMs, submitted, r.text, a, b)
    case WriteCall(data, deadlineMs, submitted) => r.Count? && DidWrite(m, data, deadlineMs, submitted, r.n, a, b)
    case FlushCall(deadlineMs, submitted) => r.Flushed? && DidFlush(m, deadlineMs, submitted, r.ok, a, b)
    case CloseCall => r.Released? && DidClose(r.fd, a, b)
  }

  method Perform(f: File, call: Call) returns (r: Reply)
    requires f.Valid() && (call.ReadCall? ==> call.size <= INT_MAX)
    modifies f, f.loop
    ensures f.Valid() && Does(f.Opened(), call, r, old(f.Now()), f.Now())
  {
    match call {
      case ReadCall(size, deadlineMs, submitted) =>
        var text := f.Read(size, deadlineMs, submitted);
        r := Text(text);
      case WriteCall(data, deadlineMs, submitted) =>
        var n := f.Write(data, deadlineMs, submitted);
        r := Count(n);
      case FlushCall(deadlineMs, submitted) =>
        var ok := f.Flush(deadlineMs, submitted);
        r := Flushed(ok);
      case CloseCall =>
        var fd := f.CloseFile();
        r := Released(fd);
    }
  }

  /** Every reply is what its call did between one status and the next. */
  ghost predicate Logged(m: Mode, calls: seq<Call>, replies: seq<Reply>, log: seq<Status>) {
    && |replies| == |calls| && |log| == |calls| + 1
    && forall k :: 0 <= k < |calls| ==> Does(m, calls[k], replies[k], log[k], log[k + 1])
  }

  lemma LoggedMore(m: Mode, calls: seq<Call>, replies: seq<Reply>, log: seq<Status>, call: Call, r: Reply, b: Status)
    requires Logged(m, calls, replies, log) && Does(m, call, r, log[|calls|], b)
    ensures Logged(m, calls + [call], replies + [r], log + [b])
  {
  }

  /** All that the reads brought. */
  function Got(replies: seq<Reply>): string {
    if replies == [] then "" else Got(replies[..|replies| - 1]) + Brought(replies[|replies| - 1])
  }

  function Brought(r: Reply): string { if r.Text? && r.text.Some? then r.text.value else "" }

  /** All that the writes acknowledged, in order. */
  function Acknowledged(calls: seq<Call>, replies: seq<Reply>): string
    requires |calls| == |replies|
  {
    if calls == [] then "" else
    var n := |calls| - 1;
    Acknowledged(calls[..n], replies[..n]) + Accepted(calls[n], replies[n])
  }

  function Accepted(call: Call, r: Reply): string {
    if call.WriteCall? && r.Count? then Taken(call.data, r.n) else ""
  }

  /** The file is the same, and the text is what lies between the two read positions. */
  ghost predicate Passed(a: Status, b: Status, text: string) {
    && b.contents == a.contents && a.readPos <= b.readPos <= |a.contents|
    && text == a.contents[a.readPos..b.readPos]
  }

  lemma PassedMore(a: Status, b: Status, c: Status, text: string, more: string)
    requires Passed(a, b, text) && Passed(b, c, more)
    ensures Passed(a, c, text + more)
  {
  }

  lemma CallPasses(m: Mode, call: Call, r: Reply, a: Status, b: Status)
    requires Does(m, call, r, a, b) && !call.WriteCall? && a.readPos <= |a.contents|
    ensures Passed(a, b, Brought(r))
    ensures AtEnd(call, r) ==> b.readPos == |a.contents|
  {
  }

  /** An empty result for a positive size. */
  predicate AtEnd(call: Call, r: Reply) { call.ReadCall? && call.size > 0 && r == Text(Some("")) }

  /** The results of the reads joined are the file from the old position to the new one, and
      behind an empty one for a positive size the position is the end of the file. */
  lemma {:induction false} ReadsJoin(m: Mode, calls: seq<Call>, replies: seq<Reply>, log: seq<Status>)
    requires Logged(m, calls, replies, log) && forall k :: 0 <= k < |calls| ==> !calls[k].WriteCall?
    requires log[0].readPos <= |log[0].contents|
    ensures Passed(log[0], log[|calls|], Got(replies))
    ensures forall k :: 0 <= k < |calls| && AtEnd(calls[k], replies[k]) ==> log[|calls|].readPos == |log[0].contents|
    decreases |calls|
  {
    if calls != [] {
      var n := |calls| - 1;
      ReadsJoin(m, calls[..n], replies[..n], log[..n + 1]);
      assert forall k :: 0 <= k < n ==> calls[..n][k] == calls[k] && replies[..n][k] == replies[k];
      CallPasses(m, calls[n], replies[n], log[n], log[n + 1]);
      PassedMore(log[0], log[n], log[n + 1], Got(replies[..n]), Brought(replies[n]));
    }
  }

  /** The file up to the write position has grown by so much. */
  ghost predicate Grown(a: Status, b: Status, text: string) {
    && a.writePos <= |a.contents| && b.writePos <= |b.contents|
    && b.contents[..b.writePos] == a.contents[..a.writePos] + text
  }

  lemma GrownMore(a: Status, b: Status, c: Status, text: string, more: string)
    requires Grown(a, b, text) && Grown(b, c, more)
    ensures Grown(a, c, text + more)
  {
  }

  lemma CallGrows(m: Mode, call: Call, r: Reply, a: Status, b: Status)
    requires Does(m, call, r, a, b) && !m.append && a.writePos <= |a.contents|
    ensures Grown(a, b, Accepted(call, r))
  {
  }

  /** The file up to the write position is what was there plus the acknowledged prefixes. */
  lemma {:induction false} WritesJoin(m: Mode, calls: seq<Call>, replies: seq<Reply>, log: seq<Status>)
    requires Logged(m, calls, replies, log) && !m.append && log[0].writePos <= |log[0].contents|
    ensures Grown(log[0], log[|calls|], Acknowledged(calls, replies))
    decreases |calls|
  {
    if calls != [] {
      var n := |calls| - 1;
      WritesJoin(m, calls[..n], replies[..n], log[..n + 1]);
      CallGrows(m, calls[n], replies[n], log[n], log[n + 1]);
      GrownMore(log[0], log[n], log[n + 1], Acknowledged(calls[..n], replies[..n]), Accepted(calls[n], replies[n]));
    }
  }

  /** Without a deadline, as with one that has not passed, a request that was served is
      answered by its result alone. */
  ghost predicate Unwithheld(call: Call, r: Reply, a: Status, b: Status) {
    |b.history| > |a.history| ==>
      var s := b.history[|a.history|];
      && (call.ReadCall? ==> (r.Text? && (r.text.Some? <==> s.result >= 0)))
      && (call.WriteCall? ==> r == Count(s.result))
      && (call.FlushCall? ==> r == Flushed(s.result >= 0))
  }

  /** No result is withheld as late from a call without a deadline, and a call that was late
      had begun at least its deadline before it was cancelled. */
  lemma LateOnlyByDeadline(m: Mode, call: Call, r: Reply, a: Status, b: Status)
    requires Does(m, call, r, a, b) && !call.CloseCall?
    ensures call.deadlineMs < 0 ==> Unwithheld(call, r, a, b)
    ensures |b.history| > |a.history| ==>
              var s := b.history[|a.history|];
              && b.history == a.history + [s] && s.times.begun == a.due
              && if s.times.cancelled.None? then Unwithheld(call, r, a, b)
                 else s.times.cancelled.value >= a.due + call.deadlineMs
  {
  }

  /** Any sequence of calls, with any sizes, deadlines and race outcomes: each reply is what
      its call did, and a missing one is excused only by a file not open for it, a request
      that was not submitted, an error, or a deadline that passed. */
  method Client(f: File, calls: seq<Call>) returns (replies: seq<Reply>, ghost log: seq<Status>)
    requires f.Valid() && forall call :: call in calls && call.ReadCall? ==> call.size <= INT_MAX
    modifies f, f.loop
    ensures f.Valid() && Logged(f.Opened(), calls, replies, log) && log[0] == old(f.Now()) && log[|calls|] == f.Now()
    ensures forall k :: 0 <= k < |calls| && !calls[k].CloseCall? && calls[k].deadlineMs < 0 ==>
                          Unwithheld(calls[k], replies[k], log[k], log[k + 1])
    ensures !f.append ==> Grown(old(f.Now()), f.Now(), Acknowledged(calls, replies))
    ensures (forall call :: call in calls ==> !call.WriteCall?) && old(f.readPos) <= |old(f.loop.contents)| ==>
              Passed(old(f.Now()), f.Now(), Got(replies))
  {
    replies, log := [], [f.Now()];
    for k := 0 to |calls|
      invariant f.Valid() && Logged(f.Opened(), calls[..k], replies, log)
      invariant log[0] == old(f.Now()) && log[k] == f.Now()
    {
      assert calls[k] in calls && calls[..k + 1] == calls[..k] + [calls[k]];
      var r := Perform(f, calls[k]);
      LoggedMore(f.Opened(), calls[..k], replies, log, calls[k], r, f.Now());
      replies, log := replies + [r], log + [f.Now()];
    }
    assert calls[..|calls|] == calls;
    forall k | 0 <= k < |calls| && !calls[k].CloseCall? && calls[k].deadlineMs < 0
      ensures Unwithheld(calls[k], replies[k], log[k], log[k + 1])
    {
      LateOnlyByDeadline(f.Opened(), calls[k], replies[k], log[k], log[k + 1]);
    }
    if !f.append {
      WritesJoin(f.Opened(), calls, replies, log);
    }
    if (forall call :: call in calls ==> !call.WriteCall?) && log[0].readPos <= |log[0].contents| {
      ReadsJoin(f.Opened(), calls, replies, log);
    }
  }
}
