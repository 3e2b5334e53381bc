// create_process in the parent: binding the streams, the fork, the report on the fail
// pipe, the rollback, and the closes of the finished handle.

module CreateProcess {
  import opened Descriptors

  // ----- read_fully -----

  newtype byte = x: int | 0 <= x < 256

  /** One answer of read(2); an empty one is the end of the file. */
  datatype ReadAnswer = Data(bytes: seq<byte>) | Interrupted | Broken

  /** Everything the descriptor delivers before its end or its first real error. */
  function Flow(script: seq<ReadAnswer>): seq<byte> {
    if script == [] then []
    else match script[0]
      case Data(bytes) => if bytes == [] then [] else bytes + Flow(script[1..])
      case Interrupted => Flow(script[1..])
      case Broken => []
  }

  predicate EndsBroken(script: seq<ReadAnswer>) {
    script != [] && match script[0]
      case Data(bytes) => bytes != [] && EndsBroken(script[1..])
      case Interrupted => EndsBroken(script[1..])
      case Broken => true
  }

  /** However the bytes are split and interrupted: the first nbyte of them, fewer only at
      the end, and -1 only for an error before that many. */
  method ReadFully(script: seq<ReadAnswer>, nbyte: nat) returns (n: int, buf: seq<byte>)
    requires nbyte > 0
    ensures n == -1 <==> |Flow(script)| < nbyte && EndsBroken(script)
    ensures n != -1 ==> n == |buf| == (if |Flow(script)| < nbyte then |Flow(script)| else nbyte)
    ensures n != -1 ==> buf <= Flow(script)
  {
    var remaining := nbyte;
    buf := [];
    for k := 0 to |script|
      invariant 0 < remaining <= nbyte && |buf| == nbyte - remaining
      invariant buf + Flow(script[k..]) == Flow(script)
      invariant EndsBroken(script[k..]) <==> EndsBroken(script)
    {
      assert script[k..][1..] == script[k + 1..];
      match script[k] {
        case Data(bytes) =>
          var got := if |bytes| <= remaining then bytes else bytes[..remaining];
          if |got| == 0 {
            assert Flow(script[k..]) == [] && !EndsBroken(script[k..]);
            return nbyte - remaining, buf;
          }
          ghost var rest := Flow(script[k + 1..]);
          assert buf + (bytes + rest) == (buf + bytes) + rest;
          assert got <= bytes;
          assert buf + got <= Flow(script);
          buf := buf + got;
          remaining := remaining - |got|;
          if remaining <= 0 {
            return nbyte, buf;
          }
        case Interrupted =>
        case Broken =>
          assert Flow(script[k..]) == [];
          return -1, buf;
      }
    }
    n := nbyte - remaining;
  }

  // ----- create_process -----

  datatype PipeAnswer = Refused | Pair(r: int, w: int, rid: nat, wid: nat)

  /** What the kernel answers, in the order it is asked. */
  datatype Kernel = Kernel(stdin: PipeAnswer, stdout: PipeAnswer, stderr: PipeAnswer, fail: PipeAnswer,
                           forks: bool, pid: int, report: seq<ReadAnswer>)

  function New(a: PipeAnswer): set<int> {
    if a.Pair? then {a.r, a.w} else {}
  }

  predicate Proper(a: PipeAnswer, fds: Fds) {
    a.Pair? ==> a.r != a.w && 0 <= a.r <= MAX_UINT && 0 <= a.w <= MAX_UINT && a.r !in fds && a.w !in fds
  }

  /** pipe(2) hands out descriptors that are not open. */
  predicate Fresh(k: Kernel, fds: Fds) {
    && Proper(k.stdin, fds) && Proper(k.stdout, fds) && Proper(k.stderr, fds) && Proper(k.fail, fds)
    && New(k.stdin) !! New(k.stdout) !! New(k.stderr) !! New(k.fail)
  }

  datatype Info = Info(pid: int, stdin: int, stdout: int, stderr: int, stdinClosed: bool)

  datatype Failure =
    | BindStdin | BindStdout | BindStderr
    | CommunicationPipe | Fork | ExecFailed(errno: seq<byte>) | ReadFailed

  datatype Result = Ok(info: Info) | Err(failure: Failure)

  /** The moment of the fork, as the child sees it. */
  datatype ForkPoint = ForkPoint(fds: Fds, pin: seq<int>, pout: seq<int>, perr: seq<int>, pfail: seq<int>)

  function Opened(fds: Fds, a: PipeAnswer, cloexec: bool): Fds {
    if a.Pair? then fds[a.r := Descr(a.rid, cloexec)][a.w := Descr(a.wid, cloexec)] else fds
  }

  method CreatePipe(t: FdTable, pair: array<int>, a: PipeAnswer, cloexec: bool) returns (ok: bool)
    requires pair.Length == 2 && Proper(a, t.fds)
    modifies t`fds, pair
    ensures ok <==> a.Pair?
    ensures t.fds == Opened(old(t.fds), a, cloexec)
    ensures pair[..] == if ok then [a.r, a.w] else old(pair[..])
  {
    if a.Refused? {
      return false;
    }
    t.fds := Opened(t.fds, a, cloexec);
    pair[PIPE_READ], pair[PIPE_WRITE] := a.r, a.w;
    return true;
  }

  method RedirectOrPipe(t: FdTable, target: int, pair: array<int>, a: PipeAnswer) returns (ok: bool)
    requires pair.Length == 2 && Proper(a, t.fds)
    modifies t`fds, pair
    ensures ok <==> target != FD_INVALID || a.Pair?
    ensures t.fds == if target == FD_INVALID then Opened(old(t.fds), a, false) else old(t.fds)
    ensures pair[..] == if target != FD_INVALID then [target, target] else if a.Pair? then [a.r, a.w] else old(pair[..])
  {
    if target == FD_INVALID {
      ok := CreatePipe(t, pair, a, false);
      return;
    }
    pair[PIPE_READ] := target;
    pair[PIPE_WRITE] := target;
    return true;
  }

  /** The ends the child keeps. */
  function ChildEnds(s: Startup, pin: seq<int>, pout: seq<int>, perr: seq<int>): set<int>
    requires |pin| == |pout| == |perr| == 2
  {
    (if s.PipesStdin() then {pin[0]} else {}) + (if s.PipesStdout() then {pout[1]} else {})
    + (if s.PipesStderr() then {perr[1]} else {})
  }

  method CloseChildEnds(t: FdTable, s: Startup, pstdin: array<int>, pstdout: array<int>, pstderr: array<int>)
    requires pstdin.Length == 2 && pstdout.Length == 2 && pstderr.Length == 2
    requires pstdin != pstdout && pstdin != pstderr && pstdout != pstderr
    requires Wired(s, t.fds, pstdin[..], pstdout[..], pstderr[..])
    modifies t, pstdin, pstdout, pstderr
    ensures t.fds == old(t.fds) - old(ChildEnds(s, pstdin[..], pstdout[..], pstderr[..]))
    ensures t.badCloses == old(t.badCloses)
    ensures pstdin[1] == old(pstdin[1]) && pstdout[0] == old(pstdout[0]) && pstderr[0] == old(pstderr[0])
  {
    ghost var fds, pin, pout, perr := t.fds, pstdin[..], pstdout[..], pstderr[..];
    EndsApart(s, fds, pin, pout, perr);
    if !s.inheritStdin && s.stdin == FD_INVALID {
      t.CloseFd(pstdin, PIPE_READ);
    }
    if !s.inheritStdout && s.stdout == FD_INVALID {
      t.CloseFd(pstdout, PIPE_WRITE);
    }
    if !s.mergeOutputs && !s.inheritStderr && s.stderr == FD_INVALID {
      t.CloseFd(pstderr, PIPE_WRITE);
    }
    assert t.fds == fds - ChildEnds(s, pin, pout, perr);
  }

  lemma EndsApart(s: Startup, fds: Fds, pin: seq<int>, pout: seq<int>, perr: seq<int>)
    requires Wired(s, fds, pin, pout, perr)
    ensures s.PipesStdin() ==> pin[0] in fds && pin[1] in fds && pin[0] >= 0 && pin[1] >= 0 && pin[0] != pin[1]
    ensures s.PipesStdout() ==> pout[0] in fds && pout[1] in fds && pout[0] >= 0 && pout[1] >= 0 && pout[0] != pout[1]
    ensures s.PipesStderr() ==> perr[0] in fds && perr[1] in fds && perr[0] >= 0 && perr[1] >= 0 && perr[0] != perr[1]
    ensures Ends(s.PipesStdin(), pin) !! Ends(s.PipesStdout(), pout)
    ensures (Ends(s.PipesStdin(), pin) + Ends(s.PipesStdout(), pout)) !! Ends(s.PipesStderr(), perr)
    ensures s.PipesStdin() && s.PipesStdout() ==> pin[0] != pout[1] && pin[1] != pout[0]
    ensures s.PipesStdin() && s.PipesStderr() ==> pin[0] != perr[1] && pin[1] != perr[0]
    ensures s.PipesStdout() && s.PipesStderr() ==> pout[1] != perr[1] && pout[0] != perr[0]
  {
    var i, o, e := Ends(s.PipesStdin(), pin), Ends(s.PipesStdout(), pout), Ends(s.PipesStderr(), perr);
    assert s.PipesStdin() ==> pin[0] in i && pin[1] in i;
    assert s.PipesStdout() ==> pout[0] in o && pout[1] in o;
    assert s.PipesStderr() ==> perr[0] in e && perr[1] in e;
    assert forall fd :: fd in i ==> fd !in o && fd !in e;
    assert forall fd :: fd in o ==> fd !in e;
  }

  /** The ends that are the parent's. */
  function InfoOf(s: Startup, pid: int, pin: seq<int>, pout: seq<int>, perr: seq<int>): Info
    requires |pin| == |pout| == |perr| == 2
  {
    Info(pid,
         if s.inheritStdin || s.stdin != FD_INVALID then FD_INVALID else pin[1],
         if s.inheritStdout || s.stdout != FD_INVALID then FD_INVALID else pout[0],
         if s.mergeOutputs || s.inheritStderr || s.stderr != FD_INVALID then FD_INVALID else perr[0],
         false)
  }

  /** What the parent makes of the report: silence is success, four bytes are an errno. */
  function Verdict(report: seq<ReadAnswer>): seq<Failure> {
    if |Flow(report)| >= 4 then [ExecFailed(Flow(report)[..4])]
    else if Flow(report) == [] && !EndsBroken(report) then []
    else [ReadFailed]
  }

  /** read_fully on the fail pipe.  It ends only if nobody but the child can still write. */
  method ReadReport(t: FdTable, ghost pair: seq<int>, report: seq<ReadAnswer>) returns (n: int, errno: seq<byte>)
    requires |pair| == 2 && pair[0] in t.fds && pair[1] !in t.fds
    ensures n == -1 <==> |Flow(report)| < 4 && EndsBroken(report)
    ensures n != -1 ==> n == |errno| == (if |Flow(report)| < 4 then |Flow(report)| else 4)
    ensures n != -1 ==> errno <= Flow(report)
  {
    n, errno := ReadFully(report, 4);
  }

  /** The parent listens on the fail pipe until the child has executed or reported. */
  method AwaitExec(t: FdTable, pfail: array<int>, report: seq<ReadAnswer>) returns (failure: seq<Failure>)
    requires pfail.Length == 2 && pfail[0] != pfail[1]
    requires pfail[0] != FD_INVALID && pfail[1] != FD_INVALID && pfail[0] in t.fds && pfail[1] in t.fds
    modifies t, pfail
    ensures t.fds == old(t.fds) - {old(pfail[0]), old(pfail[1])} && t.badCloses == old(t.badCloses)
    ensures failure == Verdict(report)
    ensures |Flow(report)| >= 4 ==> failure == [ExecFailed(Flow(report)[..4])]
    ensures |Flow(report)| < 4 ==>
              failure == if Flow(report) == [] && !EndsBroken(report) then [] else [ReadFailed]
  {
    ghost var pair := pfail[..];
    t.CloseFd(pfail, PIPE_WRITE);
    var n, errno := ReadReport(t, pair, report);
    if n == 0 {
      failure := [];
    } else if n == 4 {
      assert errno == Flow(report)[..4];
      failure := [ExecFailed(errno)];
    } else {
      failure := [ReadFailed];
    }
    t.CloseFd(pfail, PIPE_READ);
  }

  /** How the platform create_process_impl fails, if it does. */
  function LateFailure(k: Kernel): seq<Failure> {
    if k.fail.Refused? then [CommunicationPipe] else if !k.forks then [Fork] else Verdict(k.report)
  }

  /** The parent's part of the platform create_process_impl. */
  method CreateProcessImpl(t: FdTable, s: Startup, pstdin: array<int>, pstdout: array<int>, pstderr: array<int>, k: Kernel)
      returns (r: Result, reaped: bool, ghost fork: ForkPoint)
    requires pstdin.Length == 2 && pstdout.Length == 2 && pstderr.Length == 2
    requires pstdin != pstdout && pstdin != pstderr && pstdout != pstderr
    requires Wired(s, t.fds, pstdin[..], pstdout[..], pstderr[..])
    requires Proper(k.fail, t.fds)
    modifies t, pstdin, pstdout, pstderr
    ensures t.badCloses == old(t.badCloses)
    ensures r.Ok? <==> LateFailure(k) == []
    ensures r.Err? ==> LateFailure(k) == [r.failure]
    ensures reaped <==> k.fail.Pair? && k.forks && r.Err?
    ensures r.Err? ==> t.fds == old(t.fds)
    ensures r.Err? ==> pstdin[..] == old(pstdin[..]) && pstdout[..] == old(pstdout[..]) && pstderr[..] == old(pstderr[..])
    ensures r.Ok? ==> r.info == old(InfoOf(s, k.pid, pstdin[..], pstdout[..], pstderr[..]))
    ensures r.Ok? ==> t.fds == old(t.fds) - old(ChildEnds(s, pstdin[..], pstdout[..], pstderr[..]))
    ensures k.fail.Pair? ==>
              fork == ForkPoint(Opened(old(t.fds), k.fail, true), old(pstdin[..]), old(pstdout[..]), old(pstderr[..]),
                                [k.fail.r, k.fail.w])
  {
    ghost var fds := t.fds;
    reaped := false;
    var pfail := new int[2](_ => FD_INVALID);
    fork := ForkPoint(fds, pstdin[..], pstdout[..], pstderr[..], pfail[..]);
    var piped := CreatePipe(t, pfail, k.fail, true);
    if !piped {
      return Err(CommunicationPipe), reaped, fork;
    }
    fork := ForkPoint(t.fds, pstdin[..], pstdout[..], pstderr[..], pfail[..]);
    if !k.forks {
      t.ClosePipe(pfail);
      assert t.fds == fds;
      return Err(Fork), reaped, fork;
    }
    var failure := AwaitExec(t, pfail, k.report);
    assert t.fds == fds;
    if failure != [] {
      reaped := true; // waitpid
      return Err(failure[0]), reaped, fork;
    }
    r := Ok(InfoOf(s, k.pid, pstdin[..], pstdout[..], pstderr[..]));
    CloseChildEnds(t, s, pstdin, pstdout, pstderr);
  }

  // ----- binding and rollback -----

  /** The table with all pipes of the streams open. */
  function AllOpened(s: Startup, fds: Fds, k: Kernel): Fds {
    var a := if s.PipesStdin() then Opened(fds, k.stdin, false) else fds;
    var b := if s.PipesStdout() then Opened(a, k.stdout, false) else a;
    if s.PipesStderr() then Opened(b, k.stderr, false) else b
  }

  function PairOf(inherit: bool, target: int, a: PipeAnswer): seq<int> {
    if inherit then [FD_INVALID, FD_INVALID]
    else if target != FD_INVALID then [target, target]
    else if a.Pair? then [a.r, a.w] else [FD_INVALID, FD_INVALID]
  }

  predicate Granted(s: Startup, k: Kernel) {
    && (s.PipesStdin() ==> k.stdin.Pair?)
    && (s.PipesStdout() ==> k.stdout.Pair?)
    && (s.PipesStderr() ==> k.stderr.Pair?)
  }

  lemma GrantedWired(s: Startup, fds: Fds, k: Kernel)
    requires Fresh(k, fds) && Granted(s, k) && s.TargetsOpen(fds)
    requires forall fd :: fd in fds ==> 0 <= fd <= MAX_UINT
    ensures Wired(s, AllOpened(s, fds, k), PairOf(s.inheritStdin, s.stdin, k.stdin),
                  PairOf(s.inheritStdout, s.stdout, k.stdout), PairOf(s.NoStderr(), s.stderr, k.stderr))
    ensures Proper(k.fail, AllOpened(s, fds, k))
  {
  }

  /** The ends a handle owns. */
  function Owned(info: Info): set<int> {
    {info.stdin, info.stdout, info.stderr} - {FD_INVALID}
  }

  /** The first pipe that is needed and refused decides. */
  function EarlyFailure(s: Startup, k: Kernel): seq<Failure> {
    if s.PipesStdin() && k.stdin.Refused? then [BindStdin]
    else if s.PipesStdout() && k.stdout.Refused? then [BindStdout]
    else if s.PipesStderr() && k.stderr.Refused? then [BindStderr]
    else []
  }

  /** Redirect targets bound before the refused pipe. */
  function Lost(s: Startup, k: Kernel): set<int> {
    var behind := EarlyFailure(s, k);
    (if (behind == [BindStdout] || behind == [BindStderr]) && s.RedirectsStdin() then {s.stdin} else {})
    + (if behind == [BindStderr] && s.RedirectsStdout() then {s.stdout} else {})
  }

  /** The third pipe failed: the first two streams are closed. */
  method CloseTwo(t: FdTable, s: Startup, pstdin: array<int>, pstdout: array<int>, k: Kernel, ghost fds: Fds)
    requires pstdin.Length == 2 && pstdout.Length == 2 && pstdin != pstdout
    requires Fresh(k, fds) && (s.PipesStdin() ==> k.stdin.Pair?) && (s.PipesStdout() ==> k.stdout.Pair?)
    requires s.TargetsOpen(fds)
    requires var withIn := if s.PipesStdin() then Opened(fds, k.stdin, false) else fds;
             t.fds == if s.PipesStdout() then Opened(withIn, k.stdout, false) else withIn
    requires pstdin[..] == PairOf(s.inheritStdin, s.stdin, k.stdin)
    requires pstdout[..] == PairOf(s.inheritStdout, s.stdout, k.stdout)
    modifies t, pstdin, pstdout
    ensures t.fds == fds - (if s.RedirectsStdin() then {s.stdin} else {}) - (if s.RedirectsStdout() then {s.stdout} else {})
    ensures t.badCloses >= old(t.badCloses)
    ensures t.badCloses == old(t.badCloses) <==> !s.RedirectsStdin() && !s.RedirectsStdout()
  {
    ghost var withOut := if s.PipesStdout() then Opened(fds, k.stdout, false) else fds;
    OpenedCommute(s, fds, k);
    CloseBound(t, s.inheritStdin, s.stdin, pstdin, k.stdin, withOut);
    ghost var left := fds - (if s.RedirectsStdin() then {s.stdin} else {});
    assert t.fds == if s.PipesStdout() then Opened(left, k.stdout, false) else left;
    CloseBound(t, s.inheritStdout, s.stdout, pstdout, k.stdout, left);
  }

  /** Binding the three streams; a failing pipe closes what was bound before it. */
  method BindStreams(t: FdTable, s: Startup, pstdin: array<int>, pstdout: array<int>, pstderr: array<int>, k: Kernel)
      returns (failure: seq<Failure>)
    requires pstdin.Length == 2 && pstdout.Length == 2 && pstderr.Length == 2
    requires pstdin != pstdout && pstdin != pstderr && pstdout != pstderr
    requires pstdin[..] == pstdout[..] == pstderr[..] == [FD_INVALID, FD_INVALID]
    requires Fresh(k, t.fds) && s.TargetsOpen(t.fds)
    requires forall fd :: fd in t.fds ==> 0 <= fd <= MAX_UINT
    modifies t, pstdin, pstdout, pstderr
    ensures Granted(s, k) <==> failure == []
    ensures failure == [] ==> t.fds == AllOpened(s, old(t.fds), k) && t.badCloses == old(t.badCloses)
    ensures failure == [] ==>
              && pstdin[..] == PairOf(s.inheritStdin, s.stdin, k.stdin)
              && pstdout[..] == PairOf(s.inheritStdout, s.stdout, k.stdout)
              && pstderr[..] == PairOf(s.NoStderr(), s.stderr, k.stderr)
    ensures failure == EarlyFailure(s, k)
    ensures failure != [] ==> t.fds == old(t.fds) - Lost(s, k) && t.badCloses >= old(t.badCloses)
    ensures failure != [] ==> (t.badCloses == old(t.badCloses) <==> Lost(s, k) == {})
  {
    ghost var fds := t.fds;
    if !s.inheritStdin {
      var ok := RedirectOrPipe(t, s.stdin, pstdin, k.stdin);
      if !ok {
        return [BindStdin];
      }
    }
    ghost var withIn := if s.PipesStdin() then Opened(fds, k.stdin, false) else fds;
    assert t.fds == withIn && pstdin[..] == PairOf(s.inheritStdin, s.stdin, k.stdin);
    if !s.inheritStdout {
      var ok := RedirectOrPipe(t, s.stdout, pstdout, k.stdout);
      if !ok {
        CloseBound(t, s.inheritStdin, s.stdin, pstdin, k.stdin, fds);
        return [BindStdout];
      }
    }
    assert t.fds == (if s.PipesStdout() then Opened(withIn, k.stdout, false) else withIn);
    assert pstdout[..] == PairOf(s.inheritStdout, s.stdout, k.stdout);
    if !s.mergeOutputs && !s.inheritStderr {
      var ok := RedirectOrPipe(t, s.stderr, pstderr, k.stderr);
      if !ok {
        CloseTwo(t, s, pstdin, pstdout, k, fds);
        return [BindStderr];
      }
    }
    return [];
  }

  lemma OpenedCommute(s: Startup, fds: Fds, k: Kernel)
    requires Fresh(k, fds) && (s.PipesStdin() ==> k.stdin.Pair?) && (s.PipesStdout() ==> k.stdout.Pair?)
    ensures s.PipesStdin() && s.PipesStdout() ==>
              Opened(Opened(fds, k.stdin, false), k.stdout, false) == Opened(Opened(fds, k.stdout, false), k.stdin, false)
  {
  }

  /** `if (!inherit) close_pipe(pair)` of the early failures: it does not ask whether the
      stream is redirected, and then closes the caller's descriptor, twice. */
  method CloseBound(t: FdTable, inherit: bool, target: int, pair: array<int>, a: PipeAnswer, ghost before: Fds)
    requires pair.Length == 2 && pair[..] == PairOf(inherit, target, a)
    requires Proper(a, before) && (!inherit && target == FD_INVALID ==> a.Pair?)
    requires t.fds == if !inherit && target == FD_INVALID then Opened(before, a, false) else before
    modifies t, pair
    ensures t.fds == before - (if !inherit && target != FD_INVALID then {target} else {})
    ensures inherit || target == FD_INVALID ==> t.badCloses == old(t.badCloses)
    ensures !inherit && target != FD_INVALID ==>
              t.badCloses == old(t.badCloses) + (if target in before then 1 else 2)
  {
    if !inherit {
      t.ClosePipe(pair);
    }
  }

  /** Which step failed: the first pipe that is needed and refused; else the fail pipe, the
      fork, four bytes of the report as an errno, or a report cut short or unreadable. */
  lemma WhichFailure(s: Startup, k: Kernel)
    ensures var in_, out, err := !s.inheritStdin && s.stdin == -1 && k.stdin.Refused?,
                                 !s.inheritStdout && s.stdout == -1 && k.stdout.Refused?,
                                 !s.mergeOutputs && !s.inheritStderr && s.stderr == -1 && k.stderr.Refused?;
            && (in_ ==> EarlyFailure(s, k) == [BindStdin])
            && (!in_ && out ==> EarlyFailure(s, k) == [BindStdout])
            && (!in_ && !out && err ==> EarlyFailure(s, k) == [BindStderr])
            && (!in_ && !out && !err <==> Granted(s, k))
    ensures k.fail.Refused? ==> LateFailure(k) == [CommunicationPipe]
    ensures k.fail.Pair? && !k.forks ==> LateFailure(k) == [Fork]
    ensures k.fail.Pair? && k.forks && |Flow(k.report)| >= 4 ==> LateFailure(k) == [ExecFailed(Flow(k.report)[..4])]
    ensures k.fail.Pair? && k.forks && |Flow(k.report)| < 4 ==>
              LateFailure(k) == if Flow(k.report) == [] && !EndsBroken(k.report) then [] else [ReadFailed]
  {
  }

  /** What the parent keeps of the pipes it was granted. */
  function ParentEnds(s: Startup, k: Kernel): Info
    requires Granted(s, k)
  {
    Info(k.pid, if s.PipesStdin() then k.stdin.w else FD_INVALID,
         if s.PipesStdout() then k.stdout.r else FD_INVALID,
         if s.PipesStderr() then k.stderr.r else FD_INVALID, false)
  }

  /** Success: exactly the parent's pipe ends are new. */
  ghost predicate HandedOver(s: Startup, k: Kernel, before: Fds, after: Fds, info: Info) {
    && Granted(s, k)
    && info == Info(k.pid, if !s.inheritStdin && s.stdin == -1 then k.stdin.w else -1,
                    if !s.inheritStdout && s.stdout == -1 then k.stdout.r else -1,
                    if !s.mergeOutputs && !s.inheritStderr && s.stderr == -1 then k.stderr.r else -1, false)
    && after.Keys == before.Keys + Owned(info) && Owned(info) !! before.Keys
    && forall fd :: fd in before ==> after[fd] == before[fd]
  }

  /** What the child starts from. */
  function ForkAt(s: Startup, fds: Fds, k: Kernel): ForkPoint
    requires k.fail.Pair?
  {
    ForkPoint(Opened(AllOpened(s, fds, k), k.fail, true), PairOf(s.inheritStdin, s.stdin, k.stdin),
              PairOf(s.inheritStdout, s.stdout, k.stdout), PairOf(s.NoStderr(), s.stderr, k.stderr),
              [k.fail.r, k.fail.w])
  }

  /** The fail pipe is born with close-on-exec, so that no other fork can keep it open. */
  lemma FailPipeCloses(s: Startup, fds: Fds, k: Kernel)
    requires k.fail.Pair? && k.fail.r != k.fail.w
    ensures var at := ForkAt(s, fds, k).fds;
            at[k.fail.r] == Descr(k.fail.rid, true) && at[k.fail.w] == Descr(k.fail.wid, true)
  {
  }

  /** Every answer is good, and the child has nothing to report. */
  predicate Succeeds(s: Startup, k: Kernel) {
    Granted(s, k) && k.fail.Pair? && k.forks && Flow(k.report) == [] && !EndsBroken(k.report)
  }

  /** A pipe is refused behind a redirected stream, all pipes before it being granted. */
  predicate Overcloses(s: Startup, k: Kernel) {
    || (s.RedirectsStdin() && s.PipesStdout() && k.stdout.Refused?)
    || (s.PipesStderr() && k.stderr.Refused? && (s.PipesStdin() ==> k.stdin.Pair?) && (s.PipesStdout() ==> k.stdout.Pair?)
        && (s.RedirectsStdin() || s.RedirectsStdout()))
  }

  lemma LostIffOvercloses(s: Startup, k: Kernel)
    ensures Lost(s, k) != {} <==> Overcloses(s, k)
  {
    if s.RedirectsStdin() {
      assert s.stdin in {s.stdin};
    }
    if s.RedirectsStdout() {
      assert s.stdout in {s.stdout};
    }
  }

  /** No pipe is needed behind a redirected stream. */
  predicate RedirectsLast(s: Startup) {
    && !(s.RedirectsStdin() && (s.PipesStdout() || s.PipesStderr()))
    && !(s.RedirectsStdout() && s.PipesStderr())
  }

  /** A kernel that has one pipe to give. */
  function Refusal(r: int, w: int): Kernel {
    Kernel(Pair(r, w, 0, 0), Refused, Refused, Refused, false, 0, [])
  }

  /** For the caller, who knows the configuration but not the kernel: every failure restores
      the table exactly when no pipe is needed behind a redirected stream. */
  lemma RestoredUnderEveryKernel(s: Startup, fds: Fds, r: int, w: int)
    requires 0 <= r <= MAX_UINT && 0 <= w <= MAX_UINT && r != w && r !in fds && w !in fds
    ensures (forall k :: Fresh(k, fds) ==> !Overcloses(s, k)) <==> RedirectsLast(s)
  {
    if !RedirectsLast(s) {
      assert Overcloses(s, Refusal(r, w)) && Fresh(Refusal(r, w), fds);
    }
  }

  /** create_process: success hands over exactly the parent's ends; failure leaves the table
      as it was, with no close gone wrong, exactly unless a pipe was refused behind a
      redirected stream. */
  method Create(t: FdTable, s: Startup, k: Kernel) returns (r: Result, ghost fork: ForkPoint)
    requires Fresh(k, t.fds) && s.TargetsOpen(t.fds)
    requires forall fd :: fd in t.fds ==> 0 <= fd <= MAX_UINT
    modifies t
    ensures r.Ok? <==> Succeeds(s, k)
    ensures r.Ok? ==> HandedOver(s, k, old(t.fds), t.fds, r.info) && t.badCloses == old(t.badCloses)
    ensures r.Err? ==> [r.failure] == if Granted(s, k) then LateFailure(k) else EarlyFailure(s, k)
    ensures r.Err? && !Overcloses(s, k) ==> t.fds == old(t.fds) && t.badCloses == old(t.badCloses)
    ensures r.Err? && Overcloses(s, k) ==>
              t.fds == old(t.fds) - Lost(s, k) && t.fds != old(t.fds) && t.badCloses > old(t.badCloses)
    ensures Granted(s, k) && k.fail.Pair? ==> fork == ForkAt(s, old(t.fds), k)
  {
    var pstdin := new int[2](_ => FD_INVALID);
    var pstdout := new int[2](_ => FD_INVALID);
    var pstderr := new int[2](_ => FD_INVALID);
    fork := ForkPoint(t.fds, [], [], [], []);
    ghost var fds := t.fds;
    LostIffOvercloses(s, k);
    var failure := BindStreams(t, s, pstdin, pstdout, pstderr, k);
    if failure != [] {
      return Err(failure[0]), fork;
    }
    r, fork := Launch(t, s, pstdin, pstdout, pstderr, k, fds);
  }

  /** The try block and its rollback. */
  method Launch(t: FdTable, s: Startup, pstdin: array<int>, pstdout: array<int>, pstderr: array<int>, k: Kernel,
                ghost fds: Fds)
      returns (r: Result, ghost fork: ForkPoint)
    requires pstdin.Length == 2 && pstdout.Length == 2 && pstderr.Length == 2
    requires pstdin != pstdout && pstdin != pstderr && pstdout != pstderr
    requires Fresh(k, fds) && Granted(s, k) && s.TargetsOpen(fds) && t.fds == AllOpened(s, fds, k)
    requires forall fd :: fd in fds ==> 0 <= fd <= MAX_UINT
    requires pstdin[..] == PairOf(s.inheritStdin, s.stdin, k.stdin)
    requires pstdout[..] == PairOf(s.inheritStdout, s.stdout, k.stdout)
    requires pstderr[..] == PairOf(s.NoStderr(), s.stderr, k.stderr)
    modifies t, pstdin, pstdout, pstderr
    ensures r.Ok? <==> Succeeds(s, k)
    ensures r.Ok? ==> HandedOver(s, k, fds, t.fds, r.info)
    ensures r.Err? ==> t.fds == fds && LateFailure(k) == [r.failure]
    ensures t.badCloses == old(t.badCloses)
    ensures k.fail.Pair? ==> fork == ForkAt(s, fds, k)
  {
    GrantedWired(s, fds, k);
    GrantedEnds(s, fds, k);
    var reaped;
    r, reaped, fork := CreateProcessImpl(t, s, pstdin, pstdout, pstderr, k);
    if r.Err? {
      Rollback(t, s, pstdin, pstdout, pstderr, k, fds);
    }
  }

  /** The catch block: pipes of our own only. */
  method Rollback(t: FdTable, s: Startup, pstdin: array<int>, pstdout: array<int>, pstderr: array<int>, k: Kernel,
                  ghost fds: Fds)
    requires pstdin.Length == 2 && pstdout.Length == 2 && pstderr.Length == 2
    requires pstdin != pstdout && pstdin != pstderr && pstdout != pstderr
    requires Fresh(k, fds) && Granted(s, k) && t.fds == AllOpened(s, fds, k)
    requires pstdin[..] == PairOf(s.inheritStdin, s.stdin, k.stdin)
    requires pstdout[..] == PairOf(s.inheritStdout, s.stdout, k.stdout)
    requires pstderr[..] == PairOf(s.NoStderr(), s.stderr, k.stderr)
    modifies t, pstdin, pstdout, pstderr
    ensures t.fds == fds && t.badCloses == old(t.badCloses)
  {
    if !s.inheritStdin && s.stdin == FD_INVALID {
      t.ClosePipe(pstdin);
    }
    if !s.inheritStdout && s.stdout == FD_INVALID {
      t.ClosePipe(pstdout);
    }
    if !s.inheritStderr && !s.mergeOutputs && s.stderr == FD_INVALID {
      t.ClosePipe(pstderr);
    }
    assert t.fds == fds;
  }

  lemma WiredMore(s: Startup, fds: Fds, pin: seq<int>, pout: seq<int>, perr: seq<int>, a: PipeAnswer)
    requires Wired(s, fds, pin, pout, perr) && Proper(a, fds)
    ensures Wired(s, Opened(fds, a, true), pin, pout, perr)
  {
  }

  lemma EndsNew(s: Startup, fds: Fds, k: Kernel)
    requires Fresh(k, fds) && Granted(s, k)
    ensures Ends(s.PipesStdin(), PairOf(s.inheritStdin, s.stdin, k.stdin)) <= New(k.stdin)
    ensures Ends(s.PipesStdout(), PairOf(s.inheritStdout, s.stdout, k.stdout)) <= New(k.stdout)
    ensures Ends(s.PipesStderr(), PairOf(s.NoStderr(), s.stderr, k.stderr)) <= New(k.stderr)
    ensures New(k.stdin) + New(k.stdout) + New(k.stderr) !! New(k.fail)
    ensures forall fd :: fd in New(k.stdin) + New(k.stdout) + New(k.stderr) + New(k.fail) ==> fd !in fds && fd >= 0
  {
  }

  lemma GrantedForked(s: Startup, fds: Fds, k: Kernel)
    requires Fresh(k, fds) && Granted(s, k) && s.TargetsOpen(fds) && k.fail.Pair?
    requires forall fd :: fd in fds ==> 0 <= fd <= MAX_UINT
    requires 0 in fds && 1 in fds && 2 in fds
    ensures var fork := ForkAt(s, fds, k); Forked(s, fork.fds, fork.pin, fork.pout, fork.perr, fork.pfail)
  {
    var pin, pout, perr := PairOf(s.inheritStdin, s.stdin, k.stdin),
                           PairOf(s.inheritStdout, s.stdout, k.stdout), PairOf(s.NoStderr(), s.stderr, k.stderr);
    var pfail := [k.fail.r, k.fail.w];
    var bound := AllOpened(s, fds, k);
    GrantedWired(s, fds, k);
    WiredMore(s, bound, pin, pout, perr, k.fail);
    EndsNew(s, fds, k);
    assert Ends(true, pfail) == New(k.fail);
    var ends := Ends(s.PipesStdin(), pin) + Ends(s.PipesStdout(), pout) + Ends(s.PipesStderr(), perr);
    assert ends !! New(k.fail);
    forall fd | fd in ends || fd in New(k.fail) ensures fd > STDERR {
      assert fd !in fds && fd >= 0;
    }
    assert s.TargetsApart(New(k.fail)) by {
      assert k.fail.r in New(k.fail) && k.fail.w in New(k.fail);
    }
  }

  /** The opened pipes without the child's ends are the parent's ends. */
  lemma GrantedEnds(s: Startup, fds: Fds, k: Kernel)
    requires Fresh(k, fds) && Granted(s, k) && s.TargetsOpen(fds)
    requires forall fd :: fd in fds ==> 0 <= fd <= MAX_UINT
    ensures var pin, pout, perr := PairOf(s.inheritStdin, s.stdin, k.stdin),
                                   PairOf(s.inheritStdout, s.stdout, k.stdout), PairOf(s.NoStderr(), s.stderr, k.stderr);
            var after := AllOpened(s, fds, k) - ChildEnds(s, pin, pout, perr);
            var owned := Owned(InfoOf(s, k.pid, pin, pout, perr));
            && after.Keys == fds.Keys + owned && owned !! fds.Keys
            && forall fd :: fd in fds ==> after[fd] == fds[fd]
  {
  }

  /** Stdin redirected to descriptor 5, and no pipe for stdout: the caller's descriptor is
      gone, and was closed once too often. */
  method RedirectLost() returns (r: Result, open: Fds, badCloses: nat)
    ensures r == Err(BindStdout) && 5 !in open && badCloses > 0
  {
    var fds: Fds := map[0 := Descr(0, false), 1 := Descr(1, false), 2 := Descr(2, false), 5 := Descr(3, true)];
    var t := new FdTable(fds);
    var s := Startup(false, false, false, false, 5, FD_INVALID, FD_INVALID);
    var k := Refusal(6, 7);
    assert Overcloses(s, k) && Lost(s, k) == {5};
    ghost var fork;
    r, fork := Create(t, s, k);
    open, badCloses := t.fds, t.badCloses;
  }

  // ----- the handle -----

  /** What mpp::process does with the descriptors it was given. */
  class Handle {
    const table: FdTable
    var info: Info

    constructor (table: FdTable, info: Info)
      ensures this.table == table && this.info == info
    {
      this.table, this.info := table, info;
    }

    method CloseFd(fd: int)
      modifies table
      ensures fd == FD_INVALID ==> table.fds == old(table.fds) && table.badCloses == old(table.badCloses)
      ensures fd != FD_INVALID ==> table.fds == old(table.fds) - {fd}
      ensures fd != FD_INVALID && fd in old(table.fds) ==> table.badCloses == old(table.badCloses)
    {
      if fd != FD_INVALID {
        table.Close(fd);
      }
    }

    /** Idempotent. */
    method CloseStdin()
      modifies this, table
      requires info.stdin != FD_INVALID ==> info.stdin in table.fds
      ensures table.badCloses == old(table.badCloses)
      ensures info.stdinClosed && info.pid == old(info.pid)
      ensures info.stdout == old(info.stdout) && info.stderr == old(info.stderr)
      ensures old(info.stdinClosed) ==> info == old(info) && table.fds == old(table.fds)
      ensures !old(info.stdinClosed) ==>
                && info.stdin == FD_INVALID
                && table.fds == old(table.fds) - (if old(info.stdin) == FD_INVALID then {} else {old(info.stdin)})
    {
      if info.stdinClosed {
        return;
      }
      info := info.(stdinClosed := true);
      if info.stdin != FD_INVALID {
        CloseFd(info.stdin);
        info := info.(stdin := FD_INVALID);
      }
    }

    /** close_process, from ~member_holder. */
    method Destroy()
      requires Owned(info) <= table.fds.Keys
      requires info.stdin == FD_INVALID || (info.stdin != info.stdout && info.stdin != info.stderr)
      requires info.stdout == FD_INVALID || info.stdout != info.stderr
      modifies this, table
      ensures table.fds == old(table.fds) - old(Owned(info)) && table.badCloses == old(table.badCloses)
      ensures Owned(info) == {}
    {
      assert info.stdin != FD_INVALID ==> info.stdin in Owned(info);
      assert info.stdout != FD_INVALID ==> info.stdout in Owned(info);
      assert info.stderr != FD_INVALID ==> info.stderr in Owned(info);
      CloseFd(info.stdin);
      CloseFd(info.stdout);
      CloseFd(info.stderr);
      info := Info(info.pid, FD_INVALID, FD_INVALID, FD_INVALID, info.stdinClosed);
    }
  }
}
