// Descriptors across fork: what the parent opens and closes, the dup2/close sequence of
// the child, the range-split close, and the handle's own closes.

module Descriptors {

  const FD_INVALID := -1
  const PIPE_READ := 0
  const PIPE_WRITE := 1
  const STDERR := 2
  const MAX_UINT := 0xFFFF_FFFF

  /** An open file description and the descriptor's close-on-exec flag. */
  datatype Descr = Descr(id: nat, cloexec: bool)

  type Fds = map<int, Descr>

  class FdTable {
    var fds: Fds
    /** close(2) calls on a descriptor that was not open. */
    var badCloses: nat

    constructor (fds: Fds)
      ensures this.fds == fds && badCloses == 0
    {
      this.fds, badCloses := fds, 0;
    }

    method Close(fd: int)
      modifies this
      ensures fds == old(fds) - {fd}
      ensures badCloses == old(badCloses) + (if fd in old(fds) then 0 else 1)
    {
      badCloses := badCloses + if fd in fds then 0 else 1;
      fds := fds - {fd};
    }

    /** dup2(2): nothing happens when the source is not open. */
    method Dup2(source: int, target: int)
      modifies this`fds
      ensures source !in old(fds) || source == target ==> fds == old(fds)
      ensures source in old(fds) && source != target ==>
                fds == old(fds)[target := Descr(old(fds)[source].id, false)]
    {
      if source in fds && source != target {
        fds := fds[target := Descr(fds[source].id, false)];
      }
    }

    /** close_fd: takes the variable by reference and clears it. */
    method CloseFd(pair: array<int>, i: nat)
      requires i < pair.Length
      modifies this, pair
      ensures pair[i] == FD_INVALID
      ensures forall k :: 0 <= k < pair.Length && k != i ==> pair[k] == old(pair[k])
      ensures old(pair[i]) == FD_INVALID ==> fds == old(fds) && badCloses == old(badCloses)
      ensures old(pair[i]) != FD_INVALID ==>
                && fds == old(fds) - {old(pair[i])}
                && badCloses == old(badCloses) + (if old(pair[i]) in old(fds) then 0 else 1)
    {
      if pair[i] == FD_INVALID {
        return;
      }
      Close(pair[i]);
      pair[i] := FD_INVALID;
    }

    method ClosePipe(pair: array<int>)
      requires pair.Length == 2
      modifies this, pair
      ensures old(pair[0]) != FD_INVALID && old(pair[1]) != FD_INVALID ==>
                && fds == old(fds) - {old(pair[0]), old(pair[1])}
                && badCloses == old(badCloses) + (if old(pair[0]) in old(fds) then 0 else 1)
                                + (if old(pair[1]) in old(fds) && old(pair[0]) != old(pair[1]) then 0 else 1)
      ensures old(pair[0]) == FD_INVALID && old(pair[1]) == FD_INVALID ==> fds == old(fds) && badCloses == old(badCloses)
    {
      CloseFd(pair, PIPE_READ);
      CloseFd(pair, PIPE_WRITE);
    }

    // ----- close_all_descriptors -----

    /** close_range(2): a failure may have closed part of the range. */
    method CloseRange(first: int, last: int, answer: RangeAnswer) returns (ok: bool)
      modifies this`fds
      ensures ok <==> answer.Closed?
      ensures ok ==> fds == map fd | fd in old(fds) && !(first <= fd <= last) :: old(fds)[fd]
      ensures forall fd :: fd in fds ==> fd in old(fds) && fds[fd] == old(fds)[fd]
      ensures forall fd :: fd in old(fds) && !(first <= fd <= last) ==> fd in fds
    {
      ok := answer.Closed?;
      fds := map fd | fd in fds && !(first <= fd <= last && (ok || fd in answer.some)) :: fds[fd];
    }

    /** All from fromFd up to the cap but failFd; all above as well when close_range worked. */
    method CloseAllDescriptors(fromFd: int, failFd: int, answer1: RangeAnswer, answer2: RangeAnswer, openMax: int)
        returns (byRange: bool)
      requires forall fd :: fd in fds ==> 0 <= fd <= MAX_UINT
      modifies this
      ensures forall fd :: fd in fds ==> fd in old(fds) && fds[fd] == old(fds)[fd]
      ensures forall fd :: fd in old(fds) && (fd < fromFd || fd == failFd) ==> fd in fds
      ensures var cap := if openMax < 0 then 1024 else if openMax > 65536 then 65536 else openMax;
              forall fd :: fd in fds && (byRange || fd < cap) ==> fd < fromFd || fd == failFd
    {
      if failFd < fromFd {
        var ok := CloseRange(fromFd, MAX_UINT, answer1);
        if ok {
          return true;
        }
      } else {
        var rangeOk := true;
        if fromFd < failFd {
          var ok := CloseRange(fromFd, failFd - 1, answer1);
          if !ok {
            rangeOk := false;
          }
        }
        if rangeOk {
          var ok := CloseRange(failFd + 1, MAX_UINT, answer2);
          if ok {
            return true;
          }
        }
      }
      var maxFd := Cap(openMax);
      var fd := fromFd;
      while fd < maxFd
        invariant forall x :: x in fds ==> x in old(fds) && fds[x] == old(fds)[x]
        invariant forall x :: x in old(fds) && (x < fromFd || x == failFd) ==> x in fds
        invariant forall x :: x in fds && x < fd ==> x < fromFd || x == failFd
      {
        if fd != failFd {
          Close(fd);
        }
        fd := fd + 1;
      }
      return false;
    }
  }

  datatype RangeAnswer = Closed | Failed(some: set<int>)

  /** The fallback's limit for a value of sysconf(_SC_OPEN_MAX). */
  function Cap(openMax: int): int {
    if openMax < 0 then 1024 else if openMax > 65536 then 65536 else openMax
  }

  // ----- how streams are configured -----

  /** A redirect target of FD_INVALID means none. */
  datatype Startup = Startup(
    inheritStdin: bool, inheritStdout: bool, inheritStderr: bool, mergeOutputs: bool,
    stdin: int, stdout: int, stderr: int)
  {
    predicate NoStderr() { mergeOutputs || inheritStderr }

    predicate PipesStdin() { !inheritStdin && stdin == FD_INVALID }
    predicate PipesStdout() { !inheritStdout && stdout == FD_INVALID }
    predicate PipesStderr() { !NoStderr() && stderr == FD_INVALID }

    predicate RedirectsStdin() { !inheritStdin && stdin != FD_INVALID }
    predicate RedirectsStdout() { !inheritStdout && stdout != FD_INVALID }
    predicate RedirectsStderr() { !NoStderr() && stderr != FD_INVALID }

    /** Redirect targets in use are open. */
    predicate TargetsOpen(fds: Fds) {
      && (RedirectsStdin() ==> stdin in fds)
      && (RedirectsStdout() ==> stdout in fds)
      && (RedirectsStderr() ==> stderr in fds)
    }

    predicate TargetsApart(ends: set<int>) {
      && (RedirectsStdin() ==> stdin !in ends)
      && (RedirectsStdout() ==> stdout !in ends)
      && (RedirectsStderr() ==> stderr !in ends)
    }

    /** No redirect target in use is one of the three standard descriptors. */
    predicate TargetsHigh() {
      && (RedirectsStdin() ==> stdin > 2)
      && (RedirectsStdout() ==> stdout > 2)
      && (RedirectsStderr() ==> stderr > 2)
    }
  }

  // ----- the child -----

  /** A pipe pair, a doubled target, or nothing. */
  ghost predicate Bound(fds: Fds, unused: bool, target: int, pair: seq<int>) {
    && |pair| == 2
    && (if unused then pair == [FD_INVALID, FD_INVALID]
        else if target != FD_INVALID then pair == [target, target] && target in fds
        else pair[0] in fds && pair[1] in fds && pair[0] != pair[1])
  }

  /** The pipe ends of one stream. */
  function Ends(pipes: bool, pair: seq<int>): set<int>
    requires |pair| == 2
  {
    if pipes then {pair[0], pair[1]} else {}
  }

  /** The streams are bound, and no two of them share a pipe end. */
  ghost predicate Wired(s: Startup, fds: Fds, pin: seq<int>, pout: seq<int>, perr: seq<int>) {
    && (forall fd :: fd in fds ==> 0 <= fd <= MAX_UINT)
    && Bound(fds, s.inheritStdin, s.stdin, pin)
    && Bound(fds, s.inheritStdout, s.stdout, pout)
    && Bound(fds, s.NoStderr(), s.stderr, perr)
    && var i, o, e := Ends(s.PipesStdin(), pin), Ends(s.PipesStdout(), pout), Ends(s.PipesStderr(), perr);
    && i !! o !! e
    && s.TargetsApart(i + o + e)
  }

  /** The table that fork copies: the fail pipe is new, and all pipe ends are above the
      standard descriptors because those are open. */
  ghost predicate Forked(s: Startup, fds: Fds, pin: seq<int>, pout: seq<int>, perr: seq<int>, pfail: seq<int>) {
    && Wired(s, fds, pin, pout, perr)
    && Bound(fds, false, FD_INVALID, pfail)
    && 0 in fds && 1 in fds && 2 in fds
    && var ends := Ends(s.PipesStdin(), pin) + Ends(s.PipesStdout(), pout) + Ends(s.PipesStderr(), perr);
    && var f := Ends(true, pfail);
    && ends !! f && s.TargetsApart(f)
    && forall fd :: fd in ends || fd in f ==> fd > STDERR
  }

  /** What descriptor 0 or 1 must refer to. */
  function Wanted(fds: Fds, inherit: bool, std: int, source: int): Descr
    requires std in fds && (inherit || source in fds)
  {
    if inherit then fds[std] else Descr(fds[source].id, false)
  }

  /** The three streams as configured, and the way back to the parent open. */
  ghost predicate StreamsRight(s: Startup, before: Fds, pin: seq<int>, pout: seq<int>, perr: seq<int>, pfail: seq<int>,
                               after: Fds)
    requires Forked(s, before, pin, pout, perr, pfail)
  {
    && 0 in after && after[0] == Wanted(before, s.inheritStdin, 0, pin[0])
    && 1 in after && after[1] == Wanted(before, s.inheritStdout, 1, pout[1])
    && 2 in after && (if s.mergeOutputs then after[2] == Descr(after[1].id, false)
                      else after[2] == Wanted(before, s.inheritStderr, 2, perr[1]))
    && pfail[1] in after && after[pfail[1]].id == before[pfail[1]].id
  }

  /** Also, below the cap nothing else is open, and the fail pipe closes on exec. */
  ghost predicate AtExec(s: Startup, before: Fds, pin: seq<int>, pout: seq<int>, perr: seq<int>, pfail: seq<int>,
                         after: Fds, byRange: bool, openMax: int)
    requires Forked(s, before, pin, pout, perr, pfail)
  {
    && StreamsRight(s, before, pin, pout, perr, pfail, after)
    && after[pfail[1]].cloexec
    && (forall fd :: fd in after && (byRange || fd < Cap(openMax)) ==> fd <= 2 || fd == pfail[1])
  }

  /** The ends that only the parent uses go first. */
  method CloseParentEnds(t: FdTable, s: Startup, pstdin: array<int>, pstdout: array<int>, pfail: array<int>)
    requires pstdin.Length == 2 && pstdout.Length == 2 && pfail.Length == 2
    requires pstdin != pstdout && pstdin != pfail && pstdout != pfail
    requires pfail[0] != FD_INVALID
    requires s.PipesStdin() ==> pstdin[1] != FD_INVALID
    requires s.PipesStdout() ==> pstdout[0] != FD_INVALID
    modifies t, pstdin, pstdout, pfail
    ensures t.fds == old(t.fds) - {old(pfail[0])} - (if s.PipesStdin() then {old(pstdin[1])} else {})
                     - (if s.PipesStdout() then {old(pstdout[0])} else {})
    ensures pfail[1] == old(pfail[1]) && pstdin[0] == old(pstdin[0]) && pstdout[1] == old(pstdout[1])
  {
    t.CloseFd(pfail, PIPE_READ);
    if !s.inheritStdin && s.stdin == FD_INVALID {
      t.CloseFd(pstdin, PIPE_WRITE);
    }
    if !s.inheritStdout && s.stdout == FD_INVALID {
      t.CloseFd(pstdout, PIPE_READ);
    }
  }

  /** The effect of dup2. */
  function Dup(fds: Fds, source: int, target: int): Fds {
    if source in fds && source != target then fds[target := Descr(fds[source].id, false)] else fds
  }

  /** The stdin and stdout part of the dup2 sequence. */
  function DupTwo(s: Startup, fds: Fds, i: int, o: int): Fds {
    var first := if s.inheritStdin then fds else Dup(fds, i, 0);
    if s.inheritStdout then first else Dup(first, o, 1)
  }

  /** The stderr part; r is the read end that the child closes on the way. */
  function DupThird(s: Startup, fds: Fds, e: int, r: int): Fds {
    if s.mergeOutputs then Dup(fds, 1, 2)
    else if s.inheritStderr then fds
    else Dup(if s.stderr == FD_INVALID then fds - {r} else fds, e, 2)
  }

  method DupStreams(t: FdTable, s: Startup, pstdin: array<int>, pstdout: array<int>, pstderr: array<int>)
    requires pstdin.Length == 2 && pstdout.Length == 2 && pstderr.Length == 2
    requires pstdin != pstderr && pstdout != pstderr
    requires s.PipesStderr() ==> pstderr[0] != FD_INVALID
    modifies t, pstderr
    ensures t.fds == DupThird(s, DupTwo(s, old(t.fds), pstdin[0], pstdout[1]), pstderr[1], old(pstderr[0]))
    ensures pstderr[1] == old(pstderr[1])
  {
    if !s.inheritStdin {
      t.Dup2(pstdin[PIPE_READ], 0);
    }
    if !s.inheritStdout {
      t.Dup2(pstdout[PIPE_WRITE], 1);
    }
    if s.mergeOutputs {
      t.Dup2(1, 2);
    } else if !s.inheritStderr {
      if s.stderr == FD_INVALID {
        t.CloseFd(pstderr, PIPE_READ);
      }
      t.Dup2(pstderr[PIPE_WRITE], 2);
    }
  }

  /** The sources are closed after they have been duplicated, shared ones more than once. */
  method CloseSources(t: FdTable, s: Startup, pstdin: array<int>, pstdout: array<int>, pstderr: array<int>)
    requires pstdin.Length == 2 && pstdout.Length == 2 && pstderr.Length == 2
    requires pstdin != pstdout && pstdin != pstderr && pstdout != pstderr
    requires !s.inheritStdin ==> pstdin[0] != FD_INVALID
    requires !s.inheritStdout ==> pstdout[1] != FD_INVALID
    requires !s.NoStderr() ==> pstderr[1] != FD_INVALID
    modifies t, pstdin, pstdout, pstderr
    ensures t.fds == old(t.fds) - (if s.inheritStdin then {} else {old(pstdin[0])})
                     - (if s.inheritStdout then {} else {old(pstdout[1])})
                     - (if s.NoStderr() then {} else {old(pstderr[1])})
  {
    if !s.inheritStdin {
      t.CloseFd(pstdin, PIPE_READ);
    }
    if !s.inheritStdout {
      t.CloseFd(pstdout, PIPE_WRITE);
    }
    if !s.inheritStderr && !s.mergeOutputs {
      t.CloseFd(pstderr, PIPE_WRITE);
    }
  }

  /** Descriptors the child closes before the dup2 sequence. */
  function EarlyCloses(s: Startup, pin: seq<int>, pout: seq<int>, pfail: seq<int>): set<int>
    requires |pin| == |pout| == |pfail| == 2
  {
    {pfail[0]} + (if s.PipesStdin() then {pin[1]} else {}) + (if s.PipesStdout() then {pout[0]} else {})
  }

  /** The sources that are closed after it. */
  function Sources(s: Startup, pin: seq<int>, pout: seq<int>, perr: seq<int>): set<int>
    requires |pin| == |pout| == |perr| == 2
  {
    (if s.inheritStdin then {} else {pin[0]}) + (if s.inheritStdout then {} else {pout[1]})
    + (if s.NoStderr() then {} else {perr[1]})
  }

  /** The child's table in front of close_all_descriptors. */
  function Plumbed(s: Startup, fds: Fds, pin: seq<int>, pout: seq<int>, perr: seq<int>, pfail: seq<int>): Fds
    requires |pin| == |pout| == |perr| == |pfail| == 2
  {
    DupThird(s, DupTwo(s, fds - EarlyCloses(s, pin, pout, pfail), pin[0], pout[1]), perr[1], perr[0])
    - Sources(s, pin, pout, perr)
  }

  lemma DupTwoRight(s: Startup, fds: Fds, i: int, o: int)
    requires 0 in fds && 1 in fds && 2 in fds
    requires s.inheritStdin || (i > STDERR && i in fds)
    requires s.inheritStdout || (o > STDERR && o in fds)
    ensures var after := DupTwo(s, fds, i, o);
            && after.Keys == fds.Keys
            && after[0] == Wanted(fds, s.inheritStdin, 0, i)
            && after[1] == Wanted(fds, s.inheritStdout, 1, o)
            && (forall fd :: fd in fds && fd > 1 ==> after[fd] == fds[fd])
  {
  }

  lemma DupThirdRight(s: Startup, fds: Fds, e: int, r: int)
    requires 0 in fds && 1 in fds && 2 in fds
    requires s.NoStderr() || (e > STDERR && e in fds)
    requires s.PipesStderr() ==> r > STDERR && r != e
    ensures var after := DupThird(s, fds, e, r);
            && after.Keys == fds.Keys - (if s.PipesStderr() then {r} else {})
            && after[0] == fds[0] && after[1] == fds[1]
            && after[2] == (if s.mergeOutputs then Descr(fds[1].id, false) else Wanted(fds, s.inheritStderr, 2, e))
            && (forall fd :: fd in after && fd > STDERR ==> after[fd] == fds[fd])
  {
  }

  /** With high targets the plumbing is right, even when streams share a target. */
  lemma HighTargetsRight(s: Startup, fds: Fds, pin: seq<int>, pout: seq<int>, perr: seq<int>, pfail: seq<int>)
    requires Forked(s, fds, pin, pout, perr, pfail) && s.TargetsHigh()
    ensures StreamsRight(s, fds, pin, pout, perr, pfail, Plumbed(s, fds, pin, pout, perr, pfail))
  {
    var early := EarlyCloses(s, pin, pout, pfail);
    var a := fds - early;
    SourcesApart(s, fds, pin, pout, perr, pfail);
    SourcesOpen(s, fds, pin, pout, perr, pfail);
    DupTwoRight(s, a, pin[0], pout[1]);
    DupThirdRight(s, DupTwo(s, a, pin[0], pout[1]), perr[1], perr[0]);
  }

  /** No source of a stream is closed early, and the fail pipe is not among the sources. */
  lemma SourcesApart(s: Startup, fds: Fds, pin: seq<int>, pout: seq<int>, perr: seq<int>, pfail: seq<int>)
    requires Forked(s, fds, pin, pout, perr, pfail)
    ensures EarlyCloses(s, pin, pout, pfail) !! Sources(s, pin, pout, perr)
    ensures forall fd :: fd in EarlyCloses(s, pin, pout, pfail) ==> fd > STDERR
    ensures pfail[1] !in EarlyCloses(s, pin, pout, pfail) && pfail[1] !in Sources(s, pin, pout, perr)
  {
  }

  lemma SourcesOpen(s: Startup, fds: Fds, pin: seq<int>, pout: seq<int>, perr: seq<int>, pfail: seq<int>)
    requires Forked(s, fds, pin, pout, perr, pfail)
    ensures s.PipesStderr() ==>
              perr[0] > STDERR && perr[0] != pfail[1] && perr[0] !in Sources(s, pin, pout, perr)
    ensures s.TargetsHigh() ==> forall fd :: fd in Sources(s, pin, pout, perr) ==> fd > STDERR
    ensures forall fd :: fd in Sources(s, pin, pout, perr) ==> fd in fds
    ensures !s.inheritStdin ==> pin[0] in Sources(s, pin, pout, perr)
    ensures !s.inheritStdout ==> pout[1] in Sources(s, pin, pout, perr)
    ensures !s.NoStderr() ==> perr[1] in Sources(s, pin, pout, perr)
  {
  }

  /** A low target has been closed again. */
  lemma LowTargetLost(s: Startup, fds: Fds, pin: seq<int>, pout: seq<int>, perr: seq<int>, pfail: seq<int>)
    requires Forked(s, fds, pin, pout, perr, pfail) && !s.TargetsHigh()
    ensures var after := Plumbed(s, fds, pin, pout, perr, pfail);
            0 !in after || 1 !in after || 2 !in after
  {
    var low := if s.RedirectsStdin() && s.stdin <= STDERR then s.stdin
               else if s.RedirectsStdout() && s.stdout <= STDERR then s.stdout else s.stderr;
    assert low in fds && 0 <= low <= STDERR;
    assert low in Sources(s, pin, pout, perr);
  }

  lemma SourcesValid(s: Startup, fds: Fds, pin: seq<int>, pout: seq<int>, perr: seq<int>, pfail: seq<int>)
    requires Forked(s, fds, pin, pout, perr, pfail)
    ensures AllValid(s, pin, pout, perr, pfail)
  {
    SourcesApart(s, fds, pin, pout, perr, pfail);
    SourcesOpen(s, fds, pin, pout, perr, pfail);
  }

  /** No close_fd of the child meets a cleared variable. */
  predicate AllValid(s: Startup, pin: seq<int>, pout: seq<int>, perr: seq<int>, pfail: seq<int>) {
    && |pin| == |pout| == |perr| == |pfail| == 2
    && pfail[0] != FD_INVALID
    && (s.PipesStdin() ==> pin[1] != FD_INVALID)
    && (s.PipesStdout() ==> pout[0] != FD_INVALID)
    && (s.PipesStderr() ==> perr[0] != FD_INVALID)
    && (!s.inheritStdin ==> pin[0] != FD_INVALID)
    && (!s.inheritStdout ==> pout[1] != FD_INVALID)
    && (!s.NoStderr() ==> perr[1] != FD_INVALID)
  }

  method Plumb(t: FdTable, s: Startup,
                    pstdin: array<int>, pstdout: array<int>, pstderr: array<int>, pfail: array<int>)
    requires pstdin.Length == 2 && pstdout.Length == 2 && pstderr.Length == 2 && pfail.Length == 2
    requires pstdin != pstdout && pstdin != pstderr && pstdin != pfail
    requires pstdout != pstderr && pstdout != pfail && pstderr != pfail
    requires AllValid(s, pstdin[..], pstdout[..], pstderr[..], pfail[..])
    modifies t, pstdin, pstdout, pstderr, pfail
    ensures t.fds == old(Plumbed(s, t.fds, pstdin[..], pstdout[..], pstderr[..], pfail[..]))
    ensures pfail[1] == old(pfail[1])
  {
    ghost var fds, pin, pout, perr, pf := t.fds, pstdin[..], pstdout[..], pstderr[..], pfail[..];
    CloseParentEnds(t, s, pstdin, pstdout, pfail);
    assert t.fds == fds - EarlyCloses(s, pin, pout, pf);
    DupStreams(t, s, pstdin, pstdout, pstderr);
    ghost var dupped := t.fds;
    CloseSources(t, s, pstdin, pstdout, pstderr);
    assert t.fds == dupped - Sources(s, pin, pout, perr);
  }

  /** child_proc up to exec: the table is right at exec exactly when no redirect target
      in use is a standard descriptor. */
  method ChildProc(t: FdTable, s: Startup,
                   pstdin: array<int>, pstdout: array<int>, pstderr: array<int>, pfail: array<int>,
                   answer1: RangeAnswer, answer2: RangeAnswer, openMax: int, chdirOk: bool, fcntlOk: bool)
      returns (reached: bool, byRange: bool)
    requires pstdin.Length == 2 && pstdout.Length == 2 && pstderr.Length == 2 && pfail.Length == 2
    requires pstdin != pstdout && pstdin != pstderr && pstdin != pfail
    requires pstdout != pstderr && pstdout != pfail && pstderr != pfail
    requires Forked(s, t.fds, pstdin[..], pstdout[..], pstderr[..], pfail[..])
    modifies t, pstdin, pstdout, pstderr, pfail
    ensures reached <==> chdirOk && fcntlOk
    ensures old(pfail[1]) in t.fds && t.fds[old(pfail[1])].id == old(t.fds[pfail[1]].id)
    ensures reached ==>
              (AtExec(s, old(t.fds), old(pstdin[..]), old(pstdout[..]), old(pstderr[..]), old(pfail[..]),
                      t.fds, byRange, openMax)
               <==> s.TargetsHigh())
    ensures reached ==> old(PipeEnds(s, pstdin[..], pstdout[..], pstderr[..], pfail[..])) !! t.fds.Keys
  {
    ghost var fds, pin, pout, perr, pf := t.fds, pstdin[..], pstdout[..], pstderr[..], pfail[..];
    SourcesValid(s, fds, pin, pout, perr, pf);
    Plumb(t, s, pstdin, pstdout, pstderr, pfail);
    var failFd := pfail[PIPE_WRITE];
    PlumbedRange(s, fds, pin, pout, perr, pf);
    FailPipeKept(s, fds, pin, pout, perr, pf);
    PipesClosed(s, fds, pin, pout, perr, pf);
    byRange := t.CloseAllDescriptors(STDERR + 1, failFd, answer1, answer2, openMax);
    if s.TargetsHigh() {
      HighTargetsRight(s, fds, pin, pout, perr, pf);
    } else {
      LowTargetLost(s, fds, pin, pout, perr, pf);
    }
    if !chdirOk {
      return false, byRange;
    }
    if !fcntlOk {
      return false, byRange;
    }
    t.fds := t.fds[failFd := t.fds[failFd].(cloexec := true)];
    return true, byRange;
  }

  /** The pipe ends the child has no use for after the dup2 sequence, the parent's included. */
  function PipeEnds(s: Startup, pin: seq<int>, pout: seq<int>, perr: seq<int>, pfail: seq<int>): set<int>
    requires |pin| == |pout| == |perr| == |pfail| == 2
  {
    {pfail[0]} + Ends(s.PipesStdin(), pin) + Ends(s.PipesStdout(), pout) + Ends(s.PipesStderr(), perr)
  }

  /** They are closed one by one, whatever limit the fallback loop has. */
  lemma PipesClosed(s: Startup, fds: Fds, pin: seq<int>, pout: seq<int>, perr: seq<int>, pfail: seq<int>)
    requires Forked(s, fds, pin, pout, perr, pfail)
    ensures PipeEnds(s, pin, pout, perr, pfail) !! Plumbed(s, fds, pin, pout, perr, pfail).Keys
    ensures pfail[1] !in PipeEnds(s, pin, pout, perr, pfail)
  {
    SourcesApart(s, fds, pin, pout, perr, pfail);
    SourcesOpen(s, fds, pin, pout, perr, pfail);
    forall fd | fd in PipeEnds(s, pin, pout, perr, pfail)
      ensures fd > 2 && (fd in EarlyCloses(s, pin, pout, pfail) || fd in Sources(s, pin, pout, perr)
                         || (s.PipesStderr() && fd == perr[0]))
    {
    }
  }

  /** The way back to the parent stays open through all of it. */
  lemma FailPipeKept(s: Startup, fds: Fds, pin: seq<int>, pout: seq<int>, perr: seq<int>, pfail: seq<int>)
    requires Forked(s, fds, pin, pout, perr, pfail)
    ensures var after := Plumbed(s, fds, pin, pout, perr, pfail);
            pfail[1] in after && after[pfail[1]] == fds[pfail[1]]
  {
    SourcesApart(s, fds, pin, pout, perr, pfail);
    SourcesOpen(s, fds, pin, pout, perr, pfail);
  }

  lemma PlumbedRange(s: Startup, fds: Fds, pin: seq<int>, pout: seq<int>, perr: seq<int>, pfail: seq<int>)
    requires Forked(s, fds, pin, pout, perr, pfail)
    ensures forall fd :: fd in Plumbed(s, fds, pin, pout, perr, pfail) ==> 0 <= fd <= MAX_UINT
  {
    SourcesApart(s, fds, pin, pout, perr, pfail);
    SourcesOpen(s, fds, pin, pout, perr, pfail);
  }

  /** Stdin redirected to the parent's stderr, descriptor 2, with everything else inherited:
      the child has no stderr. */
  lemma RedirectedToStderr()
    ensures var s := Startup(false, true, true, false, 2, FD_INVALID, FD_INVALID);
            var fds: Fds := map[0 := Descr(0, false), 1 := Descr(1, false), 2 := Descr(2, false),
                                3 := Descr(3, true), 4 := Descr(4, true)];
            && Forked(s, fds, [2, 2], [FD_INVALID, FD_INVALID], [FD_INVALID, FD_INVALID], [3, 4])
            && 2 !in Plumbed(s, fds, [2, 2], [FD_INVALID, FD_INVALID], [FD_INVALID, FD_INVALID], [3, 4])
  {
  }
}
