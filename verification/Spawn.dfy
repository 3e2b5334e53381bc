// Creation as a whole: the child that the fork leaves behind, what it says through the fail
// pipe, and what the parent makes of it.

module Spawn {

  import opened Common
  import C = CreateProcess
  import D = Descriptors
  import E = ExecSearch

  /** How the child's own code ends. */
  datatype End = Executed | Reported(errno: nat) | Died

  /** What the system answers to the child on its way: whether it is killed without a word,
      and the errors of chdir and fcntl, 0 for none. */
  datatype Luck = Luck(dies: bool, chdirError: nat, fcntlError: nat,
                       range1: D.RangeAnswer, range2: D.RangeAnswer, openMax: int)

  /** An int as it is written to the pipe, low byte first. */
  function Bytes(n: nat): (b: seq<C.byte>)
    ensures |b| == 4
  {
    [(n % 256) as C.byte, (n / 256 % 256) as C.byte, (n / 65536 % 256) as C.byte, (n / 16777216 % 256) as C.byte]
  }

  /** The int the parent reads into. */
  function Number(b: seq<C.byte>): nat
    requires |b| == 4
  {
    b[0] as nat + b[1] as nat * 256 + b[2] as nat * 65536 + b[3] as nat * 16777216
  }

  lemma NumberOfBytes(n: nat)
    requires n < 0x1_0000_0000
    ensures Number(Bytes(n)) == n
  {
    var a := n / 256;
    var b := a / 256;
    var c := b / 256;
    assert n / 65536 == b && n / 16777216 == c && c < 256;
  }

  lemma LowByteFirst(n: C.byte)
    ensures Bytes(n as nat) == [n, 0, 0, 0]
  {
  }

  /** exit_with_error writes its errno; exec and a silent death only close the pipe. */
  function Report(end: End): seq<C.byte> {
    if end.Reported? then Bytes(end.errno) else []
  }

  /** The pipe delivers exactly these bytes, in whatever pieces and interruptions. */
  predicate Carries(script: seq<C.ReadAnswer>, bytes: seq<C.byte>) {
    C.Flow(script) == bytes && !C.EndsBroken(script)
  }

  /** Where the child's code ends up. */
  function EndOf(luck: Luck, system: E.System, library: E.System, file: string, args: E.Args, inherits: bool,
                 pathEnv: Option<string>): End
  {
    if luck.dies then Died
    else if luck.chdirError != 0 then Reported(luck.chdirError)
    else if luck.fcntlError != 0 then Reported(luck.fcntlError)
    else
      var errno := E.Exec(system, library, file, args, inherits, pathEnv).errno;
      if errno == 0 then Executed else Reported(errno)
  }

  /** The first thing that goes wrong is what is reported: chdir, then fcntl, then the exec. */
  ghost predicate Ends(luck: Luck, system: E.System, library: E.System, file: string, args: E.Args, inherits: bool,
                       pathEnv: Option<string>, end: End)
  {
    if luck.dies then end == Died
    else if luck.chdirError != 0 then end == Reported(luck.chdirError)
    else if luck.fcntlError != 0 then end == Reported(luck.fcntlError)
    else exists tries, errno ::
        && E.Executes(system, library, file, args, inherits, pathEnv, tries, errno)
        && end == if errno == 0 then Executed else Reported(errno)
  }

  lemma EndOfEnds(luck: Luck, system: E.System, library: E.System, file: string, args: E.Args, inherits: bool,
                  pathEnv: Option<string>)
    ensures Ends(luck, system, library, file, args, inherits, pathEnv,
                 EndOf(luck, system, library, file, args, inherits, pathEnv))
  {
    E.ExecExecutes(system, library, file, args, inherits, pathEnv);
  }

  /** child_proc up to its end. */
  method Child(t: D.FdTable, s: D.Startup, ghost fork: C.ForkPoint,
               pstdin: array<int>, pstdout: array<int>, pstderr: array<int>, pfail: array<int>,
               luck: Luck, p: E.Process, file: string, argv: array<Option<string>>, inherits: bool,
               pathEnv: Option<string>, ghost args: E.Args)
      returns (end: End, ghost byRange: bool)
    requires pstdin.Length == 2 && pstdout.Length == 2 && pstderr.Length == 2 && pfail.Length == 2
    requires pstdin != pstdout && pstdin != pstderr && pstdin != pfail
    requires pstdout != pstderr && pstdout != pfail && pstderr != pfail
    requires fork == C.ForkPoint(t.fds, pstdin[..], pstdout[..], pstderr[..], pfail[..])
    requires D.Forked(s, fork.fds, fork.pin, fork.pout, fork.perr, fork.pfail)
    requires E.Holds(argv[..], args)
    requires NulFree(file) && (pathEnv.Some? ==> NulFree(pathEnv.value))
    modifies t, pstdin, pstdout, pstderr, pfail, p, argv
    ensures end == EndOf(luck, p.system, p.library, file, args, inherits, pathEnv)
    ensures Ends(luck, p.system, p.library, file, args, inherits, pathEnv, end)
    ensures end.Executed? ==>
              (D.AtExec(s, fork.fds, fork.pin, fork.pout, fork.perr, fork.pfail, t.fds, byRange, luck.openMax)
               <==> s.TargetsHigh())
    ensures end.Reported? ==> fork.pfail[1] in t.fds && t.fds[fork.pfail[1]].id == fork.fds[fork.pfail[1]].id
  {
    EndOfEnds(luck, p.system, p.library, file, args, inherits, pathEnv);
    byRange := false;
    if luck.dies {
      return Died, byRange;
    }
    var reached;
    reached, byRange := D.ChildProc(t, s, pstdin, pstdout, pstderr, pfail, luck.range1, luck.range2, luck.openMax,
                                    luck.chdirError == 0, luck.fcntlError == 0);
    if !reached {
      return Reported(if luck.chdirError != 0 then luck.chdirError else luck.fcntlError), byRange;
    }
    p.Execvpe(file, argv, inherits, pathEnv, args);
    if p.errno == 0 {
      return Executed, byRange;
    }
    return Reported(p.errno), byRange;
  }

  /** The child's copy of a pair. */
  method PairArray(pair: seq<int>) returns (a: array<int>)
    requires |pair| == 2
    ensures fresh(a) && a.Length == 2 && a[..] == pair
  {
    a := new int[2] [pair[0], pair[1]];
  }

  /** The child of a fork, run on its own copy of the table. */
  method RunChild(s: D.Startup, fds: D.Fds, k: C.Kernel, luck: Luck, system: E.System, library: E.System,
                  file: string, argv: array<Option<string>>, inherits: bool, pathEnv: Option<string>,
                  ghost args: E.Args)
      returns (end: End)
    requires C.Fresh(k, fds) && C.Granted(s, k) && k.fail.Pair? && s.TargetsOpen(fds)
    requires forall fd :: fd in fds ==> 0 <= fd <= D.MAX_UINT
    requires 0 in fds && 1 in fds && 2 in fds
    requires E.Holds(argv[..], args)
    requires NulFree(file) && (pathEnv.Some? ==> NulFree(pathEnv.value))
    modifies argv
    ensures end == EndOf(luck, system, library, file, args, inherits, pathEnv)
  {
    var fork := C.ForkAt(s, fds, k);
    C.GrantedForked(s, fds, k);
    var t := new D.FdTable(fork.fds);
    var pstdin := PairArray(fork.pin);
    var pstdout := PairArray(fork.pout);
    var pstderr := PairArray(fork.perr);
    var pfail := PairArray(fork.pfail);
    var p := new E.Process(system, library);
    ghost var byRange;
    end, byRange := Child(t, s, fork, pstdin, pstdout, pstderr, pfail, luck, p, file, argv, inherits,
                         pathEnv, args);
  }

  /** Creation succeeds exactly when the child executed, or died without a word, which the
      parent cannot tell from it; otherwise the parent throws with the errno the child met. */
  method Create(t: D.FdTable, s: D.Startup, k: C.Kernel, luck: Luck, system: E.System, library: E.System,
                file: string, argv: array<Option<string>>, inherits: bool, pathEnv: Option<string>,
                pieces: seq<C.byte> -> seq<C.ReadAnswer>, ghost args: E.Args)
      returns (r: C.Result, end: End)
    requires C.Fresh(k, t.fds) && s.TargetsOpen(t.fds)
    requires C.Granted(s, k) && k.fail.Pair? && k.forks
    requires forall fd :: fd in t.fds ==> 0 <= fd <= D.MAX_UINT
    requires 0 in t.fds && 1 in t.fds && 2 in t.fds
    requires forall bytes :: Carries(pieces(bytes), bytes)
    requires E.Holds(argv[..], args)
    requires NulFree(file) && (pathEnv.Some? ==> NulFree(pathEnv.value))
    modifies t, argv
    ensures end == EndOf(luck, system, library, file, args, inherits, pathEnv)
    ensures Ends(luck, system, library, file, args, inherits, pathEnv, end)
    ensures r.Ok? <==> end.Executed? || end.Died?
    ensures end.Reported? ==> r == C.Err(C.ExecFailed(Bytes(end.errno)))
    ensures end.Reported? && end.errno < 0x1_0000_0000 ==> Number(r.failure.errno) == end.errno
    ensures r.Ok? ==> C.HandedOver(s, k, old(t.fds), t.fds, r.info)
    ensures r.Err? ==> t.fds == old(t.fds)
    ensures t.badCloses == old(t.badCloses)
  {
    EndOfEnds(luck, system, library, file, args, inherits, pathEnv);
    end := RunChild(s, t.fds, k, luck, system, library, file, argv, inherits, pathEnv, args);
    var answered := k.(report := pieces(Report(end)));
    ghost var fork;
    r, fork := C.Create(t, s, answered);
    if end.Reported? {
      assert Bytes(end.errno)[..4] == Bytes(end.errno);
      if end.errno < 0x1_0000_0000 {
        NumberOfBytes(end.errno);
      }
    }
  }
}
