// The exec step of the child: PATH split in place, the search over its directories, and
// the retry through the shell that shifts argv and shifts it back.

module ExecSearch {

  import opened Common

  const ENOENT := 2
  const ENOEXEC := 8
  const EACCES := 13
  const ENODEV := 19
  const ENOTDIR := 20
  const ENAMETOOLONG := 36
  const ELOOP := 40
  const ETIMEDOUT := 110
  const ESTALE := 116
  const PATH_MAX := 4096

  // ----- PATH -----

  /** The text between colons, from position p on. */
  function Components(path: string, p: nat): (cs: seq<string>)
    requires p <= |path|
    ensures cs != []
    decreases |path| - p
  {
    var q := Span(path, ':', p);
    if q < |path| then [path[p..q]] + Components(path, q + 1) else [path[p..q]]
  }

  /** A directory to search has a name, and an argument vector a first element. */
  type Dir = d: string | d != "" witness "."
  type Args = a: seq<string> | a != [] witness ["sh"]

  /** An empty component stands for the current directory. */
  function Directory(component: string): Dir {
    if component == "" then "." else component
  }

  function Directories(cs: seq<string>): (ds: seq<Dir>)
    ensures |ds| == |cs| && forall i :: 0 <= i < |cs| ==> ds[i] == Directory(cs[i])
  {
    seq(|cs|, i requires 0 <= i < |cs| => Directory(cs[i]))
  }

  /** Joining the components with colons gives PATH back: nothing is lost by the split. */
  function Joined(cs: seq<string>): string
    requires cs != []
  {
    if |cs| == 1 then cs[0] else cs[0] + ":" + Joined(cs[1..])
  }

  lemma JoinedMore(all: seq<string>, first: string, rest: seq<string>)
    requires rest != [] && all == [first] + rest
    ensures Joined(all) == first + ":" + Joined(rest)
  {
    assert all[1..] == rest;
  }

  lemma {:induction false} JoinSplit(path: string, p: nat)
    requires p <= |path|
    ensures Joined(Components(path, p)) == path[p..]
    decreases |path| - p
  {
    var q := Span(path, ':', p);
    if q == |path| {
      assert path[p..q] == path[p..];
    } else {
      JoinSplit(path, q + 1);
      JoinedMore(Components(path, p), path[p..q], Components(path, q + 1));
      SplitAt(path, p, q);
    }
  }

  lemma SplitAt(path: string, p: nat, q: nat)
    requires p <= q < |path| && path[q] == ':'
    ensures path[p..] == path[p..q] + ":" + path[q + 1..]
  {
  }

  lemma {:induction false} ComponentsWithoutColon(path: string, p: nat)
    requires p <= |path|
    ensures forall c :: c in Components(path, p) ==> ':' !in c
    decreases |path| - p
  {
    var q := Span(path, ':', p);
    if q < |path| {
      ComponentsWithoutColon(path, q + 1);
    }
  }

  function Colons(path: string, p: nat): nat
    requires p <= |path|
    decreases |path| - p
  {
    if p == |path| then 0 else (if path[p] == ':' then 1 else 0) + Colons(path, p + 1)
  }

  lemma {:induction false} ColonsSkip(path: string, p: nat, q: nat)
    requires p <= q <= |path| && forall i :: p <= i < q ==> path[i] != ':'
    ensures Colons(path, p) == Colons(path, q)
    decreases q - p
  {
    if p < q {
      ColonsSkip(path, p + 1, q);
    }
  }

  lemma {:induction false} CountComponents(path: string, p: nat)
    requires p <= |path|
    ensures |Components(path, p)| == Colons(path, p) + 1
    decreases |path| - p
  {
    var q := Span(path, ':', p);
    ColonsSkip(path, p, q);
    if q < |path| {
      CountComponents(path, q + 1);
    }
  }

  /** A slot of pathv: the literal "." or a pointer into the copy. */
  datatype Slot = Dot | At(p: nat)

  /** The C string a slot points to. */
  ghost predicate Points(buf: string, slot: Slot, d: string) {
    match slot
    case Dot => d == "."
    case At(p) => p + |d| < |buf| && buf[p..p + |d|] == d && buf[p + |d|] == NUL && NUL !in d
  }

  lemma PointsKept(was: string, sep: nat, slot: Slot, d: string)
    requires Points(was, slot, d) && sep < |was| && (slot.At? ==> slot.p + |d| < sep)
    ensures Points(was[sep := NUL], slot, d)
  {
    if slot.At? {
      assert was[sep := NUL][slot.p..slot.p + |d|] == was[slot.p..slot.p + |d|];
    }
  }

  lemma PointsNew(buf: string, p: nat, sep: nat, c: string)
    requires p <= sep < |buf| && buf[sep] == NUL && c == buf[p..sep] && NUL !in c
    ensures Points(buf, if p == sep then Dot else At(p), Directory(c))
  {
  }

  /** The state of the splitting loop after i components, the next one starting at p. */
  ghost predicate Cut(path: string, all: seq<string>, buf: string, pathv: seq<Slot>, p: nat) {
    Ahead(path, all, buf, |pathv|, p) && Behind(all, buf, pathv, p)
  }

  /** From p on the copy is still what it was. */
  ghost predicate Ahead(path: string, all: seq<string>, buf: string, i: nat, p: nat) {
    && |buf| == |path| + 1
    && i <= |all|
    && (i < |all| ==> p <= |path| && all[i..] == Components(path, p))
    && (forall j :: p <= j < |buf| ==> buf[j] == if j < |path| then path[j] else NUL)
  }

  /** The slots point to their directories, in front of p. */
  ghost predicate Behind(all: seq<string>, buf: string, pathv: seq<Slot>, p: nat) {
    && |pathv| <= |all|
    && forall k :: 0 <= k < |pathv| ==>
         Points(buf, pathv[k], Directory(all[k])) && (pathv[k].At? ==> pathv[k].p + |Directory(all[k])| < p)
  }

  lemma CutTurn(path: string, all: seq<string>, buf: string, pathv: seq<Slot>, p: nat)
    requires NUL !in path && Cut(path, all, buf, pathv, p) && |pathv| < |all|
    ensures var sep := Span(path, ':', p);
            Cut(path, all, buf[sep := NUL], pathv + [if p == sep then Dot else At(p)], sep + 1)
  {
    RestOfComponents(path, all, |pathv|, p);
    BehindTurn(path, all, buf, pathv, p);
  }

  lemma BehindTurn(path: string, all: seq<string>, buf: string, pathv: seq<Slot>, p: nat)
    requires NUL !in path && Ahead(path, all, buf, |pathv|, p) && Behind(all, buf, pathv, p) && |pathv| < |all|
    ensures var sep := Span(path, ':', p);
            Behind(all, buf[sep := NUL], pathv + [if p == sep then Dot else At(p)], sep + 1)
  {
    var i, sep := |pathv|, Span(path, ':', p);
    var now, slots := buf[sep := NUL], pathv + [if p == sep then Dot else At(p)];
    RestOfComponents(path, all, i, p);
    forall k | 0 <= k <= i ensures Points(now, slots[k], Directory(all[k])) {
      if k < i {
        PointsKept(buf, sep, pathv[k], Directory(all[k]));
      } else {
        assert now[p..sep] == path[p..sep];
        PointsNew(now, p, sep, all[i]);
      }
    }
  }

  lemma RestOfComponents(path: string, all: seq<string>, i: nat, p: nat)
    requires i < |all| && p <= |path| && all[i..] == Components(path, p)
    ensures var sep := Span(path, ':', p);
            && all[i] == path[p..sep]
            && (i + 1 < |all| <==> sep < |path|)
            && (i + 1 < |all| ==> all[i + 1..] == Components(path, sep + 1))
  {
    assert all[i] == all[i..][0];
    assert all[i + 1..] == all[i..][1..];
  }

  /** effective_pathv: the copy is cut at its colons, and pathv points at the pieces. */
  method EffectivePathv(path: string) returns (buf: array<char>, pathv: seq<Slot>)
    requires NUL !in path
    ensures fresh(buf)
    ensures |pathv| == |Components(path, 0)|
    ensures forall i :: 0 <= i < |pathv| ==> Points(buf[..], pathv[i], Directories(Components(path, 0))[i])
  {
    var count := Colons(path, 0) + 1;
    CountComponents(path, 0);
    ghost var all := Components(path, 0);
    buf := new char[|path| + 1](i requires 0 <= i => if i < |path| then path[i] else NUL);
    pathv := SplitInPlace(path, all, buf, count);
  }

  /** The splitting loop, over as many components as there are. */
  method SplitInPlace(ghost path: string, ghost all: seq<string>, buf: array<char>, count: nat) returns (pathv: seq<Slot>)
    requires NUL !in path && count == |all| && Cut(path, all, buf[..], [], 0)
    modifies buf
    ensures |pathv| == |all| && forall k :: 0 <= k < |all| ==> Points(buf[..], pathv[k], Directory(all[k]))
  {
    pathv := [];
    var p := 0;
    for i := 0 to count
      invariant |pathv| == i && Cut(path, all, buf[..], pathv, p)
    {
      pathv, p := CutOne(path, all, buf, pathv, p);
    }
  }

  method CutOne(ghost path: string, ghost all: seq<string>, buf: array<char>, before: seq<Slot>, p: nat)
    returns (pathv: seq<Slot>, next: nat)
    requires NUL !in path && |before| < |all| && Cut(path, all, buf[..], before, p)
    modifies buf
    ensures |pathv| == |before| + 1 && Cut(path, all, buf[..], pathv, next)
  {
    ghost var was := buf[..];
    CutTurn(path, all, was, before, p);
    assert buf.Length == |path| + 1 && forall j :: p <= j <= |path| ==> was[j] == buf[j];
    var sep := Strcspn(buf, p, path);
    pathv := before + [if p == sep then Dot else At(p)];
    if buf[sep] == ':' {
      buf[sep] := NUL;
    }
    assert buf[..] == was[sep := NUL];
    next := sep + 1;
  }

  /** The first colon of the C string that starts at p, or its end. */
  method Strcspn(buf: array<char>, p: nat, ghost path: string) returns (sep: nat)
    requires NUL !in path && p <= |path| < buf.Length && buf[|path|] == NUL
    requires forall j :: p <= j < |path| ==> buf[j] == path[j]
    ensures sep == Span(path, ':', p) && buf[sep] == if sep < |path| then ':' else NUL
  {
    sep := p;
    while buf[sep] != ':' && buf[sep] != NUL
      invariant p <= sep <= |path| && Span(path, ':', sep) == Span(path, ':', p)
      decreases |path| - sep
    {
      sep := sep + 1;
    }
  }

  // ----- argv -----

  type Argv = seq<Option<string>>

  function Pointers(args: seq<string>): (p: Argv)
    ensures |p| == |args| && forall i :: 0 <= i < |args| ==> p[i] == Some(args[i])
  {
    seq(|args|, i requires 0 <= i < |args| => Some(args[i]))
  }

  /** The arguments, a null pointer, and one slot to spare. */
  ghost predicate Holds(argv: Argv, args: Args) {
    argv == Pointers(args) + [None, None]
  }

  /** What execve makes of a null-terminated array. */
  function Strings(argv: Argv): seq<string> {
    if argv == [] || argv[0].None? then [] else [argv[0].value] + Strings(argv[1..])
  }

  lemma {:induction false} StringsOf(args: seq<string>, rest: Argv)
    requires rest != [] && rest[0].None?
    ensures Strings(Pointers(args) + rest) == args
  {
    var argv := Pointers(args) + rest;
    if args == [] {
      assert argv == rest;
    } else {
      assert argv[1..] == Pointers(args[1..]) + rest;
      StringsOf(args[1..], rest);
      assert [args[0]] + args[1..] == args;
    }
  }

  /** How the system answers an execve: 0 when the process image is replaced. */
  type System = (string, seq<string>) -> nat

  type Attempt = (string, seq<string>)

  /** The calling process, as far as exec changes it. */
  class Process {
    const system: System
    /** How the C library's execvp answers; it does its own search. */
    const library: System
    var attempts: seq<Attempt>
    /** 0 once execve has succeeded and nothing below it ever runs. */
    var errno: nat

    constructor (system: System, library: System)
      ensures this.system == system && this.library == library && attempts == []
    {
      this.system, this.library, attempts, errno := system, library, [], ENOENT;
    }

    method Execve(file: string, argv: array<Option<string>>)
      modifies this
      ensures attempts == old(attempts) + [(file, Strings(argv[..]))]
      ensures errno == system(file, Strings(argv[..]))
    {
      attempts := attempts + [(file, Strings(argv[..]))];
      errno := system(file, Strings(argv[..]));
    }

    /** The shell gets its own name, the script and the remaining arguments; afterwards
        argv is what it was. */
    method ExecveWithoutShebang(file: string, argv: array<Option<string>>, ghost args: Args)
      requires Holds(argv[..], args)
      modifies this, argv
      ensures attempts == old(attempts) + [("/bin/sh", ShellArgs(file, args))]
      ensures errno == system("/bin/sh", ShellArgs(file, args))
      ensures argv[..] == old(argv[..])
    {
      ghost var before := argv[..];
      var argv0 := argv[0];
      var end := 0;
      while argv[end].Some?
        invariant 0 <= end <= |args|
        decreases |args| - end
      {
        end := end + 1;
      }
      Memmove(argv, 2, 1, end);
      argv[0] := Some("/bin/sh");
      argv[1] := Some(file);
      ShiftedForShell(before, file, args);
      assert argv[..] == Shifted(before, file, end);
      StringsOf(ShellArgs(file, args), [None]);
      Execve("/bin/sh", argv);
      Memmove(argv, 1, 2, end);
      argv[0] := argv0;
      ShiftedBack(before, file, args);
    }

    method ExecveOrShebang(file: string, argv: array<Option<string>>, ghost args: Args)
      requires Holds(argv[..], args)
      modifies this, argv
      ensures attempts == old(attempts) + Tries(system, file, args)
      ensures errno == Answer(system, file, args)
      ensures argv[..] == old(argv[..])
    {
      StringsOf(args, [None, None]);
      Execve(file, argv);
      if errno == ENOEXEC {
        ExecveWithoutShebang(file, argv, args);
      }
    }

    /** The search itself; the path buffer is filled in place for every directory. */
    method SearchPath(buf: array<char>, pathv: seq<Slot>, file: string, argv: array<Option<string>>,
                      ghost args: Args, ghost dirs: seq<Dir>)
      requires Holds(argv[..], args) && dirs != []
      requires NUL !in file
      requires |pathv| == |dirs| && forall i :: 0 <= i < |dirs| ==> Points(buf[..], pathv[i], dirs[i])
      modifies this, argv
      ensures argv[..] == old(argv[..])
      ensures Outcome(attempts, errno) == After(old(attempts), Search(system, dirs, file, args, false, old(errno)))
    {
      var absolutePath := new char[PATH_MAX](_ => NUL);
      var filelen := |file|;
      var stickyErrno := 0;
      ghost var whole := After(attempts, Search(system, dirs, file, args, false, errno));
      for i := 0 to |pathv|
        invariant argv[..] == old(argv[..]) && absolutePath.Length == PATH_MAX
        invariant stickyErrno == 0 || stickyErrno == EACCES
        invariant whole == After(attempts, Search(system, dirs[i..], file, args, stickyErrno != 0, errno))
      {
        var dir := Deref(buf, pathv[i], dirs[i]);
        SearchStep(system, dirs, i, file, args, stickyErrno != 0, errno, attempts);
        if filelen + |dir| + 2 >= PATH_MAX {
          errno := ENAMETOOLONG;
          continue;
        }
        var goOn := TryIn(absolutePath, dir, file, argv, args);
        if !goOn {
          return;
        }
        if errno == EACCES {
          stickyErrno := errno;
        }
      }
      SearchEnd(system, dirs, file, args, stickyErrno != 0, errno, attempts);
      if stickyErrno != 0 {
        errno := stickyErrno;
      }
    }

    /** One directory: is the error it leaves one to go past? */
    method TryIn(absolutePath: array<char>, dir: Dir, file: string, argv: array<Option<string>>, ghost args: Args)
      returns (goOn: bool)
      requires Holds(argv[..], args) && absolutePath.Length == PATH_MAX && !TooLong(dir, file)
      modifies this, argv, absolutePath
      ensures argv[..] == old(argv[..])
      ensures attempts == old(attempts) + Tries(system, Candidate(dir, file), args)
      ensures errno == Answer(system, Candidate(dir, file), args) && (goOn <==> Skippable(errno))
    {
      var length := FillPath(absolutePath, dir, file);
      ExecveOrShebang(absolutePath[..length], argv, args);
      goOn := errno == EACCES || errno == ENOENT || errno == ENOTDIR || errno == ELOOP || errno == ESTALE
              || errno == ENODEV || errno == ETIMEDOUT;
    }

    /** The candidate's path with its terminator; all writes stay inside the buffer. */
    method FillPath(absolutePath: array<char>, dir: Dir, file: string) returns (length: nat)
      requires absolutePath.Length == PATH_MAX && !TooLong(dir, file)
      modifies absolutePath
      ensures length < PATH_MAX && absolutePath[length] == NUL
      ensures absolutePath[..length] == Candidate(dir, file)
    {
      var dirlen := |dir|;
      forall k | 0 <= k < dirlen {
        absolutePath[k] := dir[k];
      }
      if absolutePath[dirlen - 1] != '/' {
        absolutePath[dirlen] := '/';
        dirlen := dirlen + 1;
      }
      forall k | 0 <= k < |file| {
        absolutePath[dirlen + k] := file[k];
      }
      length := dirlen + |file|;
      absolutePath[length] := NUL;
    }

    /** Reading the directory a slot points to. */
    method Deref(buf: array<char>, slot: Slot, ghost d: string) returns (s: string)
      requires Points(buf[..], slot, d)
      ensures s == d
    {
      if slot.Dot? {
        return ".";
      }
      var q := slot.p;
      assert forall i :: 0 <= i < |d| ==> buf[..][slot.p..slot.p + |d|][i] == d[i];
      while buf[q] != NUL
        invariant slot.p <= q <= slot.p + |d|
        invariant forall i :: slot.p <= i < slot.p + |d| ==> buf[i] == d[i - slot.p]
        decreases slot.p + |d| - q
      {
        q := q + 1;
      }
      s := buf[slot.p..q];
    }

    /** execvp(3). */
    method Execvp(file: string, argv: array<Option<string>>)
      modifies this`errno
      ensures errno == library(file, Strings(argv[..]))
    {
      errno := library(file, Strings(argv[..]));
    }

    /** mpp_execvpe; a child that inherits its environment leaves everything to execvp. */
    method Execvpe(file: string, argv: array<Option<string>>, inherits: bool, pathEnv: Option<string>,
                   ghost args: Args)
      requires Holds(argv[..], args)
      requires NUL !in file && (pathEnv.Some? ==> NUL !in pathEnv.value)
      modifies this, argv
      ensures argv[..] == old(argv[..])
      ensures var o := Exec(system, library, file, args, inherits, pathEnv);
              attempts == old(attempts) + o.tries && errno == o.errno
      ensures old(attempts) <= attempts
      ensures Executes(system, library, file, args, inherits, pathEnv, attempts[|old(attempts)|..], errno)
    {
      ExecExecutes(system, library, file, args, inherits, pathEnv);
      if inherits {
        StringsOf(args, [None, None]);
        Execvp(file, argv);
        return;
      }
      if file == "" {
        errno := ENOENT;
        return;
      }
      if '/' in file {
        ExecveOrShebang(file, argv, args);
      } else {
        var path := if pathEnv.Some? then pathEnv.value else ":/bin:/usr/bin";
        var buf, pathv := EffectivePathv(path);
        ghost var dirs := Directories(Components(path, 0));
        SearchIsFound(system, dirs, file, args, false, errno);
        SearchPath(buf, pathv, file, argv, args, dirs);
      }
    }
  }

  // ----- what the search means -----

  function ShellArgs(file: string, args: Args): Args
  {
    ["/bin/sh", file] + args[1..]
  }

  /** argv after the memmove and the two stores. */
  function Shifted(argv: Argv, file: string, end: nat): (s: Argv)
    requires 2 <= end + 2 <= |argv|
    ensures |s| == |argv|
  {
    [Some("/bin/sh"), Some(file)] + argv[1..1 + end] + argv[2 + end..]
  }

  lemma ShiftedForShell(argv: Argv, file: string, args: Args)
    requires Holds(argv, args)
    ensures Shifted(argv, file, |args|) == Pointers(ShellArgs(file, args)) + [None]
  {
  }

  lemma ShiftedBack(argv: Argv, file: string, args: Args)
    requires Holds(argv, args)
    ensures var s, end := Shifted(argv, file, |args|), |args|;
            (s[..1] + s[2..2 + end] + s[1 + end..])[0 := argv[0]] == argv
  {
    var s, end := Shifted(argv, file, |args|), |args|;
    assert s[2..2 + end] == argv[1..1 + end];
    assert s[1 + end] == argv[1..1 + end][end - 1] == None;
    assert s[1 + end..] == [None] == argv[1 + end..];
    assert argv == [argv[0]] + argv[1..1 + end] + argv[1 + end..];
  }

  /** The execve calls made for one candidate, and the errno they leave. */
  function Tries(system: System, file: string, args: Args): seq<Attempt>
  {
    [(file, args)] + if system(file, args) == ENOEXEC then [("/bin/sh", ShellArgs(file, args))] else []
  }

  function Answer(system: System, file: string, args: Args): nat
  {
    if system(file, args) == ENOEXEC then system("/bin/sh", ShellArgs(file, args)) else system(file, args)
  }

  function Candidate(dir: Dir, file: string): string
  {
    dir + (if dir[|dir| - 1] == '/' then "" else "/") + file
  }

  predicate Skippable(errno: nat) {
    errno == EACCES || errno == ENOENT || errno == ENOTDIR || errno == ELOOP || errno == ESTALE
    || errno == ENODEV || errno == ETIMEDOUT
  }

  predicate TooLong(dir: Dir, file: string) { |file| + |dir| + 2 >= PATH_MAX }

  datatype Outcome = Outcome(tries: seq<Attempt>, errno: nat)

  /** The loop, directory by directory. */
  function Search(system: System, dirs: seq<Dir>, file: string, args: Args, sticky: bool, errno: nat): Outcome
  {
    if dirs == [] then Outcome([], if sticky then EACCES else errno)
    else if TooLong(dirs[0], file) then Search(system, dirs[1..], file, args, sticky, ENAMETOOLONG)
    else
      var path := Candidate(dirs[0], file);
      var e := Answer(system, path, args);
      if !Skippable(e) then Outcome(Tries(system, path, args), e)
      else
        var o := Search(system, dirs[1..], file, args, sticky || e == EACCES, e);
        Outcome(Tries(system, path, args) + o.tries, o.errno)
  }

  /** What a search amounts to when some attempts precede it. */
  function After(made: seq<Attempt>, o: Outcome): Outcome { Outcome(made + o.tries, o.errno) }

  lemma SearchStep(system: System, dirs: seq<Dir>, i: nat, file: string, args: Args, sticky: bool, errno: nat,
                   made: seq<Attempt>)
    requires i < |dirs|
    ensures var path := Candidate(dirs[i], file);
            var e := Answer(system, path, args);
            After(made, Search(system, dirs[i..], file, args, sticky, errno))
            == if TooLong(dirs[i], file) then After(made, Search(system, dirs[i + 1..], file, args, sticky, ENAMETOOLONG))
               else if Skippable(e) then After(made + Tries(system, path, args),
                                               Search(system, dirs[i + 1..], file, args, sticky || e == EACCES, e))
               else Outcome(made + Tries(system, path, args), e)
  {
    assert dirs[i..][1..] == dirs[i + 1..];
  }

  lemma SearchEnd(system: System, dirs: seq<Dir>, file: string, args: Args, sticky: bool, errno: nat, made: seq<Attempt>)
    ensures After(made, Search(system, dirs[|dirs|..], file, args, sticky, errno))
            == Outcome(made, if sticky then EACCES else errno)
  {
    assert dirs[|dirs|..] == [] && made + [] == made;
  }

  /** What one directory leaves in errno. */
  function Result(system: System, dir: Dir, file: string, args: Args): nat
  {
    if TooLong(dir, file) then ENAMETOOLONG else Answer(system, Candidate(dir, file), args)
  }

  predicate Passed(system: System, dir: Dir, file: string, args: Args)
  {
    TooLong(dir, file) || Skippable(Answer(system, Candidate(dir, file), args))
  }

  function TriesOf(system: System, dirs: seq<Dir>, file: string, args: Args): seq<Attempt>
  {
    if dirs == [] then [] else
    (if TooLong(dirs[0], file) then [] else Tries(system, Candidate(dirs[0], file), args))
    + TriesOf(system, dirs[1..], file, args)
  }

  /** How many directories the search gets past. */
  function Past(system: System, dirs: seq<Dir>, file: string, args: Args): (n: nat)
    ensures n <= |dirs| && forall i :: 0 <= i < n ==> Passed(system, dirs[i], file, args)
    ensures n < |dirs| ==> !Passed(system, dirs[n], file, args)
  {
    if dirs == [] || !Passed(system, dirs[0], file, args) then 0 else 1 + Past(system, dirs[1..], file, args)
  }

  predicate Denied(system: System, dirs: seq<Dir>, file: string, args: Args)
  {
    exists i :: 0 <= i < |dirs| && !TooLong(dirs[i], file) && Answer(system, Candidate(dirs[i], file), args) == EACCES
  }

  /** The specification: stop at the first directory whose error is not one to skip, else
      EACCES if any candidate gave it, else what the last directory gave. */
  function Found(system: System, dirs: seq<Dir>, file: string, args: Args): Outcome
    requires dirs != []
  {
    var n := Past(system, dirs, file, args);
    if n < |dirs| then Outcome(TriesOf(system, dirs[..n + 1], file, args), Result(system, dirs[n], file, args))
    else Outcome(TriesOf(system, dirs, file, args),
                 if Denied(system, dirs, file, args) then EACCES else Result(system, dirs[|dirs| - 1], file, args))
  }

  /** What an exec is to do with a name: what execvp makes of it for an inherited environment;
      else nothing if it is empty, one candidate if it holds a slash, and otherwise the search
      over PATH or its default. */
  function Exec(system: System, library: System, file: string, args: Args, inherits: bool, pathEnv: Option<string>)
      : Outcome
  {
    if inherits then Outcome([], library(file, args))
    else if file == "" then Outcome([], ENOENT)
    else if '/' in file then Outcome(Tries(system, file, args), Answer(system, file, args))
    else Found(system, Directories(Components(if pathEnv.Some? then pathEnv.value else ":/bin:/usr/bin", 0)), file, args)
  }

  lemma FoundAtOnce(system: System, dirs: seq<Dir>, file: string, args: Args)
    requires dirs != [] && !Passed(system, dirs[0], file, args)
    ensures var path := Candidate(dirs[0], file);
            Found(system, dirs, file, args) == Outcome(Tries(system, path, args), Answer(system, path, args))
  {
    assert dirs[..1] == [dirs[0]] && dirs[..1][1..] == [];
    assert TriesOf(system, dirs[..1], file, args) == TriesOf(system, [dirs[0]], file, args);
  }

  lemma {:induction false} SearchIsFound(system: System, dirs: seq<Dir>, file: string, args: Args, sticky: bool, errno: nat)
    requires dirs != []
    ensures var o, f := Search(system, dirs, file, args, sticky, errno), Found(system, dirs, file, args);
            && o.tries == f.tries
            && o.errno == if Past(system, dirs, file, args) == |dirs| && sticky then EACCES else f.errno
  {
    var rest := dirs[1..];
    assert dirs == [dirs[0]] + rest;
    var n := Past(system, dirs, file, args);
    if Passed(system, dirs[0], file, args) {
      if rest == [] {
        assert TriesOf(system, rest, file, args) == [];
        assert Past(system, rest, file, args) == 0;
      } else {
        var e := Result(system, dirs[0], file, args);
        var denied := !TooLong(dirs[0], file) && e == EACCES;
        SearchIsFound(system, rest, file, args, sticky || denied, e);
        assert Denied(system, dirs, file, args) <==> denied || Denied(system, rest, file, args);
        if n < |dirs| {
          assert dirs[..n + 1][1..] == rest[..n];
        }
      }
    } else {
      FoundAtOnce(system, dirs, file, args);
    }
  }

  // ----- what an exec does, in plain terms -----

  /** One path is tried as it is and, exactly when that gives ENOEXEC, as a shell script. */
  ghost predicate TriesPath(system: System, path: string, args: Args, tries: seq<Attempt>, errno: nat) {
    if system(path, args) == 8 then
      tries == [(path, args), ("/bin/sh", ["/bin/sh", path] + args[1..])]
      && errno == system("/bin/sh", ["/bin/sh", path] + args[1..])
    else
      tries == [(path, args)] && errno == system(path, args)
  }

  /** The directories are tried in turn, each with one slash in front of the name; a path that
      is too long is gone past, and so is EACCES, ENOENT, ENOTDIR, ELOOP, ESTALE, ENODEV or
      ETIMEDOUT; in the end EACCES counts if it was seen, else what the last one gave. */
  ghost predicate Walks(system: System, dirs: seq<Dir>, file: string, args: Args, tries: seq<Attempt>, errno: nat,
                        denied: bool, last: nat)
    decreases |dirs|
  {
    if dirs == [] then tries == [] && errno == if denied then 13 else last
    else if |dirs[0]| + |file| + 2 >= 4096 then Walks(system, dirs[1..], file, args, tries, errno, denied, 36)
    else
      var path := if dirs[0][|dirs[0]| - 1] == '/' then dirs[0] + file else dirs[0] + "/" + file;
      var script := system(path, args) == 8;
      var n := if script then 2 else 1;
      var e := if script then system("/bin/sh", ["/bin/sh", path] + args[1..]) else system(path, args);
      && n <= |tries| && TriesPath(system, path, args, tries[..n], e)
      && if e == 13 || e == 2 || e == 20 || e == 40 || e == 116 || e == 19 || e == 110
         then Walks(system, dirs[1..], file, args, tries[n..], errno, denied || e == 13, e)
         else |tries| == n && errno == e
  }

  /** An inherited environment leaves all to execvp; an empty name is ENOENT, a name with a
      slash a path, and any other name is looked for in PATH, or in the current directory,
      /bin and /usr/bin. */
  ghost predicate Executes(system: System, library: System, file: string, args: Args, inherits: bool,
                           pathEnv: Option<string>, tries: seq<Attempt>, errno: nat)
  {
    if inherits then tries == [] && errno == library(file, args)
    else if file == "" then tries == [] && errno == 2
    else if '/' in file then TriesPath(system, file, args, tries, errno)
    else
      var dirs := if pathEnv.Some? then Directories(Components(pathEnv.value, 0)) else [".", "/bin", "/usr/bin"];
      Walks(system, dirs, file, args, tries, errno, false, 0)
  }

  lemma ComponentUpTo(path: string, p: nat, q: nat, c: string)
    requires p <= q <= |path| && path[p..q] == c && ':' !in c && (q < |path| ==> path[q] == ':')
    ensures Components(path, p) == if q < |path| then [c] + Components(path, q + 1) else [c]
  {
    assert forall i :: p <= i < q ==> path[i] == c[i - p];
    assert Span(path, ':', p) == q;
  }

  lemma ThreeComponents(path: string, a: string, b: string, c: string)
    requires path == a + ":" + b + ":" + c && ':' !in a && ':' !in b && ':' !in c
    ensures Components(path, 0) == [a, b, c]
  {
    var p, q := |a| + 1, |a| + 1 + |b| + 1;
    ComponentUpTo(path, q, |path|, c);
    ComponentUpTo(path, p, q - 1, b);
    ComponentUpTo(path, 0, |a|, a);
  }

  lemma DefaultPath()
    ensures Directories(Components(":/bin:/usr/bin", 0)) == [".", "/bin", "/usr/bin"]
  {
    assert "" + ":" + "/bin" + ":" + "/usr/bin" == ":/bin:/usr/bin";
    ThreeComponents(":/bin:/usr/bin", "", "/bin", "/usr/bin");
  }

  /** An empty component of PATH stands for the current directory, any other for itself. */
  lemma DirectoryOf(path: string, i: nat)
    requires i < |Components(path, 0)|
    ensures var c := Components(path, 0)[i];
            Directories(Components(path, 0))[i] == if c == "" then "." else c
  {
  }

  lemma {:induction false} SearchWalks(system: System, dirs: seq<Dir>, file: string, args: Args, sticky: bool,
                                       last: nat)
    ensures var o := Search(system, dirs, file, args, sticky, last);
            Walks(system, dirs, file, args, o.tries, o.errno, sticky, last)
    decreases |dirs|
  {
    if dirs != [] {
      if TooLong(dirs[0], file) {
        SearchWalks(system, dirs[1..], file, args, sticky, ENAMETOOLONG);
      } else {
        var path := Candidate(dirs[0], file);
        var e := Answer(system, path, args);
        CandidateOf(dirs[0], file);
        assert TriesPath(system, path, args, Tries(system, path, args), e);
        if Skippable(e) {
          var rest := Search(system, dirs[1..], file, args, sticky || e == EACCES, e);
          SearchWalks(system, dirs[1..], file, args, sticky || e == EACCES, e);
          Apart(Tries(system, path, args), rest.tries);
        } else {
          Apart(Tries(system, path, args), []);
        }
      }
    }
  }

  lemma CandidateOf(dir: Dir, file: string)
    ensures Candidate(dir, file) == if dir[|dir| - 1] == '/' then dir + file else dir + "/" + file
  {
    assert dir + "" + file == dir + file;
  }

  lemma Apart(a: seq<Attempt>, b: seq<Attempt>)
    ensures (a + b)[..|a|] == a && (a + b)[|a|..] == b && a[..|a|] == a
  {
  }

  lemma ExecExecutes(system: System, library: System, file: string, args: Args, inherits: bool, pathEnv: Option<string>)
    ensures var o := Exec(system, library, file, args, inherits, pathEnv);
            Executes(system, library, file, args, inherits, pathEnv, o.tries, o.errno)
  {
    if !inherits && file != "" && '/' !in file {
      DefaultPath();
      var dirs := Directories(Components(if pathEnv.Some? then pathEnv.value else ":/bin:/usr/bin", 0));
      SearchIsFound(system, dirs, file, args, false, 0);
      SearchWalks(system, dirs, file, args, false, 0);
    }
  }
}
