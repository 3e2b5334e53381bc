// The Windows command line: the quoting loop of create_process_impl and the
// argument rules of the C runtime ("Parsing C++ Command-Line Arguments") that
// the child applies to the same text.

module CommandLine {

  import opened Common

  /** A run of n backslashes. */
  function Run(n: nat): (r: string)
    ensures |r| == n
    ensures forall i :: 0 <= i < n ==> r[i] == '\\'
  {
    seq(n, _ => '\\')
  }

  predicate Quotable(c: char) {
    c == ' ' || c == '\t' || c == '\n' || c == '\U{0B}' || c == '"'
  }

  predicate NeedsQuote(s: string) {
    s == "" || exists i :: 0 <= i < |s| && Quotable(s[i])
  }

  // ----- what the loop writes -----

  /** The inside of a quoted argument; n backslashes are counted but not yet written. */
  function Escaped(s: string, n: nat): string {
    if s == "" then Run(2 * n)
    else if s[0] == '\\' then Escaped(s[1..], n + 1)
    else if s[0] == '"' then Run(2 * n + 1) + "\"" + Escaped(s[1..], 0)
    else Run(n) + [s[0]] + Escaped(s[1..], 0)
  }

  function Quoted(s: string): string {
    if NeedsQuote(s) then "\"" + Escaped(s, 0) + "\"" else s
  }

  /** An argument is left as it is exactly when it is not empty and holds no blank, tab,
      newline, vertical tab or quote. */
  lemma QuotedIff(s: string)
    ensures Quoted(s) == s <==>
              s != "" && forall i :: 0 <= i < |s| ==> s[i] !in {' ', '\t', '\n', '\U{0B}', '"'}
  {
    if NeedsQuote(s) {
      EscapedLonger(s, 0);
    }
  }

  lemma {:induction false} EscapedLonger(s: string, n: nat)
    ensures |Escaped(s, n)| >= |s| + n
    decreases |s|
  {
    if s != "" {
      EscapedLonger(s[1..], if s[0] == '\\' then n + 1 else 0);
    }
  }

  function Line(cmdline: seq<string>): string {
    if cmdline == [] then "" else Quoted(cmdline[0]) + " " + Line(cmdline[1..])
  }

  lemma EscapedHere(s: string, i: nat, n: nat)
    requires i <= |s| && (i < |s| ==> s[i] != '\\')
    ensures i == |s| ==> Escaped(s[i..], n) == Run(n * 2) + Escaped(s[i..], 0)
    ensures i < |s| && s[i] == '"' ==>
              Escaped(s[i..], n) == (Run(n * 2 + 1) + "\"") + Escaped(s[i + 1..], 0)
    ensures i < |s| && s[i] != '"' ==>
              Escaped(s[i..], n) == (Run(n) + [s[i]]) + Escaped(s[i + 1..], 0)
  {
    if i < |s| {
      assert s[i..][1..] == s[i + 1..];
    }
  }

  /** The escaping loop: i walks the argument, backslashes counts the current run. */
  method EscapeInto(ss: string, s: string) returns (out: string)
    ensures out == ss + Escaped(s, 0)
  {
    var text := "";
    var i := 0;
    while i < |s|
      invariant 0 <= i <= |s|
      invariant text + Escaped(s[i..], 0) == Escaped(s, 0)
    {
      var backslashes := 0;
      ghost var from := i;
      while i < |s| && s[i] == '\\'
        invariant from <= i <= |s|
        invariant i == from + backslashes
        invariant Escaped(s[i..], backslashes) == Escaped(s[from..], 0)
      {
        assert s[i..][1..] == s[i + 1..];
        backslashes := backslashes + 1;
        i := i + 1;
      }
      EscapedHere(s, i, backslashes);
      var chunk;
      if i == |s| {
        chunk := Run(backslashes * 2);
      } else if s[i] == '"' {
        chunk := Run(backslashes * 2 + 1) + "\"";
        i := i + 1;
      } else {
        chunk := Run(backslashes) + [s[i]];
        i := i + 1;
      }
      Associate(text, chunk, Escaped(s[i..], 0));
      text := text + chunk;
    }
    assert s[i..] == "" && text + Escaped("", 0) == text;
    out := ss + text;
  }

  lemma Associate(a: string, b: string, c: string)
    ensures a + b + c == a + (b + c)
  {
  }

  method QuoteInto(ss: string, s: string) returns (out: string)
    ensures out == ss + Quoted(s)
  {
    if !NeedsQuote(s) {
      out := ss + s;
    } else {
      out := EscapeInto(ss + "\"", s);
      out := out + "\"";
      Wrap(ss, "\"", Escaped(s, 0));
    }
  }

  lemma Wrap(a: string, q: string, b: string)
    ensures (a + q) + b + q == a + (q + b + q)
  {
  }

  method BuildLine(cmdline: seq<string>) returns (command: string)
    ensures command == Line(cmdline)
  {
    command := "";
    for k := 0 to |cmdline|
      invariant command + Line(cmdline[k..]) == Line(cmdline)
    {
      ghost var before := command;
      command := QuoteInto(command, cmdline[k]);
      command := command + " ";
      assert cmdline[k..][1..] == cmdline[k + 1..];
      assert command + Line(cmdline[k + 1..]) == before + Line(cmdline[k..]);
    }
  }

  // ----- how the child reads it -----

  predicate Blank(c: char) { c == ' ' || c == '\t' }

  /** argv[0]: quotes only switch blanks on and off; a backslash is an ordinary character. */
  function ReadProgram(c: string, inQuotes: bool): (r: (string, string))
    ensures |r.1| <= |c|
    ensures '"' !in r.0
  {
    if c == "" then ("", "")
    else if c[0] == '"' then ReadProgram(c[1..], !inQuotes)
    else if !inQuotes && Blank(c[0]) then ("", c)
    else var (a, rest) := ReadProgram(c[1..], inQuotes); ([c[0]] + a, rest)
  }

  /** One further argument, with n backslashes just seen: 2k of them before a quote
      stand for k and the quote is a delimiter, 2k+1 stand for k and a literal quote,
      a doubled quote inside quotes is a literal quote, and backslashes before
      anything else stand for themselves. */
  function ReadArgument(c: string, inQuotes: bool, n: nat): (r: (string, string))
    ensures |r.1| <= |c|
    ensures c != "" && (inQuotes || !Blank(c[0])) ==> |r.1| < |c|
  {
    if c == "" then (Run(n), "")
    else if c[0] == '\\' then ReadArgument(c[1..], inQuotes, n + 1)
    else if c[0] == '"' then
      if n % 2 == 1 then
        var (a, rest) := ReadArgument(c[1..], inQuotes, 0); (Run(n / 2) + "\"" + a, rest)
      else if inQuotes && |c| > 1 && c[1] == '"' then
        var (a, rest) := ReadArgument(c[2..], inQuotes, 0); (Run(n / 2) + "\"" + a, rest)
      else
        var (a, rest) := ReadArgument(c[1..], !inQuotes, 0); (Run(n / 2) + a, rest)
    else if !inQuotes && Blank(c[0]) then (Run(n), c)
    else var (a, rest) := ReadArgument(c[1..], inQuotes, 0); (Run(n) + [c[0]] + a, rest)
  }

  function SkipBlanks(c: string): (r: string)
    ensures |r| <= |c|
    ensures r != "" ==> !Blank(r[0])
  {
    if c != "" && Blank(c[0]) then SkipBlanks(c[1..]) else c
  }

  function ReadArguments(c: string): seq<string>
    decreases |c|
  {
    var d := SkipBlanks(c);
    if d == "" then [] else
    var (a, rest) := ReadArgument(d, false, 0);
    [a] + ReadArguments(rest)
  }

  function ReadLine(c: string): seq<string> {
    var (program, rest) := ReadProgram(c, false);
    [program] + ReadArguments(rest)
  }

  // ----- the round trip -----

  lemma {:induction false} ReadRun(k: nat, c: string, inQuotes: bool, n: nat)
    ensures ReadArgument(Run(k) + c, inQuotes, n) == ReadArgument(c, inQuotes, n + k)
    decreases k
  {
    if k == 0 {
      assert Run(0) + c == c;
    } else {
      assert (Run(k) + c)[1..] == Run(k - 1) + c;
      ReadRun(k - 1, c, inQuotes, n + 1);
    }
  }

  // The reader's three ordinary steps, each on a text whose first character is known.

  lemma ReadClosing(n: nat, t: string)
    ensures ReadArgument(Run(2 * n) + (['"'] + ([' '] + t)), true, 0) == (Run(n), [' '] + t)
  {
    var u := [' '] + t;
    ReadRun(2 * n, ['"'] + u, true, 0);
    assert (['"'] + u)[1..] == u;
    assert u[0] == ' ';
    assert Run(0) == "";
    assert ReadArgument(u, false, 0) == (Run(0), u);
    assert Run(n) + Run(0) == Run(n);
  }

  lemma ReadLiteralQuote(n: nat, c: string)
    ensures var r := ReadArgument(c, true, 0);
            ReadArgument(Run(2 * n + 1) + (['"'] + c), true, 0) == (Run(n) + ['"'] + r.0, r.1)
  {
    var u := ['"'] + c;
    ReadRun(2 * n + 1, u, true, 0);
    assert u[0] == '"' && u[1..] == c;
    assert (2 * n + 1) % 2 == 1 && (2 * n + 1) / 2 == n;
  }

  lemma ReadOrdinary(n: nat, x: char, c: string, inQuotes: bool)
    requires x != '"' && x != '\\' && (inQuotes || !Blank(x))
    ensures var r := ReadArgument(c, inQuotes, 0);
            ReadArgument(Run(n) + ([x] + c), inQuotes, 0) == (Run(n) + [x] + r.0, r.1)
  {
    ReadRun(n, [x] + c, inQuotes, 0);
    assert ([x] + c)[1..] == c;
  }

  lemma Reassemble(n: nat, s: string)
    requires s != ""
    ensures s[0] == '\\' ==> Run(n + 1) + s[1..] == Run(n) + s
    ensures Run(n) + [s[0]] + (Run(0) + s[1..]) == Run(n) + s
  {
    assert [s[0]] + s[1..] == s;
    assert Run(0) + s[1..] == s[1..];
    assert Run(n + 1) == Run(n) + ['\\'];
  }

  /** An argument written inside quotes is read back, whatever follows. */
  lemma {:induction false} ReadEscaped(s: string, n: nat, t: string)
    ensures ReadArgument(Escaped(s, n) + (['"'] + ([' '] + t)), true, 0) == (Run(n) + s, [' '] + t)
    decreases |s|
  {
    var tail := ['"'] + ([' '] + t);
    if s == "" {
      ReadClosing(n, t);
      assert Run(n) + s == Run(n);
    } else if s[0] == '\\' {
      ReadEscaped(s[1..], n + 1, t);
      Reassemble(n, s);
    } else if s[0] == '"' {
      var rest := Escaped(s[1..], 0) + tail;
      assert Escaped(s, n) + tail == Run(2 * n + 1) + (['"'] + rest);
      ReadLiteralQuote(n, rest);
      ReadEscaped(s[1..], 0, t);
      Reassemble(n, s);
    } else {
      var rest := Escaped(s[1..], 0) + tail;
      assert Escaped(s, n) + tail == Run(n) + ([s[0]] + rest);
      ReadOrdinary(n, s[0], rest, true);
      ReadEscaped(s[1..], 0, t);
      Reassemble(n, s);
    }
  }

  lemma {:induction false} ReadBare(s: string, n: nat, t: string)
    requires forall i :: 0 <= i < |s| ==> !Quotable(s[i])
    ensures ReadArgument(s + ([' '] + t), false, n) == (Run(n) + s, [' '] + t)
    decreases |s|
  {
    var w := s + ([' '] + t);
    if s == "" {
      assert w == [' '] + t && w[0] == ' ';
      assert Run(n) + s == Run(n);
    } else {
      assert w[0] == s[0] && w[1..] == s[1..] + ([' '] + t);
      Reassemble(n, s);
      ReadBare(s[1..], if s[0] == '\\' then n + 1 else 0, t);
    }
  }

  lemma ReadQuoted(s: string, t: string)
    ensures var w := Quoted(s) + ([' '] + t);
            !Blank(w[0]) && ReadArgument(w, false, 0) == (s, [' '] + t)
  {
    assert Run(0) + s == s;
    if NeedsQuote(s) {
      ReadEscaped(s, 0, t);
      ReadInner(Escaped(s, 0), [' '] + t);
    } else {
      ReadBare(s, 0, t);
    }
  }

  lemma ReadInner(e: string, u: string)
    ensures ReadArgument("\"" + e + "\"" + u, false, 0) == ReadArgument(e + (['"'] + u), true, 0)
  {
    var w := "\"" + e + "\"" + u;
    assert w[0] == '"' && w[1..] == e + (['"'] + u);
    var r := ReadArgument(w[1..], true, 0);
    assert Run(0) + r.0 == r.0;
  }

  lemma LineStep(cmdline: seq<string>)
    requires cmdline != []
    ensures Line(cmdline) == Quoted(cmdline[0]) + ([' '] + Line(cmdline[1..]))
  {
    Associate(Quoted(cmdline[0]), " ", Line(cmdline[1..]));
  }

  /** Every argument after the program name comes back exactly. */
  lemma {:induction false} ReadLineOfArguments(args: seq<string>)
    ensures ReadArguments([' '] + Line(args)) == args
  {
    var line := [' '] + Line(args);
    assert line[1..] == Line(args);
    if args == [] {
      assert SkipBlanks(line) == "";
    } else {
      var w := Quoted(args[0]) + ([' '] + Line(args[1..]));
      LineStep(args);
      ReadQuoted(args[0], Line(args[1..]));
      assert SkipBlanks(w) == w && SkipBlanks(line) == w;
      ReadLineOfArguments(args[1..]);
      assert [args[0]] + args[1..] == args;
    }
  }

  /** What the caller can check of the program name before the call. */
  predicate ProgramNameSurvives(s: string) {
    NeedsQuote(s) ==> '"' !in s && (s == "" || s[|s| - 1] != '\\')
  }

  lemma {:induction false} EscapedWithoutQuote(s: string, n: nat)
    requires '"' !in s
    ensures '"' !in Escaped(s, n)
    ensures var swelled := if s == "" then n > 0 else s[|s| - 1] == '\\';
            if swelled then |Escaped(s, n)| > n + |s| else Escaped(s, n) == Run(n) + s
    decreases |s|
  {
    if s != "" {
      assert forall i :: 0 <= i < |s[1..]| ==> s[1..][i] == s[i + 1];
      Reassemble(n, s);
      EscapedWithoutQuote(s[1..], if s[0] == '\\' then n + 1 else 0);
    } else {
      assert Run(2 * n) == Run(n) + Run(n);
    }
  }

  lemma {:induction false} ReadProgramInQuotes(s: string, t: string)
    requires '"' !in s
    ensures ReadProgram(s + (['"'] + ([' '] + t)), true) == (s, [' '] + t)
  {
    var w := s + (['"'] + ([' '] + t));
    if s == "" {
      assert w[1..] == [' '] + t;
      assert w[1..][0] == ' ';
    } else {
      assert w[0] == s[0] && w[1..] == s[1..] + (['"'] + ([' '] + t));
      assert [s[0]] + s[1..] == s;
      ReadProgramInQuotes(s[1..], t);
    }
  }

  lemma {:induction false} ReadProgramBare(s: string, t: string)
    requires forall i :: 0 <= i < |s| ==> !Quotable(s[i])
    ensures ReadProgram(s + ([' '] + t), false) == (s, [' '] + t)
  {
    var w := s + ([' '] + t);
    if s == "" {
      assert w == [' '] + t && w[0] == ' ';
    } else {
      assert w[0] == s[0] && w[1..] == s[1..] + ([' '] + t);
      assert [s[0]] + s[1..] == s;
      ReadProgramBare(s[1..], t);
    }
  }

  lemma ReadProgramQuoted(s: string, t: string)
    requires NeedsQuote(s) && '"' !in s
    ensures ReadProgram(Quoted(s) + ([' '] + t), false) == (Escaped(s, 0), [' '] + t)
  {
    EscapedWithoutQuote(s, 0);
    ReadProgramInQuotes(Escaped(s, 0), t);
    ReadOpening(Escaped(s, 0), [' '] + t);
  }

  lemma ReadOpening(e: string, u: string)
    ensures ReadProgram("\"" + e + "\"" + u, false) == ReadProgram(e + (['"'] + u), true)
  {
    var w := "\"" + e + "\"" + u;
    assert w[0] == '"' && w[1..] == e + (['"'] + u);
  }

  lemma ProgramRoundTrip(s: string, t: string)
    ensures ReadProgram(Quoted(s) + ([' '] + t), false).0 == s <==> ProgramNameSurvives(s)
    ensures ProgramNameSurvives(s) ==> ReadProgram(Quoted(s) + ([' '] + t), false).1 == [' '] + t
  {
    if !NeedsQuote(s) {
      ReadProgramBare(s, t);
    } else if '"' !in s {
      ReadProgramQuoted(s, t);
      EscapedWithoutQuote(s, 0);
      assert Run(0) + s == s;
    }
  }

  /** The round trip over the whole list: it holds exactly when the program name,
      which the runtime reads by rules of its own, survives. */
  lemma RoundTrip(cmdline: seq<string>)
    requires cmdline != []
    ensures ReadLine(Line(cmdline)) == cmdline <==> ProgramNameSurvives(cmdline[0])
    ensures ProgramNameSurvives(cmdline[0]) || ReadLine(Line(cmdline))[0] != cmdline[0]
  {
    LineStep(cmdline);
    ProgramRoundTrip(cmdline[0], Line(cmdline[1..]));
    ReadLineOfArguments(cmdline[1..]);
    assert [cmdline[0]] + cmdline[1..] == cmdline;
  }

  lemma {:induction false} EscapedNulFree(s: string, n: nat)
    requires NulFree(s)
    ensures NulFree(Escaped(s, n))
    decreases |s|
  {
    if s != "" {
      EscapedNulFree(s[1..], if s[0] == '\\' then n + 1 else 0);
    }
  }

  lemma {:induction false} LineNulFree(cmdline: seq<string>)
    requires forall s :: s in cmdline ==> NulFree(s)
    ensures NulFree(Line(cmdline))
  {
    if cmdline != [] {
      EscapedNulFree(cmdline[0], 0);
      LineNulFree(cmdline[1..]);
    }
  }

  /** The writable buffer that CreateProcess receives. */
  method CommandBuffer(cmdline: seq<string>) returns (buf: array<char>)
    requires cmdline != []
    requires forall s :: s in cmdline ==> NulFree(s)
    ensures fresh(buf)
    ensures NUL in buf[..]
    ensures ReadLine(CString(buf[..])) == cmdline <==> ProgramNameSurvives(cmdline[0])
  {
    var command := BuildLine(cmdline);
    buf := new char[|command| + 1](i requires 0 <= i => if i < |command| then command[i] else NUL);
    assert buf[..] == command + [NUL] + "";
    LineNulFree(cmdline);
    CStringOf(command, "");
    RoundTrip(cmdline);
  }

  /** Two program names that do not come back: the quoting doubles a closing
      backslash, and it escapes a quote by a rule the program name does not follow. */
  lemma ProgramNameCounterexamples()
    ensures ReadLine(Line(["a b\\"])) != ["a b\\"]
    ensures ReadLine(Line(["a\"b"])) != ["a\"b"]
  {
    var s, q := "a b\\", "a\"b";
    assert Quotable(s[1]) && Quotable(q[1]);
    RoundTrip([s]);
    RoundTrip([q]);
  }
}
