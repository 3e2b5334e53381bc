// The start time of a process, read from its proc(5) stat line: a bounded read, the last
// closing parenthesis, nineteen blanks, and a number.

module StatLine {

  import opened Common

  const BUFFER_SIZE := 1024
  const ULLONG_MAX := 0xFFFF_FFFF_FFFF_FFFF
  const SKIPPED := 19

  // ----- the C library -----

  /** The last position before n that holds c, or -1. */
  function LastBefore(s: string, c: char, n: nat): (r: int)
    requires n <= |s|
    ensures -1 <= r < n && (r >= 0 ==> s[r] == c)
    ensures forall i :: r < i < n ==> s[i] != c
  {
    if n == 0 then -1 else if s[n - 1] == c then n - 1 else LastBefore(s, c, n - 1)
  }

  /** strrchr */
  function LastOf(s: string, c: char): (r: int)
    ensures -1 <= r < |s| && (r >= 0 ==> s[r] == c)
    ensures forall i :: r < i < |s| ==> s[i] != c
  {
    LastBefore(s, c, |s|)
  }

  predicate Digit(c: char) { '0' <= c <= '9' }

  predicate Space(c: char) { c == ' ' || '\t' <= c <= '\r' }

  /** The digits from p on, continuing a number. */
  function Value(s: string, p: nat, number: nat): nat
    requires p <= |s|
    decreases |s| - p
  {
    if p < |s| && Digit(s[p]) then Value(s, p + 1, number * 10 + (s[p] - '0') as nat) else number
  }

  function SkipSpaces(s: string, p: nat): (q: nat)
    requires p <= |s|
    ensures p <= q <= |s|
    decreases |s| - p
  {
    if p < |s| && Space(s[p]) then SkipSpaces(s, p + 1) else p
  }

  /** strtoull: blanks, a sign, digits; too large a number saturates, a minus sign wraps. */
  function Strtoull(s: string, p: nat): (r: nat)
    requires p <= |s|
    ensures r <= ULLONG_MAX
  {
    var q := SkipSpaces(s, p);
    var signed := q < |s| && (s[q] == '-' || s[q] == '+');
    var number := Value(s, if signed then q + 1 else q, 0);
    if number > ULLONG_MAX then ULLONG_MAX
    else if signed && s[q] == '-' then (ULLONG_MAX + 1 - number) % (ULLONG_MAX + 1)
    else number
  }

  // ----- the parser -----

  /** What fread leaves in the buffer, as a C string. */
  function Seen(text: string): string {
    CString((if |text| < BUFFER_SIZE then text else text[..BUFFER_SIZE - 1]) + [NUL])
  }

  /** At most 1023 characters are read, and a text without NUL is seen as far as it is read. */
  lemma SeenPrefix(text: string)
    ensures Seen(text) <= text && |Seen(text)| <= 1023
    ensures NulFree(text) ==> Seen(text) == if |text| < 1024 then text else text[..1023]
  {
    var head := if |text| < 1024 then text else text[..1023];
    assert |CString(head + [NUL])| <= |head|;
    if NulFree(text) {
      assert head + [NUL] + "" == head + [NUL];
      CStringOf(head, "");
    }
  }

  /** Past k blanks from p on. */
  function Skip(s: string, p: nat, k: nat): (r: Option<nat>)
    requires p <= |s|
    ensures r.Some? ==> r.value <= |s|
    decreases |s| - p
  {
    if k == 0 then Some(p) else
    var q := Span(s, ' ', p);
    if q == |s| then None else Skip(s, q + 1, k - 1)
  }

  lemma SkipStep(s: string, p: nat, k: nat)
    requires p <= |s| && k > 0
    ensures var q := Span(s, ' ', p);
            Skip(s, p, k) == if q == |s| then None else Skip(s, q + 1, k - 1)
  {
  }

  /** A start time, or a step past the terminator into bytes that were never written. */
  datatype Reading = Ticks(ticks: nat) | Overrun

  /** The last parenthesis is the last character: the two characters to step over are not there. */
  predicate ParenLast(s: string) {
    s != "" && s[|s| - 1] == ')'
  }

  function StartTime(s: string): (r: Reading)
    ensures r.Overrun? <==> ParenLast(s)
  {
    var paren := LastOf(s, ')');
    if paren < 0 then Ticks(0)
    else if paren + 2 > |s| then Overrun
    else match Skip(s, paren + 2, SKIPPED)
    case None => Ticks(0)
    case Some(q) => Ticks(Strtoull(s, q))
  }

  function Blanks(s: string, p: nat): nat
    requires p <= |s|
    decreases |s| - p
  {
    if p == |s| then 0 else (if s[p] == ' ' then 1 else 0) + Blanks(s, p + 1)
  }

  lemma {:induction false} BlanksFrom(s: string, p: nat, q: nat)
    requires p <= q <= |s| && forall i :: p <= i < q ==> s[i] != ' '
    ensures Blanks(s, p) == Blanks(s, q)
    decreases q - p
  {
    if p < q {
      BlanksFrom(s, p + 1, q);
    }
  }

  lemma {:induction false} SkipNeeds(s: string, p: nat, k: nat)
    requires p <= |s|
    ensures Skip(s, p, k).Some? <==> Blanks(s, p) >= k
    decreases |s| - p
  {
    if k > 0 {
      var q := Span(s, ' ', p);
      BlanksFrom(s, p, q);
      if q < |s| {
        SkipNeeds(s, q + 1, k - 1);
      }
    }
  }

  /** Without a parenthesis, or with fewer than 19 blanks behind the last one, the answer is 0. */
  lemma NoField(s: string, paren: nat)
    ensures ')' !in s ==> StartTime(s) == Ticks(0)
    ensures LastOf(s, ')') == paren && paren + 2 <= |s| && Blanks(s, paren + 2) < 19 ==> StartTime(s) == Ticks(0)
  {
    if LastOf(s, ')') == paren && paren + 2 <= |s| {
      SkipNeeds(s, paren + 2, 19);
    }
  }

  /** The bounded fread and the terminator behind it. */
  method ReadStat(text: string) returns (s: string)
    ensures s == Seen(text)
  {
    var buf := new char[BUFFER_SIZE];
    var n := if |text| < BUFFER_SIZE then |text| else BUFFER_SIZE - 1;
    forall i | 0 <= i < n {
      buf[i] := text[i];
    }
    buf[n] := NUL;
    assert buf[..n + 1] == text[..n] + [NUL];
    assert text[..n] == if |text| < BUFFER_SIZE then text else text[..BUFFER_SIZE - 1];
    s := CString(buf[..n + 1]);
  }

  /** get_process_start_time; no file stands for a failed fopen. */
  method GetProcessStartTime(file: Option<string>) returns (start: Reading)
    ensures start == if file.Some? then StartTime(Seen(file.value)) else Ticks(0)
  {
    if file.None? {
      return Ticks(0);
    }
    var s := ReadStat(file.value);
    var paren := LastOf(s, ')');
    if paren < 0 {
      return Ticks(0);
    }
    if paren + 2 > |s| {
      return Overrun;
    }
    var field := SkipBlanks(s, paren + 2, SKIPPED);
    if field.None? {
      return Ticks(0);
    }
    return Ticks(Strtoull(s, field.value));
  }

  /** The loop over strchr. */
  method SkipBlanks(s: string, from: nat, k: nat) returns (r: Option<nat>)
    requires from <= |s|
    ensures r == Skip(s, from, k)
  {
    var p := from;
    for i := 0 to k
      invariant 0 <= p <= |s| && Skip(s, p, k - i) == Skip(s, from, k)
    {
      SkipStep(s, p, k - i);
      p := Span(s, ' ', p);
      if p == |s| {
        return None;
      }
      p := p + 1;
    }
    return Some(p);
  }

  // ----- what the kernel prints -----

  function Decimal(n: nat): (d: string)
    ensures d != "" && forall i :: 0 <= i < |d| ==> Digit(d[i])
  {
    if n < 10 then [('0' as int + n) as char] else Decimal(n / 10) + [('0' as int + n % 10) as char]
  }

  /** Fields as they are printed, each with a blank behind it. */
  function Spaced(fields: seq<string>): string {
    if fields == [] then "" else fields[0] + " " + Spaced(fields[1..])
  }

  function Head(pid: nat, comm: string): string {
    Decimal(pid) + " (" + comm
  }

  /** The line up to and including field 22. */
  function Line(pid: nat, comm: string, fields: seq<string>, start: nat): string {
    Head(pid, comm) + (") " + Spaced(fields) + Decimal(start))
  }

  predicate Plain(s: string) { NulFree(s) && ')' !in s }

  /** A field between the name and the start time. */
  type Field = f: string | Plain(f) && ' ' !in f witness "0"

  lemma {:induction false} ValueAppend(d: string, t: string, p: nat, number: nat)
    requires p <= |d| && forall i :: 0 <= i < |d| ==> Digit(d[i])
    ensures Value(d + t, p, number) == Value(d + t, |d|, Value(d, p, number))
    decreases |d| - p
  {
    if p < |d| {
      assert (d + t)[p] == d[p];
      ValueAppend(d, t, p + 1, number * 10 + (d[p] - '0') as nat);
    }
  }

  lemma {:induction false} ValueOfDecimal(n: nat)
    ensures Value(Decimal(n), 0, 0) == n
  {
    if n >= 10 {
      var d, last := Decimal(n / 10), [('0' as int + n % 10) as char];
      ValueOfDecimal(n / 10);
      ValueAppend(d, last, 0, 0);
      assert (d + last)[|d|] == last[0];
    }
  }

  /** A printed number is read back, whatever follows that is not a digit. */
  lemma NumberReadBack(n: nat, before: string, t: string)
    requires n <= ULLONG_MAX && (t != "" ==> !Digit(t[0]))
    ensures Strtoull(before + Decimal(n) + t, |before|) == n
  {
    var d := Decimal(n);
    var s := before + d + t;
    assert s[|before|] == d[0];
    ValueShift(before, d + t, 0, 0);
    assert s == before + (d + t);
    ValueAppend(d, t, 0, 0);
    ValueOfDecimal(n);
    if t != "" {
      assert (d + t)[|d|] == t[0];
    }
  }

  lemma {:induction false} ValueShift(a: string, b: string, p: nat, number: nat)
    requires p <= |b|
    ensures Value(a + b, |a| + p, number) == Value(b, p, number)
    decreases |b| - p
  {
    if p < |b| {
      assert (a + b)[|a| + p] == b[p];
      if Digit(b[p]) {
        ValueShift(a, b, p + 1, number * 10 + (b[p] - '0') as nat);
      }
    }
  }

  lemma SpanField(before: string, f: Field, t: string)
    ensures Span(before + f + " " + t, ' ', |before|) == |before| + |f|
  {
    var s := before + f + " " + t;
    assert forall i :: 0 <= i < |f| ==> s[|before| + i] == f[i];
    assert s[|before| + |f|] == ' ';
  }

  lemma Regroup(before: string, f: string, more: string, t: string)
    ensures before + (f + " " + more) == before + f + " " + more
    ensures before + (f + " " + more) + t == before + f + " " + (more + t)
  {
  }

  lemma {:induction false} SkipFields(before: string, fields: seq<Field>, t: string)
    ensures Skip(before + Spaced(fields) + t, |before|, |fields|) == Some(|before + Spaced(fields)|)
    decreases |fields|
  {
    var s := before + Spaced(fields) + t;
    if fields != [] {
      var f, more := fields[0], Spaced(fields[1..]);
      Regroup(before, f, more, t);
      SpanField(before, f, more + t);
      SkipStep(s, |before|, |fields|);
      SkipFields(before + f + " ", fields[1..], t);
    }
  }

  lemma {:induction false} SpacedPlain(fields: seq<Field>)
    ensures Plain(Spaced(fields))
  {
    if fields != [] {
      SpacedPlain(fields[1..]);
    }
  }

  /** The last parenthesis is the one behind the name. */
  lemma LastParen(head: string, tail: string)
    requires Plain(tail)
    ensures LastOf(head + ")" + tail, ')') == |head|
  {
    var s := head + ")" + tail;
    assert s[|head|] == ')';
    assert forall i :: |head| < i < |s| ==> s[i] == tail[i - |head| - 1];
  }

  lemma Field22(s: string, before: string, p: nat, fields: seq<Field>, start: nat, t: string)
    requires |fields| == SKIPPED && start <= ULLONG_MAX && (t != "" ==> !Digit(t[0]))
    requires s == before + Spaced(fields) + Decimal(start) + t && p == |before|
    ensures p <= |s| && Skip(s, p, SKIPPED).Some? && Strtoull(s, Skip(s, p, SKIPPED).value) == start
  {
    SkipFields(before, fields, Decimal(start) + t);
    assert s == before + Spaced(fields) + (Decimal(start) + t);
    NumberReadBack(start, before + Spaced(fields), t);
  }

  /** The parser finds field 22 whatever stands in front of the last parenthesis. */
  lemma LineParsed(s: string, head: string, fields: seq<Field>, start: nat, t: string)
    requires |fields| == 19 && start <= ULLONG_MAX && Plain(t) && (t != "" ==> !Digit(t[0]))
    requires s == head + (") " + Spaced(fields) + Decimal(start)) + t
    ensures StartTime(s) == Ticks(start)
  {
    SpacedPlain(fields);
    LineShape(head, Spaced(fields), Decimal(start), t);
    LastParen(head, " " + Spaced(fields) + Decimal(start) + t);
    Field22(s, head + ") ", |head| + 2, fields, start, t);
    StartTimeIs(s, |head|, start);
  }

  lemma LineShape(head: string, spaced: string, number: string, t: string)
    ensures var s := head + (") " + spaced + number) + t;
            s == head + ")" + (" " + spaced + number + t) && s == head + ") " + spaced + number + t
  {
  }

  lemma StartTimeIs(s: string, paren: nat, start: nat)
    requires LastOf(s, ')') == paren && paren + 2 <= |s|
    requires var field := Skip(s, paren + 2, SKIPPED); field.Some? && Strtoull(s, field.value) == start
    ensures StartTime(s) == Ticks(start)
  {
  }

  /** The round trip: a line whose first 22 fields fit in what is read gives back field 22. */
  lemma StatRoundTrip(pid: nat, comm: string, fields: seq<Field>, start: nat, rest: string)
    requires NulFree(comm) && |fields| == 19 && start <= ULLONG_MAX
    requires Plain(rest) && (rest != "" ==> !Digit(rest[0]))
    requires |Line(pid, comm, fields, start)| < 1024
    ensures var s := Seen(Line(pid, comm, fields, start) + rest);
            StartTime(s) == Ticks(start)
  {
    var line := Line(pid, comm, fields, start);
    var text := line + rest;
    var t := if |text| < BUFFER_SIZE then rest else rest[..BUFFER_SIZE - 1 - |line|];
    LineParsed(line + t, Head(pid, comm), fields, start, t);
    LineNulFree(pid, comm, fields, start);
    assert line + t == if |text| < BUFFER_SIZE then text else text[..BUFFER_SIZE - 1];
    assert line + t + [NUL] == line + t + [NUL] + "";
    CStringOf(line + t, "");
  }

  lemma LineNulFree(pid: nat, comm: string, fields: seq<Field>, start: nat)
    requires NulFree(comm)
    ensures NulFree(Line(pid, comm, fields, start))
  {
    SpacedPlain(fields);
    assert NulFree(Decimal(pid)) && NulFree(Decimal(start));
  }

  lemma {:induction false} SpacedSize(fields: seq<Field>)
    requires forall i :: 0 <= i < |fields| ==> |fields[i]| <= 20
    ensures |Spaced(fields)| <= 21 * |fields|
  {
    if fields != [] {
      SpacedSize(fields[1..]);
    }
  }

  lemma {:induction false} DecimalSize(n: nat, k: nat)
    requires n < Power(k) && k > 0
    ensures |Decimal(n)| <= k
  {
    if n >= 10 {
      DecimalSize(n / 10, k - 1);
    }
  }

  function Power(k: nat): (p: nat)
    ensures p > 0
  {
    if k == 0 then 1 else 10 * Power(k - 1)
  }

  /** No line the kernel prints is cut off before field 22: a 64-byte name and 64-bit
      numbers with a sign leave more than half of the buffer empty. */
  lemma StatAlwaysFits(pid: nat, comm: string, fields: seq<Field>, start: nat)
    requires pid < 0x8000_0000 && |comm| <= 64 && start <= ULLONG_MAX
    requires |fields| == 19 && forall i :: 0 <= i < |fields| ==> |fields[i]| <= 20
    ensures |Line(pid, comm, fields, start)| < 512
  {
    SpacedSize(fields);
    assert pid < Power(10) && start < Power(20);
    DecimalSize(pid, 10);
    DecimalSize(start, 20);
  }

  /** A text that ends in a parenthesis. */
  lemma ParenthesisLast()
    ensures StartTime(Seen("1 (x)")) == Overrun
  {
    CStringOf("1 (x)", "");
  }
}
