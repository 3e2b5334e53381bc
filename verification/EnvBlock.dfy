// The Windows environment block: merge, size computation in size_t, writer with
// a moving pointer, and the block parser of the same function.

module EnvBlock {

  import opened Common

  // ----- size_t -----

  const SIZE_MOD: nat := 0x1_0000_0000_0000_0000
  const MAX_OBJECT_SIZE: nat := 0x7FFF_FFFF_FFFF_FFFF

  /** Subtraction of size_t values. */
  function Minus(a: int, b: int): nat {
    (a - b) % SIZE_MOD
  }

  /** The two overflow guards in front of one addition. */
  predicate Rejected(envSize: nat, key: nat, value: nat) {
    || key > Minus(MAX_OBJECT_SIZE, value + 2)
    || envSize > Minus(MAX_OBJECT_SIZE, key + value + 2)
  }

  /** For sizes an object can have, the guards decide "still fits" correctly
      exactly when the value leaves room for the two extra characters. */
  lemma GuardsExact(envSize: nat, key: nat, value: nat)
    requires 1 <= envSize <= MAX_OBJECT_SIZE && key <= MAX_OBJECT_SIZE && value <= MAX_OBJECT_SIZE
    ensures (!Rejected(envSize, key, value) <==> envSize + key + value + 2 <= MAX_OBJECT_SIZE)
            <==> value <= MAX_OBJECT_SIZE - 2
  {
  }

  // ----- entries -----

  /** One "key=value" of the block, without its terminator. */
  type Entry = (string, string)

  function Text(e: Entry): string { e.0 + "=" + e.1 }

  function Entries(es: seq<Entry>): string {
    if es == [] then "" else Text(es[0]) + [NUL] + Entries(es[1..])
  }

  function Block(es: seq<Entry>): string {
    Entries(es) + if es == [] then [NUL, NUL] else [NUL]
  }

  function TextSize(es: seq<Entry>): (n: nat)
    ensures n == |Entries(es)|
  {
    if es == [] then 0 else |es[0].0| + |es[0].1| + 2 + TextSize(es[1..])
  }

  lemma {:induction false} EntriesAppend(es: seq<Entry>, e: Entry)
    ensures Entries(es + [e]) == Entries(es) + Text(e) + [NUL]
  {
    if es == [] {
      assert [e][1..] == [];
      assert Entries([e]) == Text(e) + [NUL] + "";
    } else {
      assert (es + [e])[1..] == es[1..] + [e];
      EntriesAppend(es[1..], e);
    }
  }

  lemma {:induction false} EntriesGrow(es: seq<Entry>, k: nat)
    requires k <= |es|
    ensures |Entries(es[..k])| <= |Entries(es)|
  {
    if k > 0 {
      assert es[..k][1..] == es[1..][..k - 1];
      EntriesGrow(es[1..], k - 1);
    }
  }

  /** The precomputed size: refused exactly when the block is larger than any object,
      and otherwise the number of characters the writer produces. */
  method BlockSize(es: seq<Entry>) returns (size: Option<nat>)
    requires forall i :: 0 <= i < |es| ==> |es[i].0| < SIZE_MOD && |es[i].1| <= MAX_OBJECT_SIZE - 2
    ensures size.Some? <==> |Block(es)| <= 0x7FFF_FFFF_FFFF_FFFF
    ensures size.Some? ==> size.value == |Block(es)|
  {
    var envSize := if es == [] then 2 else 1;
    for i := 0 to |es|
      invariant es == [] ==> envSize == 2
      invariant es != [] ==> envSize == 1 + |Entries(es[..i])|
      invariant envSize <= MAX_OBJECT_SIZE
    {
      var keySize, valueSize := |es[i].0|, |es[i].1|;
      assert es[..i + 1] == es[..i] + [es[i]];
      EntriesAppend(es[..i], es[i]);
      EntriesGrow(es, i + 1);
      if Rejected(envSize, keySize, valueSize) {
        return None;
      }
      envSize := envSize + keySize + valueSize + 2;
    }
    assert es[..|es|] == es;
    size := Some(envSize);
  }

  /** Whatever it lists, a block ends with two NULs, and an empty one is nothing else. */
  lemma {:induction false} EndsTwice(es: seq<Entry>)
    ensures |Block(es)| >= 2 && Block(es)[|Block(es)| - 2..] == "\0\0"
    ensures es == [] ==> Block(es) == "\0\0"
    decreases |es|
  {
    if |es| == 1 {
      assert Block(es) == Text(es[0]) + [NUL] + "" + [NUL];
    } else if es != [] {
      EndsTwice(es[1..]);
      assert Block(es) == Text(es[0]) + [NUL] + Block(es[1..]);
    }
  }

  /** memcpy into the block. */
  method Copy(dst: array<char>, at: nat, src: string)
    requires at + |src| <= dst.Length
    modifies dst
    ensures dst[..at + |src|] == old(dst[..at]) + src
  {
    for i := 0 to |src|
      invariant dst[..at + i] == old(dst[..at]) + src[..i]
    {
      dst[at + i] := src[i];
    }
  }

  /** One turn of the writing loop: the pointer before and after. */
  method WriteEntry(envs: array<char>, p: nat, e: Entry) returns (q: nat)
    requires p + |Text(e)| + 1 <= envs.Length
    modifies envs
    ensures q == p + |Text(e)| + 1
    ensures envs[..q] == old(envs[..p]) + Text(e) + [NUL]
  {
    q := p;
    Copy(envs, q, e.0);
    q := q + |e.0|;
    envs[q] := '=';
    q := q + 1;
    assert envs[..q] == old(envs[..p]) + (e.0 + "=");
    Copy(envs, q, e.1);
    q := q + |e.1|;
    envs[q] := NUL;
    q := q + 1;
  }

  datatype Written = Written(block: array<char>) | TooLarge | CopyFailed

  method WriteBlock(es: seq<Entry>) returns (r: Written)
    requires forall i :: 0 <= i < |es| ==> |es[i].0| < SIZE_MOD && |es[i].1| <= MAX_OBJECT_SIZE - 2
    ensures r.TooLarge? <==> |Block(es)| > 0x7FFF_FFFF_FFFF_FFFF
    ensures !r.CopyFailed?
    ensures r.Written? ==> fresh(r.block) && r.block[..] == Block(es)
  {
    var size := BlockSize(es);
    if size.None? {
      return TooLarge;
    }
    var envs := new char[size.value];
    var p := 0;
    for i := 0 to |es|
      invariant p == |Entries(es[..i])| < envs.Length
      invariant envs[..p] == Entries(es[..i])
    {
      assert es[..i + 1] == es[..i] + [es[i]];
      EntriesAppend(es[..i], es[i]);
      EntriesGrow(es, i + 1);
      p := WriteEntry(envs, p, es[i]);
    }
    assert es[..|es|] == es;
    envs[p] := NUL;
    p := p + 1;
    if es == [] {
      envs[p] := NUL;
      p := p + 1;
    }
    if p != envs.Length {
      return CopyFailed;
    }
    assert envs[..] == Block(es);
    r := Written(envs);
  }

  // ----- the parser -----

  /** std::string::find: the first position at or after start, or -1. */
  function Find(s: string, c: char, start: nat): (r: int)
    ensures r == -1 <==> forall i :: start <= i < |s| ==> s[i] != c
    ensures r != -1 ==> start <= r < |s| && s[r] == c && forall i :: start <= i < r ==> s[i] != c
  {
    if start > |s| || Span(s, c, start) == |s| then -1 else Span(s, c, start)
  }

  /** How the parser splits one entry; hidden drive variables keep their leading '='. */
  function Split(entry: string): Option<Entry> {
    var eq := Find(entry, '=', 0);
    if eq > 0 then Some((entry[..eq], entry[eq + 1..]))
    else if eq == 0 then
      var eq2 := Find(entry, '=', 1);
      if eq2 > 1 then Some((entry[..eq2], entry[eq2 + 1..])) else None
    else None
  }

  /** A block is a list of C strings that ends with an empty one. */
  predicate Terminated(b: string) {
    NUL in b && (b[0] == NUL || Terminated(b[|CString(b)| + 1..]))
  }

  function Strings(b: string): seq<string>
    requires Terminated(b)
  {
    if b[0] == NUL then [] else [CString(b)] + Strings(b[|CString(b)| + 1..])
  }

  /** What a list of strings means: for a key listed twice the first entry counts. */
  function Meaning(strings: seq<string>): map<string, string> {
    if strings == [] then map[] else Install(Meaning(strings[1..]), Split(strings[0]))
  }

  function Parsed(b: string): map<string, string>
    requires Terminated(b)
  {
    Meaning(Strings(b))
  }

  function Install(env: map<string, string>, entry: Option<Entry>): map<string, string> {
    match entry
    case Some((k, v)) => env[k := v]
    case None => env
  }

  /** emplace: a key that is already there keeps its value. */
  function Emplace(env: map<string, string>, entry: Option<Entry>): map<string, string> {
    match entry
    case Some((k, v)) => if k in env then env else env[k := v]
    case None => env
  }

  /** Where a list of strings first gives a key. */
  ghost predicate FirstFor(strings: seq<string>, k: string, i: nat) {
    && i < |strings| && Split(strings[i]).Some? && Split(strings[i]).value.0 == k
    && forall j :: 0 <= j < i && Split(strings[j]).Some? ==> Split(strings[j]).value.0 != k
  }

  /** A key has the value of the first string that gives it, and only such keys are there. */
  lemma {:induction false} FirstCounts(strings: seq<string>, k: string) returns (i: nat)
    ensures if k in Meaning(strings)
            then FirstFor(strings, k, i) && Meaning(strings)[k] == Split(strings[i]).value.1
            else forall j :: 0 <= j < |strings| && Split(strings[j]).Some? ==> Split(strings[j]).value.0 != k
    decreases |strings|
  {
    i := 0;
    if strings != [] {
      var first := Split(strings[0]);
      if first.None? || first.value.0 != k {
        i := FirstCounts(strings[1..], k);
        assert forall j :: 0 < j < |strings| ==> strings[j] == strings[1..][j - 1];
        i := i + 1;
      }
    }
  }

  /** One string taken off the front and emplaced leaves the meaning of the whole the same. */
  lemma EmplaceFirst(first: string, rest: seq<string>, env: map<string, string>)
    ensures Meaning(rest) + Emplace(env, Split(first)) == Meaning([first] + rest) + env
  {
    assert ([first] + rest)[1..] == rest;
    EmplaceInstall(Meaning(rest), env, Split(first));
  }

  /** Found first, an entry only counts if the key is new; read last, it always does. */
  lemma EmplaceInstall(m: map<string, string>, env: map<string, string>, e: Option<Entry>)
    ensures m + Emplace(env, e) == Install(m, e) + env
  {
    forall k
      ensures k in m + Emplace(env, e) <==> k in Install(m, e) + env
      ensures k in m + Emplace(env, e) ==> (m + Emplace(env, e))[k] == (Install(m, e) + env)[k]
    {
    }
  }

  lemma StringsCons(text: string, rest: string)
    requires text != "" && NulFree(text) && Terminated(rest)
    ensures var b := text + [NUL] + rest;
            Terminated(b) && Strings(b) == [text] + Strings(rest)
  {
    var b := text + [NUL] + rest;
    CStringOf(text, rest);
    assert b[0] == text[0] && b[|text|] == NUL && b[|text| + 1..] == rest;
  }

  lemma StringsFirst(b: string, env: map<string, string>)
    requires Terminated(b) && b[0] != NUL
    ensures var first := CString(b);
            var rest := b[|first| + 1..];
            && first != "" && Terminated(rest)
            && Meaning(Strings(rest)) + Emplace(env, Split(first)) == Meaning(Strings(b)) + env
  {
    EmplaceFirst(CString(b), Strings(b[|CString(b)| + 1..]), env);
  }

  /** What the parsing loop keeps: the strings left complete the variables found so far. */
  ghost predicate Completes(rest: string, env: map<string, string>, whole: map<string, string>) {
    rest != "" && Terminated(rest) && Meaning(Strings(rest)) + env == whole
  }

  lemma CompletesNext(rest: string, env: map<string, string>, whole: map<string, string>)
    requires Completes(rest, env, whole) && rest[0] != NUL
    ensures var entry := CString(rest);
            Completes(rest[|entry| + 1..], Emplace(env, Split(entry)), whole)
  {
    StringsFirst(rest, env);
  }

  lemma CompletesEnd(rest: string, env: map<string, string>, whole: map<string, string>)
    requires Completes(rest, env, whole) && rest[0] == NUL
    ensures env == whole
  {
    assert Meaning(Strings(rest)) == map[];
  }

  /** The C string at p. */
  method EntryAt(block: array<char>, p: nat) returns (entry: string)
    requires p < block.Length && NUL in block[..][p..]
    ensures entry == CString(block[..][p..])
  {
    assert block[p..] == block[..][p..];
    entry := CString(block[p..]);
  }

  lemma Advance(b: string, p: nat, rest: string, n: nat, env: map<string, string>, whole: map<string, string>)
    requires p <= |b| && rest == b[p..] && n <= |rest| && Completes(rest[n..], env, whole)
    ensures p + n < |b| && Completes(b[p + n..], env, whole)
  {
    assert rest[n..] == b[p + n..];
  }

  /** What one turn of the parsing loop has to do, on the text of the block. */
  lemma NextEntry(b: string, p: nat, env: map<string, string>, whole: map<string, string>)
    requires p < |b| && Completes(b[p..], env, whole) && b[p] != NUL
    ensures NUL in b[p..]
    ensures var entry := CString(b[p..]);
            && p + |entry| + 1 < |b|
            && Completes(b[p + |entry| + 1..], Emplace(env, Split(entry)), whole)
  {
    var rest := b[p..];
    var entry := CString(rest);
    CompletesNext(rest, env, whole);
    Advance(b, p, rest, |entry| + 1, Emplace(env, Split(entry)), whole);
  }

  /** One turn of the parsing loop. */
  method ParseEntry(block: array<char>, p: nat, env: map<string, string>, ghost b: string,
                    ghost whole: map<string, string>)
      returns (next: nat, after: map<string, string>)
    requires b == block[..] && p < |b| && Completes(b[p..], env, whole) && b[p] != NUL
    ensures p < next < |b| && Completes(b[next..], after, whole)
  {
    NextEntry(b, p, env, whole);
    var entry := EntryAt(block, p);
    next := p + |entry| + 1;
    after := Emplace(env, Split(entry));
  }

  lemma CompletesStart(b: string)
    requires Terminated(b)
    ensures Completes(b, map[], Parsed(b))
  {
  }

  method ParseFrom(block: array<char>, ghost whole: map<string, string>) returns (env: map<string, string>)
    requires Completes(block[..], map[], whole)
    ensures env == whole
  {
    env := map[];
    var p := 0;
    ghost var b := block[..];
    assert b[0..] == b;
    while block[p] != NUL
      invariant p < block.Length && b == block[..] && Completes(b[p..], env, whole)
      decreases block.Length - p
    {
      p, env := ParseEntry(block, p, env, b, whole);
    }
    CompletesEnd(b[p..], env, whole);
  }

  method ParseBlock(block: array<char>) returns (env: map<string, string>)
    requires Terminated(block[..])
    ensures env == Parsed(block[..])
  {
    CompletesStart(block[..]);
    env := ParseFrom(block, Parsed(block[..]));
  }

  // ----- the round trip -----

  /** A key the parser can give back: no '=', except a leading one with more text behind it. */
  predicate Restorable(key: string) {
    key != "" && Find(key, '=', 1) == -1 && (key[0] == '=' ==> |key| > 1)
  }

  predicate Clean(es: seq<Entry>) {
    && (forall e :: e in es ==> e.0 != "" && NulFree(e.0) && NulFree(e.1))
    && (forall i, j :: 0 <= i < j < |es| ==> es[i].0 != es[j].0)
  }

  function Contents(es: seq<Entry>): (m: map<string, string>)
    ensures forall k :: k in m <==> exists e :: e in es && e.0 == k
  {
    if es == [] then map[] else
    var m := Contents(es[1..]);
    assert es == [es[0]] + es[1..];
    m[es[0].0 := es[0].1]
  }

  lemma SplitText(e: Entry)
    requires e.0 != ""
    ensures Restorable(e.0) ==> Split(Text(e)) == Some(e)
    ensures Split(Text(e)).Some? ==> Restorable(Split(Text(e)).value.0)
  {
    var t := Text(e);
    assert forall i :: 0 <= i < |e.0| ==> t[i] == e.0[i];
    assert t[|e.0|] == '=';
    assert t[..|e.0|] == e.0 && t[|e.0| + 1..] == e.1;
  }

  function Texts(es: seq<Entry>): seq<string> {
    if es == [] then [] else [Text(es[0])] + Texts(es[1..])
  }

  /** The block lists exactly the texts of the entries. */
  lemma {:induction false} StringsOfEntries(es: seq<Entry>)
    requires Clean(es)
    ensures Terminated(Entries(es) + [NUL])
    ensures Strings(Entries(es) + [NUL]) == Texts(es)
  {
    if es != [] {
      assert Clean(es[1..]);
      StringsOfEntries(es[1..]);
      var rest := Entries(es[1..]) + [NUL];
      assert Entries(es) + [NUL] == Text(es[0]) + [NUL] + rest;
      StringsCons(Text(es[0]), rest);
    }
  }

  lemma {:induction false} MeaningOfTexts(es: seq<Entry>)
    requires Clean(es)
    ensures forall k :: k in Meaning(Texts(es)) ==> Restorable(k)
    ensures (forall e :: e in es ==> Restorable(e.0)) ==> Meaning(Texts(es)) == Contents(es)
  {
    if es != [] {
      assert Clean(es[1..]);
      MeaningOfTexts(es[1..]);
      SplitText(es[0]);
      assert Texts(es)[1..] == Texts(es[1..]);
    }
  }

  /** Writing and parsing restores the variables exactly when every key is restorable. */
  lemma BlockRoundTrip(es: seq<Entry>)
    requires Clean(es)
    ensures Terminated(Block(es))
    ensures Parsed(Block(es)) == Contents(es) <==> forall e :: e in es ==> Restorable(e.0)
  {
    StringsOfEntries(es);
    MeaningOfTexts(es);
    if es == [] {
      assert Block(es) == [NUL, NUL];
    } else {
      assert Block(es) == Entries(es) + [NUL];
      forall e | e in es && !Restorable(e.0)
        ensures Parsed(Block(es)) != Contents(es)
      {
        assert e.0 in Contents(es);
      }
    }
  }

  // ----- the merge -----

  function Effective(inherit: bool, parent: map<string, string>, overrides: map<string, string>): map<string, string> {
    if inherit then parent + overrides else overrides
  }

  /** An override wins over the parent's value, which counts otherwise if it is inherited. */
  ghost predicate Merged(env: map<string, string>, inherit: bool, parent: map<string, string>,
                         overrides: map<string, string>)
  {
    forall k ::
      if k in overrides then k in env && env[k] == overrides[k]
      else if inherit && k in parent then k in env && env[k] == parent[k]
      else k !in env
  }

  lemma OverridesWin(inherit: bool, parent: map<string, string>, overrides: map<string, string>)
    ensures Merged(Effective(inherit, parent, overrides), inherit, parent, overrides)
  {
  }

  /** The filtered and sorted vector: some listing of the map's non-empty keys. */
  ghost predicate Lists(es: seq<Entry>, env: map<string, string>) {
    && (forall i, j :: 0 <= i < j < |es| ==> es[i].0 != es[j].0)
    && (forall e :: e in es ==> e.0 != "" && e.0 in env && env[e.0] == e.1)
    && (forall k :: k in env && k != "" ==> (k, env[k]) in es)
  }

  lemma {:induction false} ContentsLookup(es: seq<Entry>, e: Entry)
    requires e in es
    requires forall i, j :: 0 <= i < j < |es| ==> es[i].0 != es[j].0
    ensures e.0 in Contents(es) && Contents(es)[e.0] == e.1
  {
    if e != es[0] {
      assert es == [es[0]] + es[1..];
      ContentsLookup(es[1..], e);
      var j :| 0 <= j < |es| && es[j] == e;
    }
  }

  lemma ContentsOfListing(es: seq<Entry>, env: map<string, string>)
    requires Lists(es, env)
    ensures Contents(es) == env - {""}
  {
    forall k
      ensures k in Contents(es) <==> k in env && k != ""
      ensures k in Contents(es) ==> Contents(es)[k] == env[k]
    {
      ListedKey(es, env, k);
    }
  }

  lemma ListedKey(es: seq<Entry>, env: map<string, string>, k: string)
    requires Lists(es, env)
    ensures k in Contents(es) <==> k in env && k != ""
    ensures k in Contents(es) ==> Contents(es)[k] == env[k]
  {
    if k in Contents(es) {
      var e :| e in es && e.0 == k;
      ContentsLookup(es, e);
    } else if k in env && k != "" {
      ContentsLookup(es, (k, env[k]));
    }
  }

  /** What the child finds in the block the parent handed it: the merged variables with
      the empty key dropped, whatever order the sort chose, exactly when all keys are restorable. */
  lemma ChildEnvironment(es: seq<Entry>, env: map<string, string>)
    requires Lists(es, env)
    requires forall k :: k in env ==> NulFree(k) && NulFree(env[k])
    ensures Terminated(Block(es))
    ensures Parsed(Block(es)) == env - {""} <==> forall k :: k in env && k != "" ==> Restorable(k)
  {
    assert Clean(es) by {
      forall e | e in es ensures NulFree(e.0) && NulFree(e.1) {
        assert e.0 in env && env[e.0] == e.1;
      }
    }
    BlockRoundTrip(es);
    ContentsOfListing(es, env);
    if forall e :: e in es ==> Restorable(e.0) {
      forall k | k in env && k != "" ensures Restorable(k) {
        assert (k, env[k]) in es;
      }
    }
  }

  /** The vector filled from the unordered map, in whatever order that iterates. */
  method ListVariables(env: map<string, string>) returns (es: seq<Entry>)
    ensures Lists(es, env)
  {
    es := [];
    var todo := env.Keys;
    while todo != {}
      invariant todo <= env.Keys
      invariant forall i, j :: 0 <= i < j < |es| ==> es[i].0 != es[j].0
      invariant forall e :: e in es ==> e.0 != "" && e.0 in env && e.0 !in todo && env[e.0] == e.1
      invariant forall k :: k in env && k != "" && k !in todo ==> (k, env[k]) in es
      decreases |todo|
    {
      var k :| k in todo;
      todo := todo - {k};
      if k != "" {
        es := es + [(k, env[k])];
      }
    }
  }

  lemma ListsPermuted(es: seq<Entry>, fs: seq<Entry>, env: map<string, string>)
    requires Lists(es, env) && multiset(fs) == multiset(es)
    ensures Lists(fs, env)
  {
    assert forall e :: e in fs <==> e in multiset(fs);
    assert forall e :: e in es <==> e in multiset(es);
    forall i, j | 0 <= i < j < |fs|
      ensures fs[i].0 != fs[j].0
    {
      Once(es, fs[i]);
      Twice(fs, i, j);
      assert fs[i] in fs && fs[j] in fs;
      assert env[fs[i].0] == fs[i].1 && env[fs[j].0] == fs[j].1;
    }
  }

  lemma Twice(fs: seq<Entry>, i: nat, j: nat)
    requires i < j < |fs|
    ensures fs[i] == fs[j] ==> multiset(fs)[fs[i]] >= 2
  {
    assert fs == fs[..j] + [fs[j]] + fs[j + 1..];
    assert fs[i] in multiset(fs[..j]) by {
      assert fs[..j][i] == fs[i];
    }
  }

  lemma {:induction false} Once(es: seq<Entry>, e: Entry)
    requires forall i, j :: 0 <= i < j < |es| ==> es[i].0 != es[j].0
    ensures multiset(es)[e] <= 1
  {
    if es != [] {
      assert es == [es[0]] + es[1..];
      Once(es[1..], e);
      if es[0] == e {
        assert e !in es[1..];
        assert e !in multiset(es[1..]);
      }
    }
  }

  /** No parse ever yields a key the writer could not pass on. */
  lemma {:induction false} MeaningRestorable(strings: seq<string>)
    ensures forall k :: k in Meaning(strings) ==> Restorable(k)
  {
    if strings != [] {
      MeaningRestorable(strings[1..]);
      SplitRestorable(strings[0]);
    }
  }

  lemma SplitRestorable(entry: string)
    ensures Split(entry).Some? ==> Restorable(Split(entry).value.0)
  {
    var eq := Find(entry, '=', 0);
    var eq2 := Find(entry, '=', 1);
  }

  /** Whether the merge can be passed on is decided by the overrides alone. */
  lemma OnlyOverridesMatter(inherit: bool, parent: seq<string>, overrides: map<string, string>)
    ensures var env := Effective(inherit, Meaning(parent), overrides);
            (forall k :: k in env && k != "" ==> Restorable(k))
            <==> forall k :: k in overrides && k != "" ==> Restorable(k)
  {
    MeaningRestorable(parent);
    var env := Effective(inherit, Meaning(parent), overrides);
    assert forall k :: k in overrides ==> k in env;
  }

  /** Variables made of C strings, small enough for the guards. */
  ghost predicate Storable(env: map<string, string>) {
    forall k :: k in env ==> NulFree(k) && NulFree(env[k]) && |k| < SIZE_MOD && |env[k]| <= MAX_OBJECT_SIZE - 2
  }

  lemma StorableListing(es: seq<Entry>, env: map<string, string>)
    requires Lists(es, env) && Storable(env)
    ensures forall i :: 0 <= i < |es| ==> |es[i].0| < SIZE_MOD && |es[i].1| <= MAX_OBJECT_SIZE - 2
  {
    forall i | 0 <= i < |es|
      ensures |es[i].0| < SIZE_MOD && |es[i].1| <= MAX_OBJECT_SIZE - 2
    {
      assert es[i] in es && es[i].0 in env && env[es[i].0] == es[i].1;
    }
  }

  /** Without overrides the merge is the parent's environment as it is. */
  lemma NothingOverridden(parent: map<string, string>)
    ensures Effective(true, parent, map[]) == parent
  {
  }

  /** What the child is started with: the parent's environment, or a block of its own. */
  datatype Environment = Inherited | Own(written: Written)

  lemma MultisetCons(e: Entry, rest: seq<Entry>)
    ensures multiset([e] + rest) == multiset(rest) + multiset{e}
  {
    assert multiset([e] + rest) == multiset([e]) + multiset(rest);
  }

  lemma ListsLess(es: seq<Entry>, e: Entry, rest: seq<Entry>, env: map<string, string>)
    requires Lists(es, env) && e in es && multiset(es) == multiset(rest) + multiset{e}
    ensures Lists(rest, env - {e.0})
  {
    var all := [e] + rest;
    MultisetCons(e, rest);
    ListsPermuted(es, all, env);
    forall i, j | 0 <= i < j < |rest| ensures rest[i].0 != rest[j].0 {
      assert all[i + 1] == rest[i] && all[j + 1] == rest[j];
    }
    forall x | x in rest ensures x in all && x.0 != e.0 {
      var i :| 0 <= i < |rest| && rest[i] == x;
      assert all[0] == e && all[i + 1] == x;
    }
  }

  lemma {:induction false} TextSizeWithout(es: seq<Entry>, j: nat)
    requires j < |es|
    ensures TextSize(es) == TextSize(es[..j] + es[j + 1..]) + |Text(es[j])| + 1
    ensures multiset(es) == multiset(es[..j] + es[j + 1..]) + multiset{es[j]}
  {
    assert es == es[..j] + [es[j]] + es[j + 1..];
    var rest := es[..j] + es[j + 1..];
    if j > 0 {
      TextSizeWithout(es[1..], j - 1);
      assert rest[0] == es[0] && rest[1..] == es[1..][..j - 1] + es[1..][j..];
    } else {
      assert rest == es[1..];
    }
  }

  lemma Without(es: seq<Entry>, env: map<string, string>, e: Entry) returns (rest: seq<Entry>)
    requires Lists(es, env) && e in es
    ensures Lists(rest, env - {e.0}) && |rest| < |es|
    ensures TextSize(es) == TextSize(rest) + |Text(e)| + 1
  {
    var j :| 0 <= j < |es| && es[j] == e;
    rest := es[..j] + es[j + 1..];
    TextSizeWithout(es, j);
    ListsLess(es, e, rest, env);
  }

  lemma {:induction false} SameTextSize(es: seq<Entry>, fs: seq<Entry>, env: map<string, string>)
    requires Lists(es, env) && Lists(fs, env)
    ensures TextSize(es) == TextSize(fs) && (es == [] <==> fs == [])
    decreases |es|
  {
    if es != [] {
      var e := es[0];
      assert e in es && e == (e.0, env[e.0]) && e in fs;
      var rest := Without(es, env, e);
      var others := Without(fs, env, e);
      SameTextSize(rest, others, env - {e.0});
    }
  }

  /** The size of the block depends on the variables alone, not on the order the sort chose. */
  lemma SizeOfListing(es: seq<Entry>, fs: seq<Entry>, env: map<string, string>)
    requires Lists(es, env) && Lists(fs, env)
    ensures |Block(es)| == |Block(fs)|
  {
    SameTextSize(es, fs, env);
    assert |Entries(es)| == TextSize(es) && |Entries(fs)| == TextSize(fs);
  }

  /** No entry stands behind one with a greater name. */
  ghost predicate Ascending(es: seq<Entry>, less: (string, string) -> bool) {
    forall i, j :: 0 <= i < j < |es| ==> !less(es[j].0, es[i].0)
  }

  /** std::sort by name. */
  ghost predicate Sorts(sort: seq<Entry> -> seq<Entry>, less: (string, string) -> bool) {
    forall es :: multiset(sort(es)) == multiset(es) && Ascending(sort(es), less)
  }

  /** The block handed over for the merged variables. */
  method OwnBlock(effective: map<string, string>, sort: seq<Entry> -> seq<Entry>, ghost less: (string, string) -> bool)
      returns (r: Written, ghost es: seq<Entry>)
    requires Sorts(sort, less) && Storable(effective)
    ensures Lists(es, effective) && Ascending(es, less) && !r.CopyFailed?
    ensures r.TooLarge? <==> |Block(es)| > 0x7FFF_FFFF_FFFF_FFFF
    ensures r.Written? ==> fresh(r.block) && r.block[..] == Block(es)
  {
    var listed := ListVariables(effective);
    var sorted := sort(listed);
    es := sorted;
    ListsPermuted(listed, sorted, effective);
    StorableListing(sorted, effective);
    r := WriteBlock(sorted);
  }

  /** The whole step: nothing at all when the parent's environment is wanted as it is;
      otherwise merge the parent's block with the overrides, list, sort, write. */
  method EnvironmentBlock(inherit: bool, parentBlock: array<char>, overrides: map<string, string>,
                          sort: seq<Entry> -> seq<Entry>, ghost less: (string, string) -> bool)
      returns (r: Environment, ghost env: map<string, string>, ghost es: seq<Entry>)
    requires Terminated(parentBlock[..]) && Sorts(sort, less)
    requires Storable(Effective(inherit, Parsed(parentBlock[..]), overrides))
    ensures env == Effective(inherit, Parsed(parentBlock[..]), overrides)
    ensures Merged(env, inherit, Parsed(parentBlock[..]), overrides)
    ensures r.Inherited? <==> inherit && overrides == map[]
    ensures r.Own? ==> Lists(es, env) && Ascending(es, less) && !r.written.CopyFailed?
    ensures r.Own? ==> (r.written.TooLarge? <==> |Block(es)| > 0x7FFF_FFFF_FFFF_FFFF)
    ensures r.Own? && r.written.Written? ==> r.written.block[..] == Block(es)
    ensures r.Own? ==> Passes(inherit, Parsed(parentBlock[..]), overrides, es)
  {
    es := [];
    env := Effective(inherit, Parsed(parentBlock[..]), overrides);
    OverridesWin(inherit, Parsed(parentBlock[..]), overrides);
    if inherit && overrides == map[] {
      return Inherited, env, es;
    }
    var effective := Merge(inherit, parentBlock, overrides);
    var written;
    written, es := OwnBlock(effective, sort, less);
    OverridesDecide(inherit, parentBlock[..], overrides, es);
    r := Own(written);
  }

  /** What the child finds in its block: the merge without the empty key, exactly when every
      overriding key can be given back; and then an override wins. */
  ghost predicate Passes(inherit: bool, parent: map<string, string>, overrides: map<string, string>, es: seq<Entry>) {
    && Terminated(Block(es))
    && (Parsed(Block(es)) == Effective(inherit, parent, overrides) - {""}
        <==> forall k :: k in overrides && k != "" ==> Restorable(k))
    && ((forall k :: k in overrides && k != "" ==> Restorable(k)) ==>
          Merged(Parsed(Block(es)), inherit, parent, overrides - {""}))
  }

  method Merge(inherit: bool, parentBlock: array<char>, overrides: map<string, string>)
      returns (effective: map<string, string>)
    requires Terminated(parentBlock[..])
    ensures effective == Effective(inherit, Parsed(parentBlock[..]), overrides)
  {
    effective := overrides;
    if inherit {
      var parent := ParseBlock(parentBlock);
      effective := parent + overrides;
    }
  }

  lemma OverridesDecide(inherit: bool, parentBlock: string, overrides: map<string, string>, es: seq<Entry>)
    requires Terminated(parentBlock)
    requires var env := Effective(inherit, Parsed(parentBlock), overrides); Lists(es, env) && Storable(env)
    ensures Passes(inherit, Parsed(parentBlock), overrides, es)
  {
    ChildEnvironment(es, Effective(inherit, Parsed(parentBlock), overrides));
    OnlyOverridesMatter(inherit, Strings(parentBlock), overrides);
    MeaningRestorable(Strings(parentBlock));
    WinsWithoutEmpty(inherit, Parsed(parentBlock), overrides);
  }

  lemma WinsWithoutEmpty(inherit: bool, parent: map<string, string>, overrides: map<string, string>)
    requires "" !in parent
    ensures Merged(Effective(inherit, parent, overrides) - {""}, inherit, parent, overrides - {""})
  {
  }

  lemma SplitAtFirst()
    ensures Split("a=b=c") == Some(("a", "b=c"))
  {
    var t := "a=b=c";
    assert t[0] == 'a' && t[1] == '=';
    assert Find(t, '=', 0) == 1;
    assert t[..1] == "a" && t[2..] == "b=c";
  }

  /** A variable a=b with the value c reaches the child as a variable a. */
  lemma KeyWithEquals()
    ensures var b := Block([("a=b", "c")]);
            Terminated(b) && Parsed(b) == map["a" := "b=c"]
  {
    var b, end := Block([("a=b", "c")]), [NUL];
    assert b == "a=b=c" + [NUL] + end;
    assert Terminated(end) && Strings(end) == [];
    StringsCons("a=b=c", end);
    SplitAtFirst();
    MeaningOfOne("a=b=c");
  }

  lemma MeaningOfOne(text: string)
    ensures Meaning([text] + []) == Install(map[], Split(text))
  {
    assert ([text] + [])[1..] == [];
  }

  /** A hidden drive variable comes back under its name, which starts with the sign. */
  lemma DriveVariable()
    ensures Split("=C:=d") == Some(("=C:", "d"))
  {
    var t := "=C:=d";
    assert t[0] == '=' && t[1] == 'C' && t[2] == ':' && t[3] == '=';
    assert Find(t, '=', 0) == 0 && Find(t, '=', 1) == 3;
    assert t[..3] == "=C:" && t[4..] == "d";
  }
}
