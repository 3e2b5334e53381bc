// What several of the models share: optional values, C strings, the search for a character,
// and memmove.

module Common {

  datatype Option<T> = None | Some(value: T)

  const NUL: char := '\0'

  predicate NulFree(s: string) { NUL !in s }

  /** The first position from p on that holds c, or the end of the string. */
  function Span(s: string, c: char, p: nat): (q: nat)
    requires p <= |s|
    ensures p <= q <= |s| && (q < |s| ==> s[q] == c)
    ensures forall i :: p <= i < q ==> s[i] != c
    decreases |s| - p
  {
    if p == |s| || s[p] == c then p else Span(s, c, p + 1)
  }

  /** The C string a buffer holds. */
  function CString(buf: string): (s: string)
    requires NUL in buf
    ensures NUL !in s && |s| < |buf| && buf[|s|] == NUL && s == buf[..|s|]
  {
    buf[..Span(buf, NUL, 0)]
  }

  lemma CStringOf(s: string, t: string)
    requires NulFree(s)
    ensures CString(s + [NUL] + t) == s
  {
    var buf := s + [NUL] + t;
    assert forall i :: 0 <= i < |s| ==> buf[i] == s[i] && s[i] != NUL;
    assert buf[|s|] == NUL && buf[..|s|] == s;
  }

  /** memmove: the ranges may overlap. */
  method Memmove<T>(a: array<T>, dst: nat, src: nat, n: nat)
    requires dst + n <= a.Length && src + n <= a.Length
    modifies a
    ensures forall i :: dst <= i < dst + n ==> a[i] == old(a[..])[src + i - dst]
    ensures forall i :: 0 <= i < a.Length && !(dst <= i < dst + n) ==> a[i] == old(a[i])
    ensures a[..] == old(a[..])[..dst] + old(a[..])[src..src + n] + old(a[..])[dst + n..]
  {
    var moved := a[src..src + n];
    forall i | 0 <= i < n {
      a[dst + i] := moved[i];
    }
  }
}
