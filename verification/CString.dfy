/** NUL-terminated strings in a buffer, and the C library calls made on them. */
module CString {

  const NUL := '\0'

  /** The string that starts at off: up to the first NUL, or the end of the buffer. */
  function CStr(buf: seq<char>, off: nat): (s: string)
    requires off <= |buf|
    ensures off + |s| <= |buf|
    ensures forall k :: 0 <= k < |s| ==> s[k] == buf[off + k] && s[k] != NUL
    ensures off + |s| < |buf| ==> buf[off + |s|] == NUL
    decreases |buf| - off
  {
    if off == |buf| || buf[off] == NUL then []
    else [buf[off]] + CStr(buf, off + 1)
  }

  /** The terminator decides where the string ends. */
  lemma {:induction false} CStrIs(buf: seq<char>, off: nat, s: string)
    requires off + |s| <= |buf|
    requires forall k :: 0 <= k < |s| ==> s[k] == buf[off + k] && s[k] != NUL
    requires off + |s| < |buf| ==> buf[off + |s|] == NUL
    ensures CStr(buf, off) == s
    decreases |s|
  {
    if s != [] {
      assert s[0] == buf[off + 0];
      CStrIs(buf, off + 1, s[1..]);
    }
  }

  /** The string at off does not run past a NUL at end. */
  lemma {:induction false} CStrEnds(buf: seq<char>, off: nat, end: nat)
    requires off <= end < |buf| && buf[end] == NUL
    ensures off + |CStr(buf, off)| <= end
    decreases end - off
  {
    if buf[off] != NUL {
      CStrEnds(buf, off + 1, end);
    }
  }

  /** A string inside a string. */
  lemma CStrTail(buf: seq<char>, off: nat, k: nat)
    requires off <= |buf| && k <= |CStr(buf, off)|
    ensures CStr(buf, off + k) == CStr(buf, off)[k..]
  {
    CStrIs(buf, off + k, CStr(buf, off)[k..]);
  }

  /** Cutting a string in two by overwriting one character. */
  lemma CStrCut(buf: seq<char>, off: nat, k: nat)
    requires off <= |buf| && k < |CStr(buf, off)|
    ensures CStr(buf[off + k := NUL], off) == CStr(buf, off)[..k]
    ensures CStr(buf[off + k := NUL], off + k + 1) == CStr(buf, off)[k + 1..]
  {
    CStrIs(buf[off + k := NUL], off, CStr(buf, off)[..k]);
    CStrIs(buf[off + k := NUL], off + k + 1, CStr(buf, off)[k + 1..]);
  }

  predicate Blank(c: char) { c == ' ' || c == '\t' }

  /** strpbrk(s, " \t"): position of the first blank, |s| if there is none. */
  function FindBlank(s: string): (i: nat)
    ensures i <= |s| && (forall k :: 0 <= k < i ==> !Blank(s[k])) && (i < |s| ==> Blank(s[i]))
  {
    if s == [] || Blank(s[0]) then 0 else 1 + FindBlank(s[1..])
  }

  /** strspn(s, " \t"): length of the leading blanks. */
  function SkipBlanks(s: string): (i: nat)
    ensures i <= |s| && (forall k :: 0 <= k < i ==> Blank(s[k])) && (i < |s| ==> !Blank(s[i]))
  {
    if s == [] || !Blank(s[0]) then 0 else 1 + SkipBlanks(s[1..])
  }

  /** strchr(s, c): position of the first c, |s| if there is none. */
  function FindChar(s: string, c: char): (i: nat)
    ensures i <= |s| && (forall k :: 0 <= k < i ==> s[k] != c) && (i < |s| ==> s[i] == c)
  {
    if s == [] || s[0] == c then 0 else 1 + FindChar(s[1..], c)
  }

  function Lower(c: char): char
  {
    if 'A' <= c <= 'Z' then ((c as int) + 32) as char else c
  }

  /** strcasecmp(s, t) == 0. */
  predicate EqNoCase(s: string, t: string)
  {
    |s| == |t| && forall k :: 0 <= k < |s| ==> Lower(s[k]) == Lower(t[k])
  }

  /** The upper case and the lower case of one ASCII letter. */
  predicate CasePair(a: char, b: char) { 'A' <= a <= 'Z' && b as int == a as int + 32 }

  /** The same text but for the case of letters. */
  predicate SameText(s: string, t: string)
  {
    |s| == |t| && forall k :: 0 <= k < |s| ==> s[k] == t[k] || CasePair(s[k], t[k]) || CasePair(t[k], s[k])
  }

  /** strcasecmp ignores the case of ASCII letters, and nothing else. */
  lemma EqNoCaseIs(s: string, t: string)
    ensures EqNoCase(s, t) <==> SameText(s, t)
  {
    if |s| == |t| {
      forall k | 0 <= k < |s|
        ensures Lower(s[k]) == Lower(t[k]) <==> s[k] == t[k] || CasePair(s[k], t[k]) || CasePair(t[k], s[k])
      {
        LowerIs(s[k], t[k]);
      }
    }
  }

  lemma LowerIs(a: char, b: char)
    ensures Lower(a) == Lower(b) <==> a == b || CasePair(a, b) || CasePair(b, a)
  {
  }

  /** s starts with the text t but for case. */
  predicate StartsLike(s: string, t: string) { |t| <= |s| && SameText(s[..|t|], t) }

  lemma PrefixNoCaseIs(s: string, t: string)
    ensures PrefixNoCase(s, t) <==> StartsLike(s, t)
  {
    if |t| <= |s| {
      EqNoCaseIs(s[..|t|], t);
    }
  }

  /** strncasecmp(s, t, strlen(t)) == 0. */
  predicate PrefixNoCase(s: string, t: string)
  {
    |t| <= |s| && EqNoCase(s[..|t|], t)
  }

  // ----- Numbers -----

  predicate Digit(c: char) { '0' <= c <= '9' }

  predicate Space(c: char) { c == ' ' || '\t' <= c <= '\r' }

  /** The digits at the start of s, as a number that continues value. */
  function Digits(s: string, value: nat): nat
  {
    if s == [] || !Digit(s[0]) then value
    else Digits(s[1..], 10 * value + (s[0] as int - '0' as int))
  }

  /** strtol(s, 0, 10) before the result is fitted into a long. */
  function Number(s: string): int
  {
    if s == [] then 0
    else if Space(s[0]) then Number(s[1..])
    else if s[0] == '-' then 0 - Digits(s[1..], 0)
    else if s[0] == '+' then Digits(s[1..], 0)
    else Digits(s, 0)
  }

  /** strtol stops at the ends of a 64-bit long. */
  function Saturate(n: int): int
  {
    if n > 0x7FFF_FFFF_FFFF_FFFF then 0x7FFF_FFFF_FFFF_FFFF
    else if n < -0x8000_0000_0000_0000 then -0x8000_0000_0000_0000
    else n
  }

  /** The nearest number that a 64-bit long can hold. */
  lemma SaturateIsNearest(n: int)
    ensures -0x8000_0000_0000_0000 <= Saturate(n) <= 0x7FFF_FFFF_FFFF_FFFF
    ensures -0x8000_0000_0000_0000 <= n <= 0x7FFF_FFFF_FFFF_FFFF ==> Saturate(n) == n
    ensures n > Saturate(n) ==> Saturate(n) == 0x7FFF_FFFF_FFFF_FFFF
    ensures n < Saturate(n) ==> Saturate(n) == -0x8000_0000_0000_0000
  {
  }

  /** The one int that differs from n by a multiple of 2 to the 32. */
  lemma ToInt32Wraps(n: int)
    ensures (n - ToInt32(n)) % 0x1_0000_0000 == 0
  {
  }

  /** A long assigned to an int keeps its low 32 bits. */
  function ToInt32(n: int): (r: int)
    ensures -0x8000_0000 <= r < 0x8000_0000
    ensures -0x8000_0000 <= n < 0x8000_0000 ==> r == n
  {
    (n + 0x8000_0000) % 0x1_0000_0000 - 0x8000_0000
  }

  /** int x = atol(s). */
  function Atol(s: string): int
  {
    ToInt32(Saturate(Number(s)))
  }
}
