/** C strings and the first-occurrence searches of the agent's string library.
    A C char is a Dafny char; the parsers only compare bytes for equality. */
module CStrings {

  const NUL: char := '\0'

  /** Position of the first c in s, or -1 (strchr, strnidx of one byte). */
  function IndexOfChar(s: string, c: char): (i: int)
    ensures -1 <= i < |s|
    ensures i < 0 <==> c !in s
    ensures i >= 0 ==> s[i] == c
    ensures forall k :: 0 <= k < i ==> s[k] != c
  {
    if s == [] then -1
    else if s[0] == c then 0
    else
      var r := IndexOfChar(s[1..], c);
      if r < 0 then -1 else r + 1
  }

  lemma IndexOfCharIs(s: string, c: char, i: nat)
    requires i < |s| && s[i] == c && c !in s[..i]
    ensures IndexOfChar(s, c) == i
  {
    assert forall k :: 0 <= k < i ==> s[..i][k] == s[k];
  }

  /** The text a C reader sees at the start of s: everything before the first NUL. */
  function CStr(s: string): (r: string)
    ensures r <= s
    ensures NUL !in r
    ensures NUL !in s ==> r == s
    ensures NUL in s ==> |r| < |s| && s[|r|] == NUL
  {
    var i := IndexOfChar(s, NUL);
    if i < 0 then s else s[..i]
  }

  /** A NUL behind v ends what is read, whatever follows it. */
  lemma CStrCut(t: string, v: string)
    requires |v| < |t| && t[|v|] == NUL
    requires forall i :: 0 <= i < |v| ==> t[i] == v[i]
    ensures CStr(t) == CStr(v)
  {
    var i := IndexOfChar(t, NUL);
    if NUL in v {
      var j := IndexOfChar(v, NUL);
      assert t[j] == NUL;
      assert i == j;
      assert t[..i] == v[..i];
    } else {
      assert i == |v|;
      assert t[..i] == v;
    }
  }

  /** A pointer to position p reads t. */
  ghost predicate Reads(s: string, p: int, t: string) {
    && 0 <= p && p + |t| < |s| && s[p + |t|] == NUL && NUL !in t
    && forall i {:trigger t[i]} :: 0 <= i < |t| ==> s[p + i] == t[i]
  }

  lemma ReadsCStr(s: string)
    requires NUL in s
    ensures Reads(s, 0, CStr(s))
  {
  }

  predicate OccursAt(s: string, pattern: string, i: int) {
    0 <= i <= |s| - |pattern| && s[i..i + |pattern|] == pattern
  }

  lemma OccursByte(s: string, pattern: string, i: int, k: nat)
    requires OccursAt(s, pattern, i) && k < |pattern|
    ensures s[i + k] == pattern[k]
  {
    assert s[i..i + |pattern|][k] == s[i + k];
  }

  /** Position of the first occurrence of pattern in s at or after position from, or -1. */
  function IndexFrom(s: string, pattern: string, from: nat): (i: int)
    requires from <= |s|
    ensures i == -1 || (from <= i && OccursAt(s, pattern, i))
    ensures forall j :: from <= j && (i == -1 || j < i) ==> !OccursAt(s, pattern, j)
    decreases |s| - from
  {
    if OccursAt(s, pattern, from) then from
    else if from == |s| then -1
    else IndexFrom(s, pattern, from + 1)
  }

  /** strstr: the first occurrence of pattern in s, or -1. */
  function IndexOf(s: string, pattern: string): (i: int)
    ensures i == -1 || OccursAt(s, pattern, i)
    ensures forall j :: 0 <= j && (i == -1 || j < i) ==> !OccursAt(s, pattern, j)
  {
    IndexFrom(s, pattern, 0)
  }

  /** ASCII lower case, byte by byte. */
  function Lower(c: char): char {
    if 'A' <= c <= 'Z' then (c as int + 32) as char else c
  }

  function LowerAll(s: string): (r: string)
    ensures |r| == |s| && forall i :: 0 <= i < |s| ==> r[i] == Lower(s[i])
  {
    seq(|s|, i requires 0 <= i < |s| => Lower(s[i]))
  }

  /** The 26 upper-case letters have their small ones; every other byte stays as it is. */
  lemma LowerExactly(c: char)
    ensures forall i :: 0 <= i < 26 ==>
              Lower("ABCDEFGHIJKLMNOPQRSTUVWXYZ"[i]) == "abcdefghijklmnopqrstuvwxyz"[i]
    ensures c !in "ABCDEFGHIJKLMNOPQRSTUVWXYZ" ==> Lower(c) == c
  {
    var upper := "ABCDEFGHIJKLMNOPQRSTUVWXYZ";
    if 'A' <= c <= 'Z' {
      assert upper[c as int - 65] == c;
    }
  }
}
