/** String helpers with the meaning JavaScript gives them, restricted to ASCII where Unicode tables would be needed. */
module Strings {

  /** `s.includes(t)`: `t` occurs in `s` as a contiguous block. */
  predicate Contains(s: string, t: string) {
    exists i :: 0 <= i <= |s| - |t| && OccursAt(s, t, i)
  }

  /** `t` occurs in `s` starting at index `i`. */
  predicate OccursAt(s: string, t: string, i: int) {
    0 <= i && i + |t| <= |s| && s[i..i + |t|] == t
  }

  /** `s.startsWith(p)`. */
  predicate StartsWith(s: string, p: string) {
    |p| <= |s| && s[..|p|] == p
  }

  /** A block of `t` found inside `u` is found in every string holding `u`. */
  lemma ContainsTransitive(s: string, u: string, t: string)
    requires Contains(s, u) && Contains(u, t)
    ensures Contains(s, t)
  {
    var i :| 0 <= i <= |s| - |u| && OccursAt(s, u, i);
    var j :| 0 <= j <= |u| - |t| && OccursAt(u, t, j);
    forall k | 0 <= k < |t|
      ensures s[i + j + k] == t[k]
    {
      assert u[j + k] == t[k];
      assert s[i..i + |u|][j + k] == s[i + j + k];
    }
    assert s[i + j..i + j + |t|] == t;
    assert OccursAt(s, t, i + j);
  }

  /** A block whose first character never appears in `s` is not found in `s`. */
  lemma {:induction false} MissingFirstCharNotContained(s: string, t: string)
    requires |t| > 0 && t[0] !in s
    ensures !Contains(s, t)
  {
    forall i | 0 <= i <= |s| - |t|
      ensures !OccursAt(s, t, i)
    {
      assert s[i..i + |t|][0] == s[i];
      assert s[i] != t[0];
    }
  }

  /** The characters JavaScript's `\s` class and `trim` treat as white space, ASCII part only. */
  predicate IsWhitespace(c: char) {
    c == ' ' || c == '\t' || c == '\n' || c == '\U{000B}' || c == '\U{000C}' || c == '\r'
  }

  /** `s.trimStart()`: the longest suffix of `s` that does not start with white space. */
  function TrimStart(s: string): (r: string)
    ensures |r| <= |s| && r == s[|s| - |r|..]
    ensures r == [] || !IsWhitespace(r[0])
    ensures forall i :: 0 <= i < |s| - |r| ==> IsWhitespace(s[i])
  {
    if s != [] && IsWhitespace(s[0]) then
      var r := TrimStart(s[1..]);
      assert forall i :: 1 <= i < |s| - |r| ==> s[i] == s[1..][i - 1];
      r
    else s
  }

  /** `s.trimEnd()`: the longest prefix of `s` that does not end with white space. */
  function TrimEnd(s: string): (r: string)
    ensures |r| <= |s| && r == s[..|r|]
    ensures r == [] || !IsWhitespace(r[|r| - 1])
    ensures forall i :: |r| <= i < |s| ==> IsWhitespace(s[i])
  {
    if s != [] && IsWhitespace(s[|s| - 1]) then
      var r := TrimEnd(s[..|s| - 1]);
      assert forall i :: |r| <= i < |s| - 1 ==> s[i] == s[..|s| - 1][i];
      r
    else s
  }

  /**
   * `t` is what remains of `s` once the white space at both ends is gone: it occurs at `i`, everything
   * before and after it is white space, and it neither starts nor ends with white space.
   */
  predicate TrimmedAt(s: string, t: string, i: int) {
    OccursAt(s, t, i) &&
    (forall k :: 0 <= k < i ==> IsWhitespace(s[k])) &&
    (forall k :: i + |t| <= k < |s| ==> IsWhitespace(s[k])) &&
    (t == [] || (!IsWhitespace(t[0]) && !IsWhitespace(t[|t| - 1])))
  }

  /** At most one piece of a string is its trimmed form. */
  lemma {:induction false} TrimmedAtUnique(s: string, t: string, i: int, u: string, j: int)
    requires TrimmedAt(s, t, i) && TrimmedAt(s, u, j)
    ensures t == u
  {
    if t != [] && u != [] {
      assert s[i] == t[0] && s[j] == u[0];
      assert i == j;
      assert s[i + |t| - 1] == t[|t| - 1] && s[j + |u| - 1] == u[|u| - 1];
      assert |t| == |u|;
    }
  }

  /** Trimming the start and then the end leaves the trimmed form of `s`, found where the start trim stopped. */
  lemma {:induction false} TrimEndsTrimmed(s: string)
    ensures var t := TrimStart(s);
            TrimmedAt(s, TrimEnd(t), |s| - |t|)
  {
    var t := TrimStart(s);
    var r := TrimEnd(t);
    var i := |s| - |t|;
    assert s[i..][..|r|] == s[i..i + |r|];
    assert OccursAt(s, r, i);
    forall k | i + |r| <= k < |s|
      ensures IsWhitespace(s[k])
    {
      assert s[k] == t[k - i];
    }
  }

  predicate IsUpperAscii(c: char) {
    'A' <= c <= 'Z'
  }

  function LowerChar(c: char): (r: char)
    ensures !IsUpperAscii(r)
    ensures IsUpperAscii(c) ==> r as int == c as int + 32
    ensures !IsUpperAscii(c) ==> r == c
  {
    if IsUpperAscii(c) then (c as int + 32) as char else c
  }

  /** `s.toLowerCase()` over ASCII letters: every upper-case letter becomes its lower-case twin. */
  function ToLower(s: string): (r: string)
    ensures |r| == |s|
    ensures forall i :: 0 <= i < |s| ==> r[i] == LowerChar(s[i])
  {
    if s == [] then [] else [LowerChar(s[0])] + ToLower(s[1..])
  }

  /** Decimal rendering of a natural number, as `String(n)` prints it. */
  function NatToString(n: nat): (r: string)
    ensures |r| >= 1
    ensures forall i :: 0 <= i < |r| ==> '0' <= r[i] <= '9'
    decreases n
  {
    var d := ['0' + (n % 10) as char];
    if n < 10 then d else NatToString(n / 10) + d
  }

  /** Decimal rendering of an integer, with a leading minus sign for negatives. */
  function IntToString(n: int): string {
    if n < 0 then "-" + NatToString(-n) else NatToString(n)
  }

  /** `parts.join(sep)`. */
  function Join(sep: string, parts: seq<string>): string {
    if parts == [] then ""
    else if |parts| == 1 then parts[0]
    else parts[0] + sep + Join(sep, parts[1..])
  }

  /** Joining two non-empty lists is joining each and putting one separator between them. */
  lemma {:induction false} JoinAppend(sep: string, p: seq<string>, q: seq<string>)
    requires p != [] && q != []
    ensures Join(sep, p + q) == Join(sep, p) + sep + Join(sep, q)
    decreases |p|
  {
    if |p| == 1 {
      assert (p + q)[1..] == q;
    } else {
      assert (p + q)[1..] == p[1..] + q;
      JoinAppend(sep, p[1..], q);
    }
  }

  /** A join of non-empty parts is empty only when there are no parts. */
  lemma {:induction false} JoinEmptyOnlyWhenNoParts(sep: string, parts: seq<string>)
    requires forall i :: 0 <= i < |parts| ==> parts[i] != ""
    ensures Join(sep, parts) == "" <==> parts == []
  {
    if |parts| > 1 {
      assert |Join(sep, parts)| >= |parts[0]| > 0;
    }
  }

  /** Prefixing is injective: two keys built from the same prefix are equal only when the suffixes are. */
  lemma {:induction false} PrefixInjective(p: string, a: string, b: string)
    requires p + a == p + b
    ensures a == b
  {
    assert a == (p + a)[|p|..];
    assert b == (p + b)[|p|..];
  }

  /**
   * Two different heads that do not contain the separator give different strings once the separator
   * follows them, whatever comes after.
   */
  lemma {:induction false} SeparatedHeadsDiffer(a: string, b: string, sep: char, x: string, y: string)
    requires a != b && sep !in a && sep !in b
    ensures a + [sep] + x != b + [sep] + y
  {
    var s, t := a + [sep] + x, b + [sep] + y;
    if |a| < |b| {
      if a == b[..|a|] {
        assert s[|a|] == sep && t[|a|] == b[|a|];
      } else {
        var i :| 0 <= i < |a| && a[i] != b[i];
        assert s[i] == a[i] && t[i] == b[i];
      }
    } else if |b| < |a| {
      if b == a[..|b|] {
        assert t[|b|] == sep && s[|b|] == a[|b|];
      } else {
        var i :| 0 <= i < |b| && a[i] != b[i];
        assert s[i] == a[i] && t[i] == b[i];
      }
    } else {
      var i :| 0 <= i < |a| && a[i] != b[i];
      assert s[i] == a[i] && t[i] == b[i];
    }
  }
}
