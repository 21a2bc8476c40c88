/** The few pieces of ECMAScript's string library the storefront relies on:
    `trim`, `split` on a one-character separator, `join`, and `length` and
    `substring`, which count UTF-16 code units. */
module JsString {

  /** The characters `String.prototype.trim` removes, which are also exactly the
      characters the regular-expression class `\s` matches: the WhiteSpace and
      LineTerminator productions of ECMA-262 (sections 12.2 and 12.3). */
  predicate IsWs(c: char) {
    || c == '\t' || c == '\n' || c == '\U{000B}' || c == '\U{000C}' || c == '\r'
    || c == ' ' || c == '\U{00A0}' || c == '\U{1680}'
    || ('\U{2000}' <= c <= '\U{200A}')
    || c == '\U{2028}' || c == '\U{2029}' || c == '\U{202F}' || c == '\U{205F}'
    || c == '\U{3000}' || c == '\U{FEFF}'
  }

  /** Every character of `s` is whitespace (vacuously true of the empty string). */
  predicate AllWs(s: string) {
    forall i :: 0 <= i < |s| ==> IsWs(s[i])
  }

  /** `s` starts or ends with whitespace. */
  predicate HasOuterWs(s: string) {
    |s| > 0 && (IsWs(s[0]) || IsWs(s[|s| - 1]))
  }

  /** Length of the whitespace run at the start of `s`. */
  function LeadingWs(s: string): (n: nat)
    ensures n <= |s|
    ensures forall i :: 0 <= i < n ==> IsWs(s[i])
    ensures n < |s| ==> !IsWs(s[n])
  {
    if |s| == 0 || !IsWs(s[0]) then 0 else 1 + LeadingWs(s[1..])
  }

  /** Length of the whitespace run at the end of `s`. */
  function TrailingWs(s: string): (n: nat)
    ensures n <= |s|
    ensures forall i :: |s| - n <= i < |s| ==> IsWs(s[i])
    ensures n < |s| ==> !IsWs(s[|s| - 1 - n])
  {
    if |s| == 0 || !IsWs(s[|s| - 1]) then 0 else 1 + TrailingWs(s[..|s| - 1])
  }

  /** `s.trim()`: the slice of `s` left after removing whitespace from both ends. */
  function Trim(s: string): (r: string)
    ensures r == [] <==> AllWs(s)
    ensures r != [] ==> !IsWs(r[0]) && !IsWs(r[|r| - 1])
    ensures exists lo, hi :: 0 <= lo <= hi <= |s| && r == s[lo..hi] && AllWs(s[..lo]) && AllWs(s[hi..])
  {
    var a := LeadingWs(s);
    if a == |s| then
      assert s[..0] == [] && AllWs(s[0..]);
      []
    else
      var b := |s| - TrailingWs(s);
      assert a < b;
      assert s[a..b][0] == s[a];
      s[a..b]
  }

  /** Trimming leaves a string unchanged exactly when it has no whitespace at either end. */
  lemma TrimFixedPoint(s: string)
    ensures Trim(s) == s <==> !HasOuterWs(s)
  {
    if Trim(s) == s {
      assert s == [] || (!IsWs(s[0]) && !IsWs(s[|s| - 1]));
    }
  }

  /** Trimming a string twice is the same as trimming it once. */
  lemma TrimIdempotent(s: string)
    ensures Trim(Trim(s)) == Trim(s)
  {
    TrimFixedPoint(Trim(s));
  }

  /** A character outside the Basic Multilingual Plane, which UTF-16 stores as
      a surrogate pair. */
  predicate IsAstral(c: char) {
    c as int >= 0x1_0000
  }

  /** The UTF-16 code units one character takes. */
  function Units(c: char): nat {
    if IsAstral(c) then 2 else 1
  }

  /** `s.length`: the number of UTF-16 code units of `s`, between its
      character count and twice that. */
  function Utf16Len(s: string): (n: nat)
    ensures |s| <= n <= 2 * |s|
  {
    if |s| == 0 then 0 else Units(s[0]) + Utf16Len(s[1..])
  }

  /** The code-unit length equals the character count exactly when no
      character is astral. */
  lemma {:induction false} Utf16LenBmp(s: string)
    ensures Utf16Len(s) == |s| <==> forall i :: 0 <= i < |s| ==> !IsAstral(s[i])
  {
    if |s| > 0 {
      Utf16LenBmp(s[1..]);
      assert forall i :: 1 <= i < |s| ==> s[i] == s[1..][i - 1];
    }
  }

  /** The code units of a concatenation are those of its parts. */
  lemma {:induction false} Utf16LenConcat(a: string, b: string)
    ensures Utf16Len(a + b) == Utf16Len(a) + Utf16Len(b)
  {
    if |a| == 0 {
      assert a + b == b;
    } else {
      assert (a + b)[0] == a[0];
      assert (a + b)[1..] == a[1..] + b;
      Utf16LenConcat(a[1..], b);
    }
  }

  /** `s.substring(0, n)` cut at a character boundary: the longest prefix of
      `s` whose UTF-16 length is at most `n`. */
  function Utf16Prefix(s: string, n: nat): (p: string)
    ensures p <= s
    ensures Utf16Len(p) <= n
    ensures |p| < |s| ==> n < Utf16Len(s[..|p| + 1])
    ensures Utf16Len(s) <= n ==> p == s
  {
    if |s| == 0 then []
    else if n < Units(s[0]) then
      assert s[..1][1..] == [];
      []
    else
      var rest := Utf16Prefix(s[1..], n - Units(s[0]));
      PrefixStep(s, n, rest);
      [s[0]] + rest
  }

  /** The step of `Utf16Prefix`: putting the first character back in front of
      the longest fitting prefix of the rest, after taking its units off the
      budget, gives the longest fitting prefix of the whole. */
  lemma {:induction false} PrefixStep(s: string, n: nat, rest: string)
    requires |s| > 0 && Units(s[0]) <= n
    requires rest <= s[1..] && Utf16Len(rest) <= n - Units(s[0])
    requires |rest| < |s| - 1 ==> n - Units(s[0]) < Utf16Len(s[1..][..|rest| + 1])
    requires Utf16Len(s[1..]) <= n - Units(s[0]) ==> rest == s[1..]
    ensures [s[0]] + rest <= s
    ensures Utf16Len([s[0]] + rest) <= n
    ensures |rest| + 1 < |s| ==> n < Utf16Len(s[..|rest| + 2])
    ensures Utf16Len(s) <= n ==> [s[0]] + rest == s
  {
    var p := [s[0]] + rest;
    assert p[0] == s[0] && p[1..] == rest;
    assert Utf16Len(p) == Units(s[0]) + Utf16Len(rest);
    assert s == [s[0]] + s[1..];
    assert p == [s[0]] + s[1..][..|rest|];
    if |rest| + 1 < |s| {
      var q := s[..|rest| + 2];
      assert q[0] == s[0] && q[1..] == s[1..][..|rest| + 1];
      assert Utf16Len(q) == Units(s[0]) + Utf16Len(q[1..]);
    }
    if Utf16Len(s) <= n {
      assert Utf16Len(s) == Units(s[0]) + Utf16Len(s[1..]);
    }
  }

  /** Index of the first occurrence of `c` in `s`, or `|s|` when there is none. */
  function IndexOf(s: string, c: char): (k: nat)
    ensures k <= |s|
    ensures k < |s| ==> s[k] == c
    ensures c !in s[..k]
  {
    if |s| == 0 then 0
    else if s[0] == c then 0
    else
      var k := 1 + IndexOf(s[1..], c);
      assert s[..k] == [s[0]] + s[1..][..k - 1];
      k
  }

  /** `parts.join([sep])`: the parts with one separator between neighbours. */
  function Join(parts: seq<string>, sep: char): string {
    if |parts| == 0 then ""
    else if |parts| == 1 then parts[0]
    else parts[0] + [sep] + Join(parts[1..], sep)
  }

  /** `parts.join(sep)` for a separator of any length. */
  function JoinWith(parts: seq<string>, sep: string): string {
    if |parts| == 0 then ""
    else if |parts| == 1 then parts[0]
    else parts[0] + sep + JoinWith(parts[1..], sep)
  }

  /** `s.split(sep)` for a one-character separator: the maximal separator-free
      pieces of `s`, of which there is always at least one. */
  function Split(s: string, sep: char): (parts: seq<string>)
    ensures |parts| >= 1
    ensures forall i :: 0 <= i < |parts| ==> sep !in parts[i]
    ensures Join(parts, sep) == s
    decreases |s|
  {
    var k := IndexOf(s, sep);
    if k == |s| then
      assert s[..k] == s;
      [s]
    else
      var rest := Split(s[k + 1..], sep);
      assert s == s[..k] + [sep] + s[k + 1..];
      [s[..k]] + rest
  }

  /** Splitting a join of separator-free parts gives the parts back. */
  lemma {:induction false} SplitJoin(parts: seq<string>, sep: char)
    requires |parts| >= 1
    requires forall i :: 0 <= i < |parts| ==> sep !in parts[i]
    ensures Split(Join(parts, sep), sep) == parts
  {
    if |parts| == 1 {
      assert IndexOf(parts[0], sep) == |parts[0]|;
    } else {
      var j := Join(parts, sep);
      var tail := Join(parts[1..], sep);
      assert j == parts[0] + [sep] + tail;
      IndexOfPrefix(parts[0], sep, tail);
      assert j[|parts[0]| + 1..] == tail;
      assert j[..|parts[0]|] == parts[0];
      SplitJoin(parts[1..], sep);
      assert [parts[0]] + parts[1..] == parts;
    }
  }

  /** The first separator of `a + [c] + b` sits right after `a` when `a` has none. */
  lemma IndexOfPrefix(a: string, c: char, b: string)
    requires c !in a
    ensures IndexOf(a + [c] + b, c) == |a|
  {
    var s := a + [c] + b;
    var k := IndexOf(s, c);
    assert s[|a|] == c;
  }

  /** Trims every part of a list, keeping the order. */
  function TrimAll(parts: seq<string>): (r: seq<string>)
    ensures |r| == |parts|
    ensures forall i :: 0 <= i < |parts| ==> r[i] == Trim(parts[i])
  {
    if |parts| == 0 then [] else [Trim(parts[0])] + TrimAll(parts[1..])
  }

  /** A trimmed slice of a string without `c` does not contain `c` either. */
  lemma TrimKeepsAbsence(s: string, c: char)
    requires c !in s
    ensures c !in Trim(s)
  {
    var lo, hi :| 0 <= lo <= hi <= |s| && Trim(s) == s[lo..hi] && AllWs(s[..lo]) && AllWs(s[hi..]);
  }
}
