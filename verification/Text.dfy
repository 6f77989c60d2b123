/**
 * String helpers with the meaning the handler's JavaScript gives them:
 * character classes of its regular expressions, `trim`, `startsWith`,
 * `slice(0, n)`, `split(":")` and the default `sort()` order.
 */
module Text {

  /** `[a-zA-Z0-9_]`, the word characters of a Telegram handle. */
  predicate IsWordChar(c: char) {
    ('a' <= c <= 'z') || ('A' <= c <= 'Z') || ('0' <= c <= '9') || c == '_'
  }

  /** `\d` without the `u` flag: the ASCII digits only. */
  predicate IsDigit(c: char) {
    '0' <= c <= '9'
  }

  /** The regular expression `^\d+$`. */
  predicate IsDigits(s: string) {
    |s| > 0 && forall i :: 0 <= i < |s| ==> IsDigit(s[i])
  }

  /** The characters `String.prototype.trim` removes: white space and line terminators. */
  predicate IsTrimmable(c: char) {
    c in TrimmableChars || ('\U{2000}' <= c <= '\U{200A}')
  }

  const TrimmableChars: set<char> :=
    {'\t', '\n', '\U{000B}', '\U{000C}', '\r', ' ', '\U{00A0}', '\U{1680}',
     '\U{2028}', '\U{2029}', '\U{202F}', '\U{205F}', '\U{3000}', '\U{FEFF}'}

  /** The number of white-space characters `s` starts with. */
  function LeadingSpace(s: string, from: nat): (i: nat)
    requires from <= |s|
    requires forall k :: 0 <= k < from ==> IsTrimmable(s[k])
    ensures from <= i <= |s|
    ensures forall k :: 0 <= k < i ==> IsTrimmable(s[k])
    ensures i < |s| ==> !IsTrimmable(s[i])
    decreases |s| - from
  {
    if from < |s| && IsTrimmable(s[from]) then LeadingSpace(s, from + 1) else from
  }

  /** Where the trailing white space of `s[lo..]` begins. */
  function TrailingSpace(s: string, lo: nat, hi: nat): (j: nat)
    requires lo <= hi <= |s|
    requires forall k :: hi <= k < |s| ==> IsTrimmable(s[k])
    ensures lo <= j <= hi
    ensures forall k :: j <= k < |s| ==> IsTrimmable(s[k])
    ensures j > lo ==> !IsTrimmable(s[j - 1])
    decreases hi
  {
    if hi > lo && IsTrimmable(s[hi - 1]) then TrailingSpace(s, lo, hi - 1) else hi
  }

  /**
   * `s.trim()`: the result is the infix `s[i..j]` such that everything outside it
   * is white space and it neither starts nor ends with white space.
   */
  function Trim(s: string): (r: string)
    ensures var i := LeadingSpace(s, 0);
            i + |r| <= |s| && r == s[i..i + |r|]
            && (forall k :: 0 <= k < i ==> IsTrimmable(s[k]))
            && (forall k :: i + |r| <= k < |s| ==> IsTrimmable(s[k]))
    ensures |r| > 0 ==> !IsTrimmable(r[0]) && !IsTrimmable(r[|r| - 1])
  {
    var i := LeadingSpace(s, 0);
    var j := TrailingSpace(s, i, |s|);
    s[i..j]
  }

  /** `toLowerCase` on one character, as far as ASCII letters go. */
  function LowerAscii(c: char): char {
    if 'A' <= c <= 'Z' then (c as int + 32) as char else c
  }

  /**
   * Case-insensitive comparison with an all-lower-case ASCII `word`, folding
   * ASCII letters only. This is exact for words without `k`, such as `self`, its
   * one use: apart from the ASCII capitals, only the Kelvin sign (U+212A)
   * lower-cases to an ASCII letter, namely `k`.
   */
  predicate EqualsIgnoringCase(s: string, word: string) {
    |s| == |word| && forall i :: 0 <= i < |s| ==> LowerAscii(s[i]) == word[i]
  }

  /** `s.startsWith(p)`. */
  predicate StartsWith(s: string, p: string) {
    |p| <= |s| && s[..|p|] == p
  }

  /** `s.slice(0, n)`: the first `n` characters, or all of a shorter string. */
  function Take(s: string, n: nat): (r: string)
    ensures |r| == if |s| < n then |s| else n
    ensures StartsWith(s, r)
  {
    if |s| <= n then s else s[..n]
  }

  /** Removes every character of `drop`, like `replace(/[...]/g, "")`. */
  function RemoveAll(s: string, drop: set<char>): (r: string)
    ensures forall k :: 0 <= k < |r| ==> r[k] !in drop
    ensures |r| <= |s|
  {
    if |s| == 0 then ""
    else if s[0] in drop then RemoveAll(s[1..], drop)
    else [s[0]] + RemoveAll(s[1..], drop)
  }

  lemma {:induction false} RemoveAllAppend(a: string, b: string, drop: set<char>)
    ensures RemoveAll(a + b, drop) == RemoveAll(a, drop) + RemoveAll(b, drop)
    decreases |a|
  {
    if |a| > 0 {
      assert (a + b)[1..] == a[1..] + b;
      RemoveAllAppend(a[1..], b, drop);
    } else {
      assert a + b == b;
    }
  }

  /** A string none of whose characters is dropped comes back unchanged. */
  lemma {:induction false} RemoveAllKeeps(s: string, drop: set<char>)
    requires forall k :: 0 <= k < |s| ==> s[k] !in drop
    ensures RemoveAll(s, drop) == s
    decreases |s|
  {
    if |s| > 0 {
      RemoveAllKeeps(s[1..], drop);
      assert s == [s[0]] + s[1..];
    }
  }

  // ---------------------------------------------------------------- split / join

  /** The position of the first `c` in `s`. */
  function IndexOf(s: string, c: char): (i: nat)
    requires c in s
    ensures i < |s| && s[i] == c && c !in s[..i]
  {
    if s[0] == c then 0 else 1 + IndexOf(s[1..], c)
  }

  /** `parts.join(sep)`. */
  function Join(parts: seq<string>, sep: char): string
  {
    if |parts| == 0 then ""
    else if |parts| == 1 then parts[0]
    else parts[0] + [sep] + Join(parts[1..], sep)
  }

  /**
   * `s.split(sep)` for a one-character separator: at least one part, no part
   * contains the separator, and joining the parts gives `s` back.
   */
  function Split(s: string, sep: char): (parts: seq<string>)
    ensures |parts| >= 1
    ensures forall i :: 0 <= i < |parts| ==> sep !in parts[i]
    ensures Join(parts, sep) == s
    decreases |s|
  {
    if sep !in s then [s]
    else
      var i := IndexOf(s, sep);
      var rest := Split(s[i + 1..], sep);
      assert ([s[..i]] + rest)[1..] == rest;
      assert s == s[..i] + [sep] + s[i + 1..];
      [s[..i]] + rest
  }

  /** Splitting a join of separator-free parts gives the parts back. */
  lemma {:induction false} SplitJoin(parts: seq<string>, sep: char)
    requires |parts| >= 1
    requires forall i :: 0 <= i < |parts| ==> sep !in parts[i]
    ensures Split(Join(parts, sep), sep) == parts
    decreases |parts|
  {
    if |parts| > 1 {
      var head := parts[0];
      var tail := Join(parts[1..], sep);
      var s := head + [sep] + tail;
      assert s[|head|] == sep;
      assert s[..|head|] == head;
      assert sep in s;
      assert forall k :: 0 <= k < |head| ==> s[k] == head[k];
      assert IndexOf(s, sep) == |head|;
      assert s[|head| + 1..] == tail;
      SplitJoin(parts[1..], sep);
      assert [head] + parts[1..] == parts;
    }
  }

  // ---------------------------------------------------------------- ordering

  /**
   * The order JavaScript's default `sort()` uses on strings: lexicographic on
   * character codes, a proper prefix coming first.
   */
  predicate LexLess(a: string, b: string)
    decreases |a|
  {
    if |a| == 0 then |b| > 0
    else if |b| == 0 then false
    else if a[0] != b[0] then a[0] < b[0]
    else LexLess(a[1..], b[1..])
  }

  predicate LexLessOrEqual(a: string, b: string) {
    a == b || LexLess(a, b)
  }

  lemma {:induction false} LexLessTransitive(a: string, b: string, c: string)
    requires LexLess(a, b) && LexLess(b, c)
    ensures LexLess(a, c)
    decreases |a|
  {
    if |a| > 0 && a[0] == b[0] && b[0] == c[0] {
      LexLessTransitive(a[1..], b[1..], c[1..]);
    }
  }

  lemma {:induction false} LexLessTotal(a: string, b: string)
    requires a != b
    ensures LexLess(a, b) || LexLess(b, a)
    decreases |a|
  {
    if |a| > 0 && |b| > 0 && a[0] == b[0] {
      assert a == [a[0]] + a[1..];
      assert b == [b[0]] + b[1..];
      LexLessTotal(a[1..], b[1..]);
    }
  }
}
