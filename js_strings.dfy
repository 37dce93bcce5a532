/**
 * The JavaScript string primitives the interview flow relies on:
 * `trim`, `split('\n')`, `split(/\s+/)` and the `\s` / `\d` / `.` character
 * classes of JavaScript regular expressions.
 */
module JsStrings {

  /** `\s` in a JavaScript regular expression, and the set `String.prototype.trim` removes:
      the WhiteSpace and LineTerminator code points of ECMAScript. */
  predicate IsSpace(c: char) {
    || ('\U{0009}' <= c <= '\U{000D}')
    || c == ' ' || c == '\U{00A0}' || c == '\U{1680}'
    || ('\U{2000}' <= c <= '\U{200A}')
    || c == '\U{2028}' || c == '\U{2029}' || c == '\U{202F}' || c == '\U{205F}'
    || c == '\U{3000}' || c == '\U{FEFF}'
  }

  /** The code points a regular-expression `.` does not match (no `s` flag). */
  predicate IsLineTerminator(c: char) {
    c == '\n' || c == '\r' || c == '\U{2028}' || c == '\U{2029}'
  }

  /** `\d`: the ASCII digits only. */
  predicate IsDigit(c: char) {
    '0' <= c <= '9'
  }

  predicate AllSpace(s: string) {
    forall k :: 0 <= k < |s| ==> IsSpace(s[k])
  }

  /** `s.trimStart()`: the longest suffix of `s` that does not begin with whitespace. */
  function TrimStart(s: string): (r: string)
    ensures |r| <= |s| && r == s[|s| - |r|..]
    ensures AllSpace(s[..|s| - |r|])
    ensures r != [] ==> !IsSpace(r[0])
    decreases |s|
  {
    if s != [] && IsSpace(s[0]) then TrimStart(s[1..]) else s
  }

  /** `s.trimEnd()`: the longest prefix of `s` that does not end with whitespace. */
  function TrimEnd(s: string): (r: string)
    ensures |r| <= |s| && r == s[..|r|]
    ensures AllSpace(s[|r|..])
    ensures r != [] ==> !IsSpace(r[|r| - 1])
    decreases |s|
  {
    if s != [] && IsSpace(s[|s| - 1]) then
      var init := s[..|s| - 1];
      var r := TrimEnd(init);
      assert s[|r|..] == init[|r|..] + [s[|s| - 1]];
      r
    else s
  }

  /** `s.trim()`: `s` without its leading and trailing whitespace; a contiguous
      piece of `s` that begins and ends with a non-whitespace character, or the
      empty string exactly when `s` is all whitespace. */
  function Trim(s: string): (r: string)
    ensures |r| <= |s|
    ensures r != [] ==> !IsSpace(r[0]) && !IsSpace(r[|r| - 1])
    ensures r == [] <==> AllSpace(s)
    ensures |r| <= |TrimStart(s)| && r == TrimStart(s)[..|r|]
    ensures AllSpace(TrimStart(s)[|r|..])
  {
    var t := TrimStart(s);
    var r := TrimEnd(t);
    assert r == [] ==> t == [] by {
      if t != [] { assert t[..1] == [t[0]]; }
    }
    r
  }

  /** JavaScript's `!s.trim()`: the string is empty or whitespace only
      (`Trim(s) == []` exactly in this case, by Trim's contract). */
  predicate IsBlank(s: string) {
    AllSpace(s)
  }

  /** The index of the first occurrence of `c` in `s`. */
  function IndexOfChar(s: string, c: char): (i: nat)
    requires c in s
    ensures i < |s| && s[i] == c && c !in s[..i]
  {
    if s[0] == c then 0 else 1 + IndexOfChar(s[1..], c)
  }

  /** `parts.join(sep)`. */
  function JoinWith(parts: seq<string>, sep: char): string
    requires |parts| >= 1
  {
    if |parts| == 1 then parts[0] else parts[0] + [sep] + JoinWith(parts[1..], sep)
  }

  /** `s.split(sep)` with a one-character string separator: the pieces between
      separators, never containing `sep`, whose join with `sep` is `s` again. */
  function SplitOn(s: string, sep: char): (parts: seq<string>)
    ensures |parts| >= 1
    ensures forall k :: 0 <= k < |parts| ==> sep !in parts[k]
    ensures JoinWith(parts, sep) == s
    decreases |s|
  {
    if sep !in s then [s]
    else
      var i := IndexOfChar(s, sep);
      var rest := SplitOn(s[i + 1..], sep);
      assert ([s[..i]] + rest)[1..] == rest;
      assert s == s[..i] + [sep] + s[i + 1..];
      [s[..i]] + rest
  }

  predicate NoSpace(s: string) {
    forall j :: 0 <= j < |s| ==> !IsSpace(s[j])
  }

  /** The length of the longest prefix of `s` free of whitespace. */
  function NonSpaceRun(s: string): (k: nat)
    ensures k <= |s|
    ensures forall j :: 0 <= j < k ==> !IsSpace(s[j])
    ensures k < |s| ==> IsSpace(s[k])
  {
    if s == [] || IsSpace(s[0]) then 0 else 1 + NonSpaceRun(s[1..])
  }

  /** `s.split(/\s+/)`: the pieces between maximal runs of whitespace (a leading
      or trailing run gives an empty first or last piece); no piece holds whitespace. */
  function SplitWhitespace(s: string): (parts: seq<string>)
    ensures |parts| >= 1
    ensures forall k :: 0 <= k < |parts| ==> NoSpace(parts[k])
    decreases |s|
  {
    var k := NonSpaceRun(s);
    if k == |s| then [s]
    else
      var rest := TrimStart(s[k..]);
      assert |rest| < |s[k..]|;
      var tail := SplitWhitespace(rest);
      assert NoSpace(s[..k]);
      [s[..k]] + tail
  }

  /** `s.trim().split(/\s+/).length`: at least 1, also for a blank string. */
  function WordCount(s: string): (n: nat)
    ensures n >= 1
  {
    |SplitWhitespace(Trim(s))|
  }

  /** The number of positions at which a word (a maximal run of non-whitespace)
      begins, scanning `s` with `afterSpace` telling whether the previous
      character was whitespace or the start of the text. */
  function WordStarts(s: string, afterSpace: bool): nat
    decreases |s|
  {
    if s == [] then 0
    else (if afterSpace && !IsSpace(s[0]) then 1 else 0) + WordStarts(s[1..], IsSpace(s[0]))
  }

  /** The number of words of `s`. */
  function Words(s: string): nat {
    WordStarts(s, true)
  }

  lemma {:induction false} WordStartsSkipSpaces(s: string, afterSpace: bool)
    requires s != [] && IsSpace(s[0])
    ensures WordStarts(s, afterSpace) == WordStarts(TrimStart(s), true)
    decreases |s|
  {
    if s[1..] != [] && IsSpace(s[1]) {
      WordStartsSkipSpaces(s[1..], true);
    }
  }

  lemma {:induction false} WordStartsDropTrailing(s: string, afterSpace: bool)
    ensures WordStarts(s, afterSpace) == WordStarts(TrimEnd(s), afterSpace)
    decreases |s|
  {
    if s != [] && IsSpace(s[|s| - 1]) {
      WordStartsDropLast(s, afterSpace);
      WordStartsDropTrailing(s[..|s| - 1], afterSpace);
    }
  }

  lemma {:induction false} WordStartsDropLast(s: string, afterSpace: bool)
    requires s != [] && IsSpace(s[|s| - 1])
    ensures WordStarts(s, afterSpace) == WordStarts(s[..|s| - 1], afterSpace)
    decreases |s|
  {
    if |s| > 1 {
      assert s[1..][..|s| - 2] == s[..|s| - 1][1..];
      WordStartsDropLast(s[1..], IsSpace(s[0]));
    }
  }

  /** A word-free prefix of non-whitespace characters counts as one word start. */
  lemma {:induction false} WordStartsLeadingWord(s: string, k: nat, afterSpace: bool)
    requires 0 < k <= |s|
    requires forall j :: 0 <= j < k ==> !IsSpace(s[j])
    ensures WordStarts(s, afterSpace) == (if afterSpace then 1 else 0) + WordStarts(s[k..], false)
    decreases k
  {
    if k > 1 {
      assert s[1..][k - 1..] == s[k..];
      WordStartsLeadingWord(s[1..], k - 1, false);
    } else {
      assert s[1..] == s[k..];
    }
  }

  /** Trimming the front of a text that ends in non-whitespace keeps its last character. */
  lemma {:induction false} TrimStartKeepsLast(s: string)
    requires s != [] && !IsSpace(s[|s| - 1])
    ensures TrimStart(s) != [] && TrimStart(s)[|TrimStart(s)| - 1] == s[|s| - 1]
    decreases |s|
  {
    if IsSpace(s[0]) {
      assert s[1..][|s| - 2] == s[|s| - 1];
      TrimStartKeepsLast(s[1..]);
    }
  }

  /** On a trimmed, non-blank text the pieces of `split(/\s+/)` are exactly its words. */
  lemma {:induction false} SplitCountsWords(t: string)
    requires t != [] && !IsSpace(t[0]) && !IsSpace(t[|t| - 1])
    ensures |SplitWhitespace(t)| == Words(t)
    decreases |t|
  {
    var k := NonSpaceRun(t);
    WordStartsLeadingWord(t, k, true);
    if k == |t| {
      assert t[k..] == [];
    } else {
      var rest := TrimStart(t[k..]);
      WordStartsSkipSpaces(t[k..], false);
      assert t[k..][|t| - 1 - k] == t[|t| - 1];
      TrimStartKeepsLast(t[k..]);
      SplitCountsWords(rest);
      assert SplitWhitespace(t) == [t[..k]] + SplitWhitespace(rest);
    }
  }

  /** The fallback word count is the number of words in the answer (at least 1). */
  lemma WordCountIsWords(s: string)
    requires !IsBlank(s)
    ensures WordCount(s) == Words(s)
  {
    var t := TrimStart(s);
    var r := Trim(s);
    assert s != [] && t != [];
    if IsSpace(s[0]) {
      WordStartsSkipSpaces(s, true);
    } else {
      assert t == s;
    }
    WordStartsDropTrailing(t, true);
    SplitCountsWords(r);
  }

  /** `hay.includes(needle)`. */
  predicate Contains(hay: string, needle: string) {
    exists i | 0 <= i <= |hay| - |needle| :: OccursAt(hay, needle, i)
  }

  /** `needle` occurs in `hay` starting at index `i`. */
  predicate OccursAt(hay: string, needle: string, i: int) {
    0 <= i && i + |needle| <= |hay| && hay[i..i + |needle|] == needle
  }

  lemma ContainsInfix(a: string, b: string, c: string)
    ensures Contains(a + b + c, b)
  {
    var s := a + b + c;
    assert s[|a|..|a| + |b|] == b;
    assert OccursAt(s, b, |a|);
  }
}
