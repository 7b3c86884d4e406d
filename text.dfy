/**
 * Text primitives of Python's `str` that the scripts rely on: `split()` with no
 * argument, `readlines()`, `sep.join(...)`, `endswith`, `lower`, `replace(c, "")`
 * and the padding of format specifications such as `<2` and `>14`.
 */
module Text {

  /** Python's `str.isspace` for one character: the separators `split()` cuts on. */
  predicate IsSpace(c: char) {
    var n := c as int;
    || n == 0x20
    || 0x09 <= n <= 0x0d
    || 0x1c <= n <= 0x1f
    || n == 0x85 || n == 0xa0 || n == 0x1680
    || 0x2000 <= n <= 0x200a
    || n == 0x2028 || n == 0x2029 || n == 0x202f || n == 0x205f || n == 0x3000
  }

  predicate NoSpace(s: string) {
    forall i :: 0 <= i < |s| ==> !IsSpace(s[i])
  }

  predicate AllSpace(s: string) {
    forall i :: 0 <= i < |s| ==> IsSpace(s[i])
  }

  /** The end of the token that starts before `i`: the first white space at or after `i`. */
  function TokenEnd(s: string, i: nat): (e: nat)
    requires i <= |s|
    ensures i <= e <= |s|
    ensures forall k :: i <= k < e ==> !IsSpace(s[k])
    ensures e < |s| ==> IsSpace(s[e])
    decreases |s| - i
  {
    if i == |s| || IsSpace(s[i]) then i else TokenEnd(s, i + 1)
  }

  /** Python's `s.split()`: the maximal runs of non-space characters, in order. */
  function Split(s: string): (tokens: seq<string>)
    ensures forall k :: 0 <= k < |tokens| ==> tokens[k] != [] && NoSpace(tokens[k])
    decreases |s|
  {
    if s == [] then []
    else if IsSpace(s[0]) then Split(s[1..])
    else
      var e := TokenEnd(s, 1);
      [s[..e]] + Split(s[e..])
  }

  lemma {:induction false} TokenEndAt(s: string, i: nat, e: nat)
    requires i <= e <= |s|
    requires forall k :: i <= k < e ==> !IsSpace(s[k])
    requires e == |s| || IsSpace(s[e])
    ensures TokenEnd(s, i) == e
    decreases e - i
  {
    if i < e {
      TokenEndAt(s, i + 1, e);
    }
  }

  /** Leading white space does not change what `split()` returns. */
  lemma {:induction false} SplitSkipsSpaces(w: string, s: string)
    requires AllSpace(w)
    ensures Split(w + s) == Split(s)
    decreases |w|
  {
    if w != [] {
      assert (w + s)[1..] == w[1..] + s;
      SplitSkipsSpaces(w[1..], s);
    } else {
      assert w + s == s;
    }
  }

  /** A token followed by white space (or by nothing) is the first field of `split()`. */
  lemma SplitToken(t: string, rest: string)
    requires t != [] && NoSpace(t)
    requires rest == [] || IsSpace(rest[0])
    ensures Split(t + rest) == [t] + Split(rest)
  {
    var s := t + rest;
    TokenEndAt(s, 1, |t|);
    assert s[..|t|] == t;
    assert s[|t|..] == rest;
  }

  /** The concatenation of a list of strings (Python's `"".join(xs)`). */
  function Concat(xs: seq<string>): string
    decreases |xs|
  {
    if xs == [] then [] else xs[0] + Concat(xs[1..])
  }

  lemma {:induction false} ConcatAppend(xs: seq<string>, ys: seq<string>)
    ensures Concat(xs + ys) == Concat(xs) + Concat(ys)
    decreases |xs|
  {
    if xs == [] {
      assert xs + ys == ys;
    } else {
      assert (xs + ys)[1..] == xs[1..] + ys;
      ConcatAppend(xs[1..], ys);
    }
  }

  /** Python's `sep.join(xs)`. */
  function Join(xs: seq<string>, sep: string): string
    decreases |xs|
  {
    if |xs| == 0 then []
    else if |xs| == 1 then xs[0]
    else xs[0] + sep + Join(xs[1..], sep)
  }

  /** Every string of `xs` followed by `suffix`. */
  function WithSuffix(xs: seq<string>, suffix: string): (r: seq<string>)
    ensures |r| == |xs|
    ensures forall k :: 0 <= k < |xs| ==> r[k] == xs[k] + suffix
  {
    seq(|xs|, k requires 0 <= k < |xs| => xs[k] + suffix)
  }

  lemma WithSuffixSnoc(xs: seq<string>, j: nat, suffix: string)
    requires j < |xs|
    ensures Concat(WithSuffix(xs[..j + 1], suffix)) == Concat(WithSuffix(xs[..j], suffix)) + (xs[j] + suffix)
  {
    assert WithSuffix(xs[..j + 1], suffix) == WithSuffix(xs[..j], suffix) + [xs[j] + suffix];
    ConcatAppend(WithSuffix(xs[..j], suffix), [xs[j] + suffix]);
  }

  /** Joining with a separator and appending it once more puts it after every item. */
  lemma {:induction false} JoinThenSeparator(xs: seq<string>, sep: string)
    requires xs != []
    ensures Join(xs, sep) + sep == Concat(WithSuffix(xs, sep))
    decreases |xs|
  {
    if |xs| == 1 {
      assert WithSuffix(xs, sep)[1..] == [];
    } else {
      JoinThenSeparator(xs[1..], sep);
      assert WithSuffix(xs, sep)[1..] == WithSuffix(xs[1..], sep);
    }
  }

  /** A line as `readlines()` returns it: non-empty, a newline at most as its last character. */
  predicate IsLine(l: string) {
    l != [] && forall k :: 0 <= k < |l| - 1 ==> l[k] != '\n'
  }

  predicate EndsWithNewline(l: string) {
    l != [] && l[|l| - 1] == '\n'
  }

  /** A list of lines that `readlines()` could have produced: all but the last end in a newline. */
  predicate WellSplit(lines: seq<string>) {
    && (forall k :: 0 <= k < |lines| ==> IsLine(lines[k]))
    && (forall k :: 0 <= k < |lines| - 1 ==> EndsWithNewline(lines[k]))
  }

  /** The end of the line that starts at `i`: just after the next newline, or the end of `s`. */
  function LineEnd(s: string, i: nat): (e: nat)
    requires i <= |s|
    ensures i <= e <= |s|
    ensures i < |s| ==> i < e
    ensures forall k :: i <= k < e - 1 ==> s[k] != '\n'
    ensures i < e < |s| ==> s[e - 1] == '\n'
    decreases |s| - i
  {
    if i == |s| then i else if s[i] == '\n' then i + 1 else LineEnd(s, i + 1)
  }

  lemma {:induction false} LineEndAt(s: string, i: nat, e: nat)
    requires i < e <= |s|
    requires forall k :: i <= k < e - 1 ==> s[k] != '\n'
    requires s[e - 1] == '\n' || e == |s|
    ensures LineEnd(s, i) == e
    decreases e - i
  {
    if s[i] != '\n' && i + 1 < e {
      LineEndAt(s, i + 1, e);
    }
  }

  /** Python's `f.readlines()` on the text of a file: its lines, each keeping its newline. */
  function ReadLines(text: string): (lines: seq<string>)
    ensures Concat(lines) == text
    ensures WellSplit(lines)
    decreases |text|
  {
    if text == [] then []
    else
      var e := LineEnd(text, 0);
      [text[..e]] + ReadLines(text[e..])
  }

  /** `readlines()` recovers every list of lines it could have produced from their concatenation. */
  lemma {:induction false} ReadLinesOfConcat(lines: seq<string>)
    requires WellSplit(lines)
    ensures ReadLines(Concat(lines)) == lines
    decreases |lines|
  {
    if lines != [] {
      var text := Concat(lines);
      var l := lines[0];
      assert WellSplit(lines[1..]) by {
        forall k | 0 <= k < |lines[1..]| ensures IsLine(lines[1..][k]) {
          assert lines[1..][k] == lines[k + 1];
        }
        forall k | 0 <= k < |lines[1..]| - 1 ensures EndsWithNewline(lines[1..][k]) {
          assert lines[1..][k] == lines[k + 1];
        }
      }
      assert text == l + Concat(lines[1..]);
      assert IsLine(l);
      assert text[..|l|] == l;
      assert |lines| > 1 ==> EndsWithNewline(l);
      assert |lines| == 1 ==> Concat(lines[1..]) == [];
      LineEndAt(text, 0, |l|);
      assert text[|l|..] == Concat(lines[1..]);
      ReadLinesOfConcat(lines[1..]);
    }
  }

  predicate IsUpper(c: char) {
    'A' <= c <= 'Z'
  }

  /** Python's `str.lower()` on one character, for the ASCII letters. */
  function LowerChar(c: char): (d: char)
    ensures !IsUpper(d)
  {
    if IsUpper(c) then (c as int + 32) as char else c
  }

  /** Python's `str.lower()` on ASCII letters: every character lowered in place. */
  function Lower(s: string): (r: string)
    ensures |r| == |s|
    ensures forall i :: 0 <= i < |r| ==> r[i] == LowerChar(s[i]) && !IsUpper(r[i])
    decreases |s|
  {
    if s == [] then [] else [LowerChar(s[0])] + Lower(s[1..])
  }

  /** Python's `s.endswith(suffix)`. */
  predicate EndsWith(s: string, suffix: string) {
    |suffix| <= |s| && s[|s| - |suffix|..] == suffix
  }

  /** `t` occurs in `s` starting at position `i`. */
  predicate OccursAt(s: string, t: string, i: int) {
    0 <= i && i + |t| <= |s| && s[i..i + |t|] == t
  }

  /** Python's `t in s` on strings: `t` starts at some position of `s`. */
  predicate Contains(s: string, t: string) {
    exists i :: 0 <= i <= |s| && OccursAt(s, t, i)
  }

  /** A string shorter than `t` does not contain it. */
  lemma ContainsLength(s: string, t: string)
    requires |s| < |t|
    ensures !Contains(s, t)
  {
  }

  /** A string lacking some character of `t` does not contain `t`. */
  lemma MissingCharNotContains(s: string, t: string, c: char)
    requires c in t && c !in s
    ensures !Contains(s, t)
  {
    var j :| 0 <= j < |t| && t[j] == c;
    forall i | 0 <= i <= |s| ensures !OccursAt(s, t, i) {
      if i + |t| <= |s| {
        assert s[i..i + |t|][j] == s[i + j];
      }
    }
  }

  function Spaces(n: nat): (r: string)
    ensures |r| == n && AllSpace(r)
    ensures forall i :: 0 <= i < n ==> r[i] == ' '
  {
    seq(n, _ => ' ')
  }

  /** The format specification `>w` on a string: right-aligned in a field of width `w`. */
  function PadLeft(s: string, w: nat): (r: string)
    ensures |r| == if |s| < w then w else |s|
    ensures r[|r| - |s|..] == s && AllSpace(r[..|r| - |s|])
  {
    if |s| < w then Spaces(w - |s|) + s else s
  }

  /** The format specification `<w` on a string: left-aligned in a field of width `w`. */
  function PadRight(s: string, w: nat): (r: string)
    ensures |r| == if |s| < w then w else |s|
    ensures r[..|s|] == s && AllSpace(r[|s|..])
  {
    if |s| < w then s + Spaces(w - |s|) else s
  }

  /** A right-aligned field is white space followed by the text. */
  lemma PadLeftParts(s: string, w: nat) returns (lead: string)
    ensures AllSpace(lead) && '\n' !in lead && PadLeft(s, w) == lead + s
  {
    lead := if |s| < w then Spaces(w - |s|) else [];
  }

  /** A left-aligned field is the text followed by white space. */
  lemma PadRightParts(s: string, w: nat) returns (trail: string)
    ensures AllSpace(trail) && '\n' !in trail && PadRight(s, w) == s + trail
  {
    trail := if |s| < w then Spaces(w - |s|) else [];
  }

  /** Python's `s.replace(c, "")` for a single character `c`. */
  function RemoveAll(s: string, c: char): (r: string)
    ensures c !in r
    ensures |r| <= |s|
    decreases |s|
  {
    if s == [] then []
    else if s[0] == c then RemoveAll(s[1..], c)
    else [s[0]] + RemoveAll(s[1..], c)
  }

  lemma {:induction false} RemoveAllAppend(a: string, b: string, c: char)
    ensures RemoveAll(a + b, c) == RemoveAll(a, c) + RemoveAll(b, c)
    decreases |a|
  {
    if a == [] {
      assert a + b == b;
    } else {
      assert (a + b)[1..] == a[1..] + b;
      RemoveAllAppend(a[1..], b, c);
    }
  }

  /** Removing `c` leaves a string without `c` unchanged: only the occurrences of `c` go. */
  lemma {:induction false} RemoveAllAbsent(s: string, c: char)
    requires c !in s
    ensures RemoveAll(s, c) == s
    decreases |s|
  {
    if s != [] {
      assert c !in s[1..];
      RemoveAllAbsent(s[1..], c);
    }
  }
}
