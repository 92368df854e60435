/**
 Text as the ledger code reads and writes it: Python's str.strip(), the lines a
 file yields when it is read in universal-newlines mode, and the text produced by
 writing one identifier per line.
 */
module Text {

  /** The characters Python's str.isspace() accepts; str.strip() removes them from both ends. */
  predicate IsSpace(c: char) {
    || c == ' '
    || '\t' <= c <= '\r'
    || '\U{1C}' <= c <= '\U{1F}'
    || c == '\U{85}' || c == '\U{A0}' || c == '\U{1680}'
    || '\U{2000}' <= c <= '\U{200A}'
    || c == '\U{2028}' || c == '\U{2029}' || c == '\U{202F}' || c == '\U{205F}' || c == '\U{3000}'
  }

  /** Characters that end a line when a file is read in universal-newlines mode. */
  predicate IsLineBreak(c: char) {
    c == '\n' || c == '\r'
  }

  predicate NoLineBreak(s: string) {
    forall i :: 0 <= i < |s| ==> !IsLineBreak(s[i])
  }

  /** A text that is empty or ends a line: whatever is appended to it starts on a line of its own. */
  predicate Terminated(t: string) {
    t == "" || IsLineBreak(t[|t| - 1])
  }

  function Elems(xs: seq<string>): set<string> {
    set x | x in xs
  }

  predicate Distinct(xs: seq<string>) {
    forall i, j :: 0 <= i < j < |xs| ==> xs[i] != xs[j]
  }

  predicate SpaceBetween(s: string, lo: int, hi: int)
    requires 0 <= lo <= hi <= |s|
  {
    forall i :: lo <= i < hi ==> IsSpace(s[i])
  }

  /** Index of the first non-whitespace character of `s` at or after `i`, or |s| when there is none. */
  function SkipSpace(s: string, i: nat): (k: nat)
    requires i <= |s|
    ensures i <= k <= |s|
    ensures SpaceBetween(s, i, k)
    ensures k == |s| || !IsSpace(s[k])
    decreases |s| - i
  {
    if i < |s| && IsSpace(s[i]) then SkipSpace(s, i + 1) else i
  }

  /** Searching back from `j` to no further than `lo`: the index just past the last non-whitespace character. */
  function SkipSpaceBack(s: string, lo: nat, j: nat): (e: nat)
    requires lo <= j <= |s|
    ensures lo <= e <= j
    ensures SpaceBetween(s, e, j)
    ensures e == lo || !IsSpace(s[e - 1])
    decreases j
  {
    if j > lo && IsSpace(s[j - 1]) then SkipSpaceBack(s, lo, j - 1) else j
  }

  /** `r` sits at offset `k` of `s` and everything around it is whitespace. */
  predicate StrippedAt(s: string, k: int, r: string) {
    0 <= k <= |s| - |r| && s[k..k + |r|] == r && SpaceBetween(s, 0, k) && SpaceBetween(s, k + |r|, |s|)
  }

  /** Python's `s.strip()`: the slice of `s` left once whitespace is removed from both ends. */
  function Strip(s: string): (r: string)
    ensures r == "" || (!IsSpace(r[0]) && !IsSpace(r[|r| - 1]))
    ensures s == "" || (!IsSpace(s[0]) && !IsSpace(s[|s| - 1])) ==> r == s
    ensures NoLineBreak(s) ==> NoLineBreak(r)
  {
    var k := SkipSpace(s, 0);
    var e := SkipSpaceBack(s, k, |s|);
    assert StrippedAt(s, k, s[k..e]);
    s[k..e]
  }

  /** What strip() removes is whitespace, and what it keeps is one contiguous slice of the line. */
  lemma StripIsSlice(s: string)
    ensures exists k :: StrippedAt(s, k, Strip(s))
  {
    var k := SkipSpace(s, 0);
    var e := SkipSpaceBack(s, k, |s|);
    assert Strip(s) == s[k..e];
    assert StrippedAt(s, k, s[k..e]);
  }

  /**
   The pieces of a text between line breaks, as a file read in universal-newlines
   mode yields its lines with the terminators removed. Every '\n' or '\r' ends a
   piece, so "\r\n" produces an extra empty piece and a text ending in a break has
   an empty last piece; the ledger parser drops blank pieces, so neither changes
   what it reads.
   */
  function SplitLines(t: string): (ls: seq<string>)
    ensures |ls| >= 1
  {
    if |t| == 0 then [""]
    else
      var rest := SplitLines(t[1..]);
      if IsLineBreak(t[0]) then [""] + rest
      else [[t[0]] + rest[0]] + rest[1..]
  }

  /** No piece contains a line break. */
  lemma {:induction false} SplitLinesBreakFree(t: string)
    ensures forall i :: 0 <= i < |SplitLines(t)| ==> NoLineBreak(SplitLines(t)[i])
    decreases |t|
  {
    if |t| > 0 {
      SplitLinesBreakFree(t[1..]);
      var rest := SplitLines(t[1..]);
      if !IsLineBreak(t[0]) {
        assert NoLineBreak([t[0]] + rest[0]);
      }
    }
  }

  /** The text written by `for x in xs: f.write(f"{x}\n")`. */
  function WriteLines(xs: seq<string>): (t: string)
    ensures Terminated(t)
    ensures |xs| > 0 ==> t != ""
  {
    if |xs| == 0 then "" else xs[0] + "\n" + WriteLines(xs[1..])
  }

  /** A break-free line followed by "\n" is read back as exactly that line. */
  lemma {:induction false} SplitLinesAfterLine(x: string, rest: string)
    requires NoLineBreak(x)
    ensures SplitLines(x + "\n" + rest) == [x] + SplitLines(rest)
    decreases |x|
  {
    if |x| == 0 {
      assert (x + "\n" + rest)[1..] == rest;
    } else {
      var t := x + "\n" + rest;
      assert t[1..] == x[1..] + "\n" + rest;
      SplitLinesAfterLine(x[1..], rest);
      assert [x[0]] + x[1..] == x;
    }
  }

  /** A break-free text is a single line. */
  lemma {:induction false} SplitLinesOfLine(x: string)
    requires NoLineBreak(x)
    ensures SplitLines(x) == [x]
    decreases |x|
  {
    if |x| > 0 {
      SplitLinesOfLine(x[1..]);
      assert [x[0]] + x[1..] == x;
    }
  }

  lemma SeqConsAppend<T>(xs: seq<T>, ys: seq<T>)
    requires |xs| > 0
    ensures (xs + ys)[0] == xs[0] && (xs + ys)[1..] == xs[1..] + ys
    ensures [xs[0]] + (xs[1..] + ys) == xs + ys
  {
    assert xs == [xs[0]] + xs[1..];
  }

  /** Reading back what WriteLines wrote yields the written lines plus the empty piece after the last "\n". */
  lemma {:induction false} SplitWriteLines(xs: seq<string>)
    requires forall i :: 0 <= i < |xs| ==> NoLineBreak(xs[i])
    ensures SplitLines(WriteLines(xs)) == xs + [""]
    decreases |xs|
  {
    if |xs| > 0 {
      var rest := WriteLines(xs[1..]);
      SplitLinesAfterLine(xs[0], rest);
      SplitWriteLines(xs[1..]);
      calc {
        SplitLines(WriteLines(xs));
        SplitLines(xs[0] + "\n" + rest);
        [xs[0]] + SplitLines(rest);
        [xs[0]] + (xs[1..] + [""]);
        { SeqConsAppend(xs, [""]); }
        xs + [""];
      }
    }
  }

  /**
   Appending to a text that ends with a line break leaves its lines as they were
   and adds the lines of the appended text after them.
   */
  lemma {:induction false} SplitAppend(a: string, b: string)
    requires a != "" && Terminated(a)
    ensures |SplitLines(a)| >= 2 && SplitLines(a)[|SplitLines(a)| - 1] == ""
    ensures SplitLines(a + b) == SplitLines(a)[..|SplitLines(a)| - 1] + SplitLines(b)
    decreases |a|
  {
    if |a| == 1 {
      SplitAppendBreak(a, b);
    } else {
      SplitAppend(a[1..], b);
      SplitAppendStep(a, b);
    }
  }

  /** The base case of SplitAppend: a single line break. */
  lemma SplitAppendBreak(a: string, b: string)
    requires |a| == 1 && IsLineBreak(a[0])
    ensures SplitLines(a) == ["", ""]
    ensures SplitLines(a + b) == [""] + SplitLines(b)
  {
    assert a[1..] == "";
    assert (a + b)[0] == a[0];
    assert (a + b)[1..] == b;
  }

  /** The step of SplitAppend: one more character in front of `a[1..]`. */
  lemma SplitAppendStep(a: string, b: string)
    requires |a| >= 2
    requires |SplitLines(a[1..])| >= 2 && SplitLines(a[1..])[|SplitLines(a[1..])| - 1] == ""
    requires SplitLines(a[1..] + b) == SplitLines(a[1..])[..|SplitLines(a[1..])| - 1] + SplitLines(b)
    ensures |SplitLines(a)| >= 2 && SplitLines(a)[|SplitLines(a)| - 1] == ""
    ensures SplitLines(a + b) == SplitLines(a)[..|SplitLines(a)| - 1] + SplitLines(b)
  {
    if IsLineBreak(a[0]) {
      SplitAppendStepBreak(a, b);
    } else {
      SplitAppendStepChar(a, b);
    }
  }

  /** The step when `a` starts with a line break: an empty line goes in front. */
  lemma SplitAppendStepBreak(a: string, b: string)
    requires |a| >= 2 && IsLineBreak(a[0])
    requires |SplitLines(a[1..])| >= 2 && SplitLines(a[1..])[|SplitLines(a[1..])| - 1] == ""
    requires SplitLines(a[1..] + b) == SplitLines(a[1..])[..|SplitLines(a[1..])| - 1] + SplitLines(b)
    ensures |SplitLines(a)| >= 2 && SplitLines(a)[|SplitLines(a)| - 1] == ""
    ensures SplitLines(a + b) == SplitLines(a)[..|SplitLines(a)| - 1] + SplitLines(b)
  {
    SeqConsAppend(a, b);
    ConsPrefixAppend("", SplitLines(a[1..]), SplitLines(b));
  }

  /** The step when `a` starts with an ordinary character: it joins the first line. */
  lemma SplitAppendStepChar(a: string, b: string)
    requires |a| >= 2 && !IsLineBreak(a[0])
    requires |SplitLines(a[1..])| >= 2 && SplitLines(a[1..])[|SplitLines(a[1..])| - 1] == ""
    requires SplitLines(a[1..] + b) == SplitLines(a[1..])[..|SplitLines(a[1..])| - 1] + SplitLines(b)
    ensures |SplitLines(a)| >= 2 && SplitLines(a)[|SplitLines(a)| - 1] == ""
    ensures SplitLines(a + b) == SplitLines(a)[..|SplitLines(a)| - 1] + SplitLines(b)
  {
    SeqConsAppend(a, b);
    var la := SplitLines(a[1..]);
    var lb := SplitLines(b);
    var first := [a[0]] + la[0];
    TailOfPrefixAppend(la, lb);
    ConsPrefixAppend(first, la[1..], lb);
    assert la[1..][..|la| - 2] == la[1..|la| - 1];
  }

  lemma ConsPrefixAppend<T>(x: T, l: seq<T>, m: seq<T>)
    requires |l| >= 1
    ensures ([x] + l)[..|l|] + m == [x] + (l[..|l| - 1] + m)
  {
    assert ([x] + l)[..|l|] == [x] + l[..|l| - 1];
  }

  lemma TailOfPrefixAppend<T>(l: seq<T>, m: seq<T>)
    requires |l| >= 2
    ensures (l[..|l| - 1] + m)[0] == l[0]
    ensures (l[..|l| - 1] + m)[1..] == l[1..|l| - 1] + m
  {
  }

  lemma DropLast<T>(l: seq<T>)
    requires |l| >= 1
    ensures l == l[..|l| - 1] + [l[|l| - 1]]
  {
  }

  lemma PairOfSingletons<T>(x: T, y: T)
    ensures [x] + [y] == [x, y]
  {
  }
}
