/**
 File-name arithmetic config_env.py relies on: Python's str.replace and the
 suffix/stem rules of pathlib's PurePath (as in Python 3.12 and 3.13), applied to
 a single path component.
 */
module Names {
  import opened Text

  predicate DotFree(s: string) {
    forall i :: 0 <= i < |s| ==> s[i] != '.'
  }

  /** Python's `s.rfind('.')`: the index of the last dot, or -1 when there is none. */
  function LastDot(s: string): (i: int)
    ensures -1 <= i < |s|
    ensures 0 <= i ==> s[i] == '.'
    ensures forall j :: i < j < |s| ==> s[j] != '.'
  {
    if |s| == 0 then -1
    else if s[|s| - 1] == '.' then |s| - 1
    else LastDot(s[..|s| - 1])
  }

  /**
   PurePath.suffix of a name: from its last dot on, provided that dot is neither
   the first nor the last character; otherwise the empty string.
   */
  function Suffix(name: string): (r: string)
    ensures r == "" || (2 <= |r| < |name| && r[0] == '.' && r == name[|name| - |r|..] && DotFree(r[1..]))
  {
    var i := LastDot(name);
    if 0 < i < |name| - 1 then name[i..] else ""
  }

  /** PurePath.stem of a name: the name without its suffix. */
  function Stem(name: string): (r: string)
    ensures name == r + Suffix(name)
  {
    var i := LastDot(name);
    if 0 < i < |name| - 1 then name[..i] else name
  }

  /** The name PurePath.with_suffix(suffix) gives a path whose last component is `name` (non-empty). */
  function WithSuffix(name: string, suffix: string): (r: string)
    ensures Suffix(name) == "" ==> r == name + suffix
  {
    Stem(name) + suffix
  }

  /**
   Python's `s.replace(pattern, replacement)`: scanning left to right, every
   occurrence of `pattern` that does not overlap an earlier replaced one is
   replaced.
   */
  function Replace(s: string, pattern: string, replacement: string): string
    requires |pattern| > 0
    decreases |s|
  {
    if |s| < |pattern| then s
    else if s[..|pattern|] == pattern then replacement + Replace(s[|pattern|..], pattern, replacement)
    else [s[0]] + Replace(s[1..], pattern, replacement)
  }

  /** A name made of a non-empty `base` and a one-dot extension splits back into exactly those two parts. */
  lemma SplitExtension(base: string, ext: string)
    requires |base| > 0 && |ext| >= 2 && ext[0] == '.' && DotFree(ext[1..])
    ensures LastDot(base + ext) == |base|
    ensures Suffix(base + ext) == ext && Stem(base + ext) == base
  {
    var s := base + ext;
    var i := LastDot(s);
    assert s[|base|] == '.';
    assert s[|base|..] == ext;
  }

  /** A name without dots has no suffix: its stem is the whole name. */
  lemma DotFreeHasNoSuffix(name: string)
    requires DotFree(name)
    ensures LastDot(name) == -1 && Suffix(name) == "" && Stem(name) == name
  {
  }

  /** Replacing a pattern that starts with a dot leaves a dot-free string as it is. */
  lemma {:induction false} ReplaceInDotFree(s: string, pattern: string, replacement: string)
    requires |pattern| > 0 && pattern[0] == '.' && DotFree(s)
    ensures Replace(s, pattern, replacement) == s
    decreases |s|
  {
    if |s| >= |pattern| {
      assert s[..|pattern|][0] == s[0] != '.';
      ReplaceInDotFree(s[1..], pattern, replacement);
      assert [s[0]] + s[1..] == s;
    }
  }

  /** In `base + ext` with a dot-free base, the only occurrence of the extension is the final one. */
  lemma {:induction false} ReplaceExtension(base: string, ext: string, replacement: string)
    requires |ext| > 0 && ext[0] == '.' && DotFree(base)
    ensures Replace(base + ext, ext, replacement) == base + replacement
    decreases |base|
  {
    if |base| == 0 {
      assert base + ext == ext && ext[..|ext|] == ext;
      assert ext[|ext|..] == "";
    } else {
      ReplaceExtension(base[1..], ext, replacement);
      ReplaceExtensionStep(base, ext, replacement);
    }
  }

  /** The first character of a dot-free base is copied, and the rest of `base + ext` is replaced on its own. */
  lemma ReplaceExtensionStep(base: string, ext: string, replacement: string)
    requires |ext| > 0 && ext[0] == '.' && |base| > 0 && base[0] != '.'
    requires Replace(base[1..] + ext, ext, replacement) == base[1..] + replacement
    ensures Replace(base + ext, ext, replacement) == base + replacement
  {
    SeqConsAppend(base, ext);
    assert (base + ext)[..|ext|][0] == base[0];
    ReplaceSkip(base + ext, ext, replacement);
    SeqConsAppend(base, replacement);
  }

  /** A string that does not start with the pattern keeps its first character and is replaced from the next one on. */
  lemma ReplaceSkip(s: string, pattern: string, replacement: string)
    requires |pattern| > 0 && |s| >= |pattern| && s[..|pattern|] != pattern
    ensures Replace(s, pattern, replacement) == [s[0]] + Replace(s[1..], pattern, replacement)
  {
  }

  /** The pattern occurs in `s` at index `i`. */
  predicate OccursAt(s: string, pattern: string, i: int) {
    0 <= i && i + |pattern| <= |s| && s[i..i + |pattern|] == pattern
  }

  /** `str.replace` leaves a string in which the pattern does not occur unchanged. */
  lemma {:induction false} ReplaceNoOccurrence(s: string, pattern: string, replacement: string)
    requires |pattern| > 0
    requires forall i :: 0 <= i <= |s| - |pattern| ==> !OccursAt(s, pattern, i)
    ensures Replace(s, pattern, replacement) == s
    decreases |s|
  {
    if |s| >= |pattern| {
      assert !OccursAt(s, pattern, 0);
      assert s[0..|pattern|] == s[..|pattern|];
      forall i | 0 <= i <= |s[1..]| - |pattern|
        ensures !OccursAt(s[1..], pattern, i)
      {
        assert !OccursAt(s, pattern, i + 1);
        assert s[1..][i..i + |pattern|] == s[i + 1..i + 1 + |pattern|];
      }
      ReplaceNoOccurrence(s[1..], pattern, replacement);
      ReplaceSkip(s, pattern, replacement);
      assert [s[0]] + s[1..] == s;
    }
  }
}
