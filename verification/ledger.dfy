/**
 The line-oriented identifier files of config_env.py: links files (identifiers
 that were requested) and DB ledger files (identifiers already downloaded). Both
 start with the header line `video_id`. The disk is a map from path to the
 text of the file.
 */
module Ledger {
  import opened Text
  import opened Names

  /** The header line every links and ledger file starts with. */
  const Header: string := "video_id"

  /** What `_create_file` writes into a new `.csv` file. */
  const HeaderFile: string := Header + "\n"

  /** A path relative to the working directory: a folder ("" for the working directory itself) and a file name. */
  datatype FilePath = FilePath(dir: string, name: string)

  /** The text files the dedup logic reads and writes. */
  type Disk = map<FilePath, string>

  /** What the parser can yield: a non-blank, whitespace-trimmed, single-line string other than the header. */
  predicate IsId(x: string) {
    x != "" && x != Header && Strip(x) == x && NoLineBreak(x)
  }

  /** The identifier a single line contributes: the stripped line, unless it is blank or the header. */
  function LineIds(line: string): set<string> {
    var s := Strip(line);
    if s == "" || s == Header then {} else {s}
  }

  /** The set comprehension `set(line.strip() for line in f if line.strip() and line.strip() != "video_id")`. */
  function ParseLines(ls: seq<string>): set<string> {
    if |ls| == 0 then {} else LineIds(ls[0]) + ParseLines(ls[1..])
  }

  /**
   Every stripped non-blank line other than the header is kept, and every kept
   string is trimmed, non-blank and not the header (ParseLinesFromLines adds
   that it is the stripped form of one of the lines).
   */
  lemma {:induction false} ParseLinesShape(ls: seq<string>)
    ensures forall x :: x in ParseLines(ls) ==> x != "" && x != Header && Strip(x) == x
    ensures forall i :: 0 <= i < |ls| && Strip(ls[i]) != "" && Strip(ls[i]) != Header ==> Strip(ls[i]) in ParseLines(ls)
    ensures (forall i :: 0 <= i < |ls| ==> NoLineBreak(ls[i])) ==> forall x :: x in ParseLines(ls) ==> NoLineBreak(x)
    decreases |ls|
  {
    if |ls| > 0 {
      ParseLinesShape(ls[1..]);
      assert forall i :: 1 <= i < |ls| ==> ls[i] == ls[1..][i - 1];
    }
  }

  /** Every parsed identifier is the stripped form of one of the lines. */
  lemma {:induction false} ParseLinesFromLines(ls: seq<string>)
    ensures forall x :: x in ParseLines(ls) ==> exists i :: 0 <= i < |ls| && x == Strip(ls[i])
    decreases |ls|
  {
    if |ls| > 0 {
      ParseLinesFromLines(ls[1..]);
      forall x | x in ParseLines(ls)
        ensures exists i :: 0 <= i < |ls| && x == Strip(ls[i])
      {
        assert ParseLines(ls) == LineIds(ls[0]) + ParseLines(ls[1..]);
        if x in LineIds(ls[0]) {
          assert x == Strip(ls[0]);
        } else {
          assert x in ParseLines(ls[1..]);
          var j :| 0 <= j < |ls[1..]| && x == Strip(ls[1..][j]);
          assert ls[1..][j] == ls[j + 1];
        }
      }
    }
  }

  /** The identifiers a links or ledger file holds. */
  function ParseIds(t: string): (ids: set<string>)
    ensures forall x :: x in ids ==> IsId(x)
    ensures Header !in ids
  {
    ParseLinesShape(SplitLines(t));
    SplitLinesBreakFree(t);
    ParseLines(SplitLines(t))
  }

  /** The parser invents nothing: every identifier of a file is the stripped form of one of its lines. */
  lemma ParseIdsFromLines(t: string)
    ensures forall x :: x in ParseIds(t) ==> exists i :: 0 <= i < |SplitLines(t)| && x == Strip(SplitLines(t)[i])
  {
    assert ParseIds(t) == ParseLines(SplitLines(t));
    var ls := SplitLines(t);
    ParseLinesFromLines(ls);
    assert forall x :: x in ParseLines(ls) ==> exists i :: 0 <= i < |ls| && x == Strip(ls[i]);
  }

  /** A line whose stripped form is an identifier is parsed as that identifier. */
  lemma LineIdsOfId(x: string)
    requires IsId(x)
    ensures LineIds(x) == {x}
  {
  }

  lemma {:induction false} ParseLinesAppend(a: seq<string>, b: seq<string>)
    ensures ParseLines(a + b) == ParseLines(a) + ParseLines(b)
    decreases |a|
  {
    if |a| > 0 {
      assert (a + b)[0] == a[0];
      assert (a + b)[1..] == a[1..] + b;
      ParseLinesAppend(a[1..], b);
      assert ParseLines(a + b) == LineIds(a[0]) + ParseLines(a[1..] + b);
    } else {
      assert a + b == b;
    }
  }

  /** A list of identifiers parses back to exactly its elements. */
  lemma {:induction false} ParseLinesOfIds(xs: seq<string>)
    requires forall i :: 0 <= i < |xs| ==> IsId(xs[i])
    ensures ParseLines(xs) == Elems(xs)
    decreases |xs|
  {
    if |xs| > 0 {
      ParseLinesOfIds(xs[1..]);
      LineIdsOfId(xs[0]);
      assert Elems(xs) == {xs[0]} + Elems(xs[1..]) by {
        assert xs == [xs[0]] + xs[1..];
      }
    }
  }

  /** Round trip: writing identifiers one per line and parsing the text gives back exactly those identifiers. */
  lemma ParseWriteLines(xs: seq<string>)
    requires forall i :: 0 <= i < |xs| ==> IsId(xs[i])
    ensures ParseIds(WriteLines(xs)) == Elems(xs)
  {
    SplitWriteLines(xs);
    ParseLinesAppend(xs, [""]);
    ParseLinesOfIds(xs);
    EmptyLineIsBlank();
  }

  /**
   Appending to a file that is empty or ends with a line break adds the appended
   identifiers and loses none. (When the old text does not end with a line break,
   its last line and the first appended line merge; see UnterminatedAppendMerges.)
   */
  lemma ParseIdsAppend(a: string, b: string)
    requires Terminated(a)
    ensures ParseIds(a + b) == ParseIds(a) + ParseIds(b)
  {
    EmptyLineIsBlank();
    if a == "" {
      assert a + b == b;
    } else {
      var la := SplitLines(a);
      var init := la[..|la| - 1];
      SplitAppend(a, b);
      ParseLinesAppend(init, SplitLines(b));
      ParseLinesAppend(init, [""]);
      DropLast(la);
    }
  }

  lemma EmptyLineIsBlank()
    ensures ParseLines([""]) == {}
  {
    assert Strip("") == "";
    assert ParseLines([""]) == LineIds("") + ParseLines([]);
  }

  /** A new links or ledger file holds the header line alone, which parses to no identifiers. */
  lemma HeaderFileIsEmpty()
    ensures SplitLines(HeaderFile) == [Header, ""]
    ensures ParseIds(HeaderFile) == {}
    ensures Terminated(HeaderFile)
  {
    assert NoLineBreak(Header);
    SplitLinesAfterLine(Header, "");
    assert HeaderFile == Header + "\n" + "";
    HeaderLineIsBlank();
    EmptyLineIsBlank();
    ParseLinesAppend([Header], [""]);
  }

  /** A header followed by identifiers one per line parses to exactly those identifiers. */
  lemma HeaderedIds(xs: seq<string>)
    requires forall i :: 0 <= i < |xs| ==> IsId(xs[i])
    ensures ParseIds(HeaderFile + WriteLines(xs)) == Elems(xs)
  {
    HeaderFileIsEmpty();
    ParseIdsAppend(HeaderFile, WriteLines(xs));
    ParseWriteLines(xs);
  }

  /** A file that holds no identifiers and to which appended lines start on a line of their own. */
  predicate IsBlankFile(t: string) {
    ParseIds(t) == {} && Terminated(t)
  }

  /** A file created by `touch` alone holds no identifiers. */
  lemma EmptyFileIsEmpty()
    ensures ParseIds("") == {}
  {
    assert SplitLines("") == [""];
    EmptyLineIsBlank();
  }

  /** What `_create_file` leaves in a file it creates: the header for a `.csv` name, nothing otherwise. */
  function NewFileText(p: FilePath): string {
    if Suffix(p.name) == ".csv" then HeaderFile else ""
  }

  /**
   A file `_create_file` has just created holds no identifiers and ends a line;
   a new `.csv` file reads back as exactly the header line.
   */
  lemma NewFileIsBlank(p: FilePath)
    ensures IsBlankFile(NewFileText(p))
    ensures Suffix(p.name) == ".csv" ==> SplitLines(NewFileText(p)) == [Header, ""]
  {
    HeaderFileIsEmpty();
    EmptyFileIsEmpty();
  }

  /**
   `_create_file`: a path that exists is left alone; a missing one is created
   empty (`touch`) and, when its suffix is `.csv`, given the header line.
   */
  function CreateFile(d: Disk, p: FilePath): (r: Disk)
    ensures r.Keys == d.Keys + {p}
    ensures forall q :: q in d ==> r[q] == d[q]
    ensures p !in d ==> r[p] == NewFileText(p)
  {
    if p in d then d else d[p := NewFileText(p)]
  }

  /** Creating a file twice is the same as creating it once. */
  lemma CreateFileIdempotent(d: Disk, p: FilePath)
    ensures CreateFile(CreateFile(d, p), p) == CreateFile(d, p)
  {
  }

  /**
   Counterexample to the union property when the ledger does not end with a line
   break: the old last line and the first appended identifier merge into one, so
   the ledger loses "a" and never records "b".
   */
  lemma UnterminatedAppendMerges()
    ensures ParseIds("video_id\na") == {"a"}
    ensures ParseIds("video_id\na" + "b\n") == {"ab"}
  {
    LedgerBeforeMerge();
    LedgerAfterMerge();
  }

  lemma LedgerBeforeMerge()
    ensures ParseIds("video_id\na") == {"a"}
  {
    assert Strip("a") == "a";
    LedgerOfOneLine("a", "");
    assert "video_id\na" == Header + "\n" + "a" + "";
  }

  lemma LedgerAfterMerge()
    ensures ParseIds("video_id\na" + "b\n") == {"ab"}
  {
    MergedIsId();
    LedgerOfOneLine("ab", "\n");
    MergedText();
  }

  lemma MergedIsId()
    ensures IsId("ab")
  {
    assert Strip("ab") == "ab";
  }

  lemma MergedText()
    ensures "video_id\na" + "b\n" == Header + "\n" + "ab" + "\n"
  {
    var t := "video_id\nab\n";
    assert "video_id\na" + "b\n" == t;
    assert Header + "\n" + "ab" + "\n" == t;
  }

  /** A ledger whose header is followed by the single line `x`, with or without a final line break. */
  lemma LedgerOfOneLine(x: string, tail: string)
    requires IsId(x) && (tail == "" || tail == "\n")
    ensures ParseIds(Header + "\n" + x + tail) == {x}
  {
    var t := Header + "\n" + x + tail;
    assert NoLineBreak(Header);
    assert t == Header + "\n" + (x + tail);
    SplitLinesAfterLine(Header, x + tail);
    var rest := SplitLines(x + tail);
    if tail == "" {
      assert x + tail == x;
      SplitLinesOfLine(x);
    } else {
      assert x + tail == x + "\n" + "";
      SplitLinesAfterLine(x, "");
      ParseLinesAppend([x], [""]);
      EmptyLineIsBlank();
    }
    ParseLinesAppend([Header], rest);
    HeaderLineIsBlank();
    SingleIdLine(x);
  }

  lemma HeaderLineIsBlank()
    ensures ParseLines([Header]) == {}
  {
    assert Strip(Header) == Header;
    assert ParseLines([Header]) == LineIds(Header) + ParseLines([]);
  }

  lemma SingleIdLine(x: string)
    requires IsId(x)
    ensures ParseLines([x]) == {x}
  {
    LineIdsOfId(x);
    assert ParseLines([x]) == LineIds(x) + ParseLines([]);
  }
}
