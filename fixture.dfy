/** The files the test suite writes (`File.write_to_file` in the test
    helpers) and what the scanner and `main` make of them. */
module Fixture {
  import opened Text
  import opened Scan
  import opened Args
  import opened Cli

  /** The lines of a file of `maxLines` lines where line `n` (1-based) is
      `strMatch` when `n` is listed in `matchingLines`, and `strOther`
      otherwise; both strings carry their own "\n". */
  function FixtureLines(matchingLines: seq<int>, maxLines: nat, strMatch: string, strOther: string): (lines: seq<string>)
    ensures |lines| == maxLines
  {
    seq(maxLines, i requires 0 <= i < maxLines => if i + 1 in matchingLines then strMatch else strOther)
  }

  /** ASCII text with no line break of universal-newline reading ('\n' or
      '\r'). The fixture writes UTF-8 and the scanner reads with the
      platform's default encoding; for ASCII the two agree whenever that
      encoding is ASCII-compatible. */
  predicate IsLineText(s: string) {
    forall i :: 0 <= i < |s| ==> s[i] < '\U{80}' && s[i] != '\n' && s[i] != '\r'
  }

  /** A string that, written to a file, reads back as exactly one line: ASCII
      text without a line break, followed by "\n". */
  predicate IsWrittenLine(s: string) {
    && |s| >= 1
    && s[|s| - 1] == '\n'
    && forall i :: 0 <= i < |s| - 1 ==> s[i] < '\U{80}' && s[i] != '\n' && s[i] != '\r'
  }

  /** Reading back a file written as `lines`, each of them one ASCII line,
      under an ASCII-compatible default encoding: the line iterator splits the
      file where the strings were joined, and every pull decodes to the string
      written. */
  function FixturePulls(lines: seq<string>): (pulls: seq<Read>)
    requires forall i :: 0 <= i < |lines| ==> IsWrittenLine(lines[i])
    ensures |pulls| == |lines|
  {
    seq(|lines|, i requires 0 <= i < |lines| => Line(lines[i]))
  }

  /** A file that decodes completely delivers all its lines. */
  lemma DecodedFixture(lines: seq<string>)
    requires forall i :: 0 <= i < |lines| ==> IsWrittenLine(lines[i])
    ensures Decoded(FixturePulls(lines)) == lines
  {
    var pulls := FixturePulls(lines);
    var d := Decoded(pulls);
    assert |d| == |lines|;
  }

  ghost predicate StrictlyIncreasing(xs: seq<int>) {
    forall i, j :: 0 <= i < j < |xs| ==> xs[i] < xs[j]
  }

  /** Round trip with the fixture: when the pattern finds `strMatch` but not
      `strOther`, and the listed line numbers are sorted and lie in the file,
      the scan reports exactly the listed lines, each with `strMatch`
      stripped. An empty list gives an empty report. */
  lemma GrepFixture(matchingLines: seq<int>, maxLines: nat, strMatch: string, strOther: string,
                    matches: string -> bool)
    requires matches(strMatch) && !matches(strOther)
    requires StrictlyIncreasing(matchingLines)
    requires forall k :: 0 <= k < |matchingLines| ==> 1 <= matchingLines[k] <= maxLines
    ensures Grep(FixtureLines(matchingLines, maxLines, strMatch, strOther), matches)
         == seq(|matchingLines|, k requires 0 <= k < |matchingLines| => Match(matchingLines[k], RStrip(strMatch)))
  {
    var lines := FixtureLines(matchingLines, maxLines, strMatch, strOther);
    var expected := seq(|matchingLines|, k requires 0 <= k < |matchingLines| => Match(matchingLines[k], RStrip(strMatch)));
    forall m | m in expected
      ensures 1 <= m.number <= |lines| && matches(lines[m.number - 1])
      ensures m.text == RStrip(lines[m.number - 1])
    {
      var k :| 0 <= k < |expected| && expected[k] == m;
      assert m.number in matchingLines;
    }
    forall i | 0 <= i < |lines| && matches(lines[i])
      ensures Match(i + 1, RStrip(lines[i])) in expected
    {
      assert i + 1 in matchingLines;
      var k :| 0 <= k < |matchingLines| && matchingLines[k] == i + 1;
      assert expected[k] == Match(i + 1, RStrip(lines[i]));
    }
    assert Reports(expected, lines, matches);
    ReportsUnique(expected, lines, matches);
  }

  /** The first test of the scanner, for any one-line ASCII match text: matches written at
      lines 1, 2 and 5 of a 5-line file are reported as lines 1, 2 and 5, in
      that order, with the text stripped. The test itself writes
      "this will match\n" and "no match here\n". */
  lemma FilterMatchExample(text: string, strOther: string, matches: string -> bool)
    requires IsLineText(text) && IsWrittenLine(strOther)
    requires text == [] || !IsSpace(text[|text| - 1])
    requires matches(text + "\n") && !matches(strOther)
    ensures Grep(Decoded(FixturePulls(FixtureLines([1, 2, 5], 5, text + "\n", strOther))), matches)
         == [Match(1, text), Match(2, text), Match(5, text)]
  {
    ScanFixture([1, 2, 5], 5, text, strOther, matches);
  }

  /** A host on which `path` is a regular file with the given line iterator. */
  ghost predicate HostsFile(host: Host, path: string, pulls: seq<Read>) {
    host.pathExists(path) && host.isFile(path) && host.read(path) == pulls
  }

  /** The file-mode test of `main`, for any one-line ASCII match text: one match at line 4
      of a 10-line file prints exactly `{path} line=4: {text}`. The test
      itself writes "match\n" and "other\n". */
  lemma MainFileExample(path: string, host: Host, compile: string -> string -> bool,
                        text: string, strOther: string)
    requires IsLineText(text) && IsWrittenLine(strOther)
    requires text == [] || !IsSpace(text[|text| - 1])
    requires compile(text + "\n")(text + "\n") && !compile(text + "\n")(strOther)
    requires HostsFile(host, path, FixturePulls(FixtureLines([4], 10, text + "\n", strOther)))
    ensures MainOutput(["mygrep", path, text + "\n"], host, compile) == [path + " line=4: " + text]
  {
    var args := ["mygrep", path, text + "\n"];
    var matches := compile(text + "\n");
    var found := Grep(Decoded(host.read(path)), matches);
    assert MainOutput(args, host, compile) == FormatAll(path, found);
    assert found == [Match(4, text)] by {
      ScanFixture([4], 10, text, strOther, matches);
    }
    assert FormatAll(path, found) == [FormatMatch(path, Match(4, text))];
    assert FormatMatch(path, Match(4, text)) == path + " line=4: " + text by {
      assert NatToString(4) == "4";
      assert " line=" + "4" + ": " == " line=4: ";
    }
  }

  /** The binary-file test of `main`: a file whose first read fails to
      decode prints nothing, and no error. */
  lemma MainBinaryExample(path: string, host: Host, compile: string -> string -> bool)
    requires HostsFile(host, path, [DecodeError])
    ensures MainOutput(["mygrep", path, "char"], host, compile) == []
  {
  }

  /** The scan of a fixture file: reading it back and searching it reports
      the listed lines with `strMatch` stripped to `text`. */
  lemma ScanFixture(matchingLines: seq<int>, maxLines: nat, text: string, strOther: string,
                    matches: string -> bool)
    requires IsLineText(text) && IsWrittenLine(strOther)
    requires text == [] || !IsSpace(text[|text| - 1])
    requires matches(text + "\n") && !matches(strOther)
    requires StrictlyIncreasing(matchingLines)
    requires forall k :: 0 <= k < |matchingLines| ==> 1 <= matchingLines[k] <= maxLines
    ensures Grep(Decoded(FixturePulls(FixtureLines(matchingLines, maxLines, text + "\n", strOther))), matches)
         == seq(|matchingLines|, k requires 0 <= k < |matchingLines| => Match(matchingLines[k], text))
  {
    DecodedFixture(FixtureLines(matchingLines, maxLines, text + "\n", strOther));
    GrepFixture(matchingLines, maxLines, text + "\n", strOther, matches);
    RStripDropsTrailingSpace(text, "\n");
  }

  /** A line number below ten is printed as its one digit. */
  lemma FormatSingleDigit(path: string, n: nat, text: string)
    requires n < 10
    ensures FormatMatch(path, Match(n, text)) == path + " line=" + [DigitChar(n)] + ": " + text
  {
  }

  /** The walk entry for a regular file in the root written by the fixture. */
  function FixtureEntry(name: string, matchingLines: seq<int>, maxLines: nat, text: string, strOther: string): Entry
    requires IsLineText(text) && IsWrittenLine(strOther)
  {
    Entry(name, true, FixturePulls(FixtureLines(matchingLines, maxLines, text + "\n", strOther)))
  }

  /** The printed lines of matches at lines 2 and 5 of a file. */
  lemma FormatLines2And5(path: string, text: string)
    ensures FormatAll(path, [Match(2, text), Match(5, text)])
         == [path + " line=2: " + text, path + " line=5: " + text]
  {
    assert FormatMatch(path, Match(2, text)) == path + " line=2: " + text by {
      FormatSingleDigit(path, 2, text);
    }
    assert FormatMatch(path, Match(5, text)) == path + " line=5: " + text by {
      FormatSingleDigit(path, 5, text);
    }
  }

  /** What the walk prints for a regular file whose scan reports lines 2
      and 5. */
  lemma WalkLines2And5(e: Entry, text: string, matches: string -> bool)
    requires e.isFile
    requires Grep(Decoded(e.pulls), matches) == [Match(2, text), Match(5, text)]
    ensures WalkOutput([e], matches) == [e.relPath + " line=2: " + text, e.relPath + " line=5: " + text]
  {
    assert WalkOutput([e], matches) == FormatAll(e.relPath, Grep(Decoded(e.pulls), matches)) by {
      assert [e][..0] == [];
    }
    FormatLines2And5(e.relPath, text);
  }

  /** The printed prefixes of the two matches of `f1`, kept apart from the
      walk so that the solver unfolds the literals on their own. */
  lemma F1Prefixes()
    ensures "f1" + " line=2: " == "f1 line=2: "
    ensures "f1" + " line=5: " == "f1 line=5: "
  {
  }

  /** The walk of the directory test prints the matches of `f1` only: a
      regular file `f1` whose scan reports lines 2 and 5, then a regular file
      whose scan reports nothing. */
  lemma WalkF1F2(e1: Entry, e2: Entry, text: string, matches: string -> bool)
    requires e1.isFile && e1.relPath == "f1"
    requires Grep(Decoded(e1.pulls), matches) == [Match(2, text), Match(5, text)]
    requires e2.isFile && Grep(Decoded(e2.pulls), matches) == []
    ensures WalkOutput([e1, e2], matches) == ["f1 line=2: " + text, "f1 line=5: " + text]
  {
    assert WalkOutput([e1, e2], matches) == WalkOutput([e1], matches) + FormatAll(e2.relPath, []) by {
      assert [e1, e2][..1] == [e1];
    }
    WalkLines2And5(e1, text, matches);
    F1Prefixes();
  }

  /** The scan of a 10-line fixture file with the match string at lines 2
      and 5. */
  lemma ScanEntryLines2And5(name: string, text: string, strOther: string, matches: string -> bool)
    requires IsLineText(text) && IsWrittenLine(strOther)
    requires text == [] || !IsSpace(text[|text| - 1])
    requires matches(text + "\n") && !matches(strOther)
    ensures Grep(Decoded(FixtureEntry(name, [2, 5], 10, text, strOther).pulls), matches)
         == [Match(2, text), Match(5, text)]
  {
    ScanFixture([2, 5], 10, text, strOther, matches);
  }

  /** The scan of a 10-line fixture file without the match string. */
  lemma ScanEntryNoMatch(name: string, text: string, strOther: string, matches: string -> bool)
    requires IsLineText(text) && IsWrittenLine(strOther)
    requires text == [] || !IsSpace(text[|text| - 1])
    requires matches(text + "\n") && !matches(strOther)
    ensures Grep(Decoded(FixtureEntry(name, [], 10, text, strOther).pulls), matches) == []
  {
    ScanFixture([], 10, text, strOther, matches);
  }

  /** The directory test of `main`, for any one-line ASCII match text: files `f1`
      (matches at lines 2 and 5 of 10) and `f2` (no match) in the root print
      the two matches of `f1` under its root-relative name, and nothing for
      `f2`. The test itself writes "this is a match\n" and
      "this isn't a match\n". */
  lemma MainDirectoryExample(root: string, host: Host, compile: string -> string -> bool,
                             text: string, strOther: string)
    requires IsLineText(text) && IsWrittenLine(strOther)
    requires text == [] || !IsSpace(text[|text| - 1])
    requires compile(text + "\n")(text + "\n") && !compile(text + "\n")(strOther)
    requires host.pathExists(root) && !host.isFile(root)
    requires host.walk(root) == [
      FixtureEntry("f1", [2, 5], 10, text, strOther),
      FixtureEntry("f2", [], 10, text, strOther)]
    ensures MainOutput(["mygrep", root, text + "\n"], host, compile)
         == ["f1 line=2: " + text, "f1 line=5: " + text]
  {
    var matches := compile(text + "\n");
    var e1 := FixtureEntry("f1", [2, 5], 10, text, strOther);
    var e2 := FixtureEntry("f2", [], 10, text, strOther);
    ScanEntryLines2And5("f1", text, strOther, matches);
    ScanEntryNoMatch("f2", text, strOther, matches);
    WalkF1F2(e1, e2, text, matches);
  }
}
