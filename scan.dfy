/** The line scanner `filter_lines`: the numbered lines of one file for which
    the compiled pattern's search succeeds, each with its trailing whitespace
    removed. The file is seen through its line iterator: each pull yields the
    next decoded line (terminator still attached) or fails to decode. */
module Scan {
  import opened Text

  /** One pull from the text-mode line iterator of an open file. */
  datatype Read = Line(text: string) | DecodeError

  /** A reported line: its 1-based number and its text after `rstrip()`. */
  datatype Match = Match(number: nat, text: string)

  /** The lines the iterator delivers before the scan ends: everything up to
      the first decoding failure, or the whole file when none occurs. */
  function Decoded(pulls: seq<Read>): (lines: seq<string>)
    ensures |lines| <= |pulls|
    ensures forall i :: 0 <= i < |lines| ==> pulls[i] == Line(lines[i])
    ensures |lines| < |pulls| ==> pulls[|lines|] == DecodeError
  {
    if pulls == [] || pulls[0] == DecodeError then [] else [pulls[0].text] + Decoded(pulls[1..])
  }

  /** The matches among `lines`, in file order: line `n` is reported when the
      search succeeds on the raw line, and is reported stripped. */
  function Grep(lines: seq<string>, matches: string -> bool): seq<Match>
  {
    if lines == [] then []
    else
      var n := |lines|;
      Grep(lines[..n - 1], matches)
        + (if matches(lines[n - 1]) then [Match(n, RStrip(lines[n - 1]))] else [])
  }

  ghost predicate Increasing(ms: seq<Match>) {
    forall i, j :: 0 <= i < j < |ms| ==> ms[i].number < ms[j].number
  }

  /** Every reported number is a line number whose raw line matches, and the
      reported text is that line stripped. */
  ghost predicate Sound(r: seq<Match>, lines: seq<string>, matches: string -> bool) {
    forall m :: m in r ==>
      && 1 <= m.number <= |lines|
      && matches(lines[m.number - 1])
      && m.text == RStrip(lines[m.number - 1])
  }

  /** Every matching line is reported. */
  ghost predicate Complete(r: seq<Match>, lines: seq<string>, matches: string -> bool) {
    forall i :: 0 <= i < |lines| && matches(lines[i]) ==> Match(i + 1, RStrip(lines[i])) in r
  }

  /** What a correct report of `lines` is: exactly the matching lines, each
      with its stripped text, in strictly increasing line order. */
  ghost predicate Reports(r: seq<Match>, lines: seq<string>, matches: string -> bool) {
    Sound(r, lines, matches) && Complete(r, lines, matches) && Increasing(r)
  }

  /** Grep never reports a line that does not match, nor a number outside the
      file, and reports the stripped text. */
  lemma {:induction false} GrepSound(lines: seq<string>, matches: string -> bool)
    ensures Sound(Grep(lines, matches), lines, matches)
  {
    if lines != [] {
      var n := |lines|;
      var front := lines[..n - 1];
      GrepSound(front, matches);
      var r0 := Grep(front, matches);
      forall m | m in Grep(lines, matches)
        ensures 1 <= m.number <= n && matches(lines[m.number - 1])
        ensures m.text == RStrip(lines[m.number - 1])
      {
        if m in r0 {
          assert lines[m.number - 1] == front[m.number - 1];
        }
      }
    }
  }

  /** Grep reports every line on which the search succeeds. */
  lemma {:induction false} GrepComplete(lines: seq<string>, matches: string -> bool)
    ensures Complete(Grep(lines, matches), lines, matches)
  {
    if lines != [] {
      var n := |lines|;
      var front := lines[..n - 1];
      GrepComplete(front, matches);
      var r0 := Grep(front, matches);
      var r := Grep(lines, matches);
      forall i | 0 <= i < n && matches(lines[i])
        ensures Match(i + 1, RStrip(lines[i])) in r
      {
        if i < n - 1 {
          assert front[i] == lines[i];
          assert Match(i + 1, RStrip(front[i])) in r0;
        } else {
          assert r[|r| - 1] == Match(n, RStrip(lines[n - 1]));
        }
      }
    }
  }

  /** Grep reports lines in strictly increasing order of line number. */
  lemma {:induction false} GrepIncreasing(lines: seq<string>, matches: string -> bool)
    ensures Increasing(Grep(lines, matches))
  {
    if lines != [] {
      var n := |lines|;
      var front := lines[..n - 1];
      GrepIncreasing(front, matches);
      GrepSound(front, matches);
      var r0 := Grep(front, matches);
      var r := Grep(lines, matches);
      forall i, j | 0 <= i < j < |r|
        ensures r[i].number < r[j].number
      {
        if j >= |r0| {
          assert r[i] == r0[i];
          assert r0[i] in r0;
        }
      }
    }
  }

  /** Grep reports exactly the matching lines, in order. */
  lemma GrepReports(lines: seq<string>, matches: string -> bool)
    ensures Reports(Grep(lines, matches), lines, matches)
  {
    GrepSound(lines, matches);
    GrepComplete(lines, matches);
    GrepIncreasing(lines, matches);
  }

  /** Sequences of matches with increasing numbers and the same elements are
      equal. */
  lemma {:induction false} IncreasingUnique(a: seq<Match>, b: seq<Match>)
    requires Increasing(a) && Increasing(b)
    requires forall m :: m in a <==> m in b
    ensures a == b
  {
    assert b != [] ==> b[0] in b;
    if a != [] {
      assert a[0] in a;
      assert b != [];
      assert b[0] in b;
      assert a[0] == b[0];
      forall m
        ensures m in a[1..] <==> m in b[1..]
      {
        if m in a[1..] {
          var k :| 0 <= k < |a[1..]| && a[1..][k] == m;
          assert a[k + 1] == m && m in a && m in b;
          var l :| 0 <= l < |b| && b[l] == m;
          assert l != 0;
          assert b[1..][l - 1] == m;
        }
        if m in b[1..] {
          var k :| 0 <= k < |b[1..]| && b[1..][k] == m;
          assert b[k + 1] == m && m in b && m in a;
          var l :| 0 <= l < |a| && a[l] == m;
          assert l != 0;
          assert a[1..][l - 1] == m;
        }
      }
      IncreasingUnique(a[1..], b[1..]);
    }
  }

  /** The report of a file is unique: Reports characterises Grep. */
  lemma ReportsUnique(r: seq<Match>, lines: seq<string>, matches: string -> bool)
    requires Reports(r, lines, matches)
    ensures r == Grep(lines, matches)
  {
    var g := Grep(lines, matches);
    GrepReports(lines, matches);
    forall m
      ensures m in r <==> m in g
    {
      if m in r {
        assert Match(m.number - 1 + 1, RStrip(lines[m.number - 1])) in g;
      }
      if m in g {
        assert Match(m.number - 1 + 1, RStrip(lines[m.number - 1])) in r;
      }
    }
    IncreasingUnique(r, g);
  }

  /** `filter_lines`: walks the iterator with a running 1-based index, reports
      each line on which the search succeeds, stripped, and ends silently at
      the end of the file or at the first decoding failure. */
  method FilterLines(pulls: seq<Read>, matches: string -> bool) returns (result: seq<Match>)
    ensures result == Grep(Decoded(pulls), matches)
  {
    ghost var decoded := Decoded(pulls);
    result := [];
    var index := 0;
    while index < |pulls|
      invariant index <= |decoded|
      invariant result == Grep(decoded[..index], matches)
    {
      match pulls[index]
      case DecodeError =>
        break;
      case Line(line) =>
        assert decoded[..index + 1][..index] == decoded[..index];
        if matches(line) {
          result := result + [Match(index + 1, RStrip(line))];
        }
        index := index + 1;
    }
    assert decoded[..index] == decoded;
  }

  /** A decoding failure ends the scan without an error: the report is that
      of the lines decoded before it, whatever follows, exactly as if the file
      had ended there; a file whose first read fails reports nothing. */
  lemma DecodeErrorEndsScan(before: seq<Read>, after: seq<Read>, matches: string -> bool)
    requires forall i :: 0 <= i < |before| ==> before[i].Line?
    ensures Decoded(before + [DecodeError] + after) == Decoded(before)
    ensures |Decoded(before)| == |before|
    ensures Grep(Decoded([DecodeError] + after), matches) == []
  {
    var pulls := before + [DecodeError] + after;
    var d := Decoded(pulls);
    var e := Decoded(before);
    assert pulls[|before|] == DecodeError;
    forall i | 0 <= i < |before|
      ensures pulls[i] == before[i] && pulls[i].Line?
    {
    }
    assert |d| == |before|;
    assert |e| == |before|;
    forall i | 0 <= i < |d|
      ensures d[i] == e[i]
    {
      assert pulls[i] == before[i];
    }
  }
}
