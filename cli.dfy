/** The entry point `main`: parse the arguments, then print one line per
    match, either for the one file named or for every regular file under the
    directory named. Printing is modelled as the sequence of printed strings,
    one per `print` call. */
module Cli {
  import opened Text
  import opened Scan
  import opened Args

  /** One path produced by walking a directory: its path relative to the root
      of the walk, whether it is a regular file, and its line iterator. */
  datatype Entry = Entry(relPath: string, isFile: bool, pulls: seq<Read>)

  /** The filesystem queries `main` makes, as they answer during one run:
      existence, "is a regular file", the line iterator of a file, and the
      recursive listing of everything under a directory. */
  datatype Host = Host(
    pathExists: string -> bool,
    isFile: string -> bool,
    read: string -> seq<Read>,
    walk: string -> seq<Entry>)

  /** `f'{path} line={n}: {text}'`. */
  function FormatMatch(path: string, m: Match): string {
    path + " line=" + NatToString(m.number) + ": " + m.text
  }

  /** The printed lines for the matches of one file, in order. */
  function FormatAll(path: string, ms: seq<Match>): (out: seq<string>)
    ensures |out| == |ms|
    ensures forall k :: 0 <= k < |ms| ==> out[k] == FormatMatch(path, ms[k])
  {
    seq(|ms|, k requires 0 <= k < |ms| => FormatMatch(path, ms[k]))
  }

  /** The printed lines of a directory walk: every regular file, in walk
      order, contributes its matches under its root-relative path. */
  function WalkOutput(entries: seq<Entry>, matches: string -> bool): seq<string> {
    if entries == [] then []
    else
      var e := entries[|entries| - 1];
      WalkOutput(entries[..|entries| - 1], matches)
        + (if e.isFile then FormatAll(e.relPath, Grep(Decoded(e.pulls), matches)) else [])
  }

  /** Everything `main` prints for the argument vector `args`, when `compile`
      maps a pattern text to its search predicate. */
  function MainOutput(args: seq<string>, host: Host, compile: string -> string -> bool): seq<string> {
    match ParseArgs(args, host.pathExists)
    case Err(message) => [message]
    case Ok((path, regex)) =>
      if host.isFile(path) then FormatAll(path, Grep(Decoded(host.read(path)), compile(regex)))
      else WalkOutput(host.walk(path), compile(regex))
  }

  /** The inner loop of `main`: prints one line per match of one file, under
      the name that file is reported by. */
  method PrintMatches(path: string, found: seq<Match>) returns (out: seq<string>)
    ensures |out| == |found|
    ensures forall k :: 0 <= k < |found| ==> out[k] == FormatMatch(path, found[k])
  {
    out := [];
    for k := 0 to |found|
      invariant |out| == k
      invariant forall j :: 0 <= j < k ==> out[j] == FormatMatch(path, found[j])
    {
      out := out + [FormatMatch(path, found[k])];
    }
  }

  /** `main`: a user error prints its message and nothing else; a file prints
      its matches under the path as given; a directory prints the matches of
      each regular file under it, file by file. */
  method Run(args: seq<string>, host: Host, compile: string -> string -> bool) returns (out: seq<string>)
    ensures out == MainOutput(args, host, compile)
  {
    var parsed := ParseArgs(args, host.pathExists);
    if parsed.Err? {
      out := [parsed.message];
      return;
    }
    var (path, regex) := parsed.value;
    var matches := compile(regex);
    if host.isFile(path) {
      var found := FilterLines(host.read(path), matches);
      out := PrintMatches(path, found);
      return;
    }
    var entries := host.walk(path);
    out := [];
    for i := 0 to |entries|
      invariant out == WalkOutput(entries[..i], matches)
    {
      var entry := entries[i];
      assert entries[..i + 1][..i] == entries[..i];
      if entry.isFile {
        var found := FilterLines(entry.pulls, matches);
        var printed := PrintMatches(entry.relPath, found);
        out := out + printed;
      }
    }
    assert entries[..|entries|] == entries;
  }

  /** The number of matches in the regular files of a walk. */
  function TotalMatches(entries: seq<Entry>, matches: string -> bool): nat {
    if entries == [] then 0
    else
      var e := entries[|entries| - 1];
      TotalMatches(entries[..|entries| - 1], matches)
        + (if e.isFile then |Grep(Decoded(e.pulls), matches)| else 0)
  }

  /** A directory walk prints one line per match, summed over its regular
      files; directories and other non-files print nothing. */
  lemma {:induction false} WalkOutputCount(entries: seq<Entry>, matches: string -> bool)
    ensures |WalkOutput(entries, matches)| == TotalMatches(entries, matches)
  {
    if entries != [] {
      WalkOutputCount(entries[..|entries| - 1], matches);
    }
  }

  /** The lines printed for one file are the formatted matches of that file. */
  lemma FormatAllLines(path: string, ms: seq<Match>, line: string)
    ensures line in FormatAll(path, ms) <==> exists m :: m in ms && line == FormatMatch(path, m)
  {
    var out := FormatAll(path, ms);
    if line in out {
      var k :| 0 <= k < |out| && out[k] == line;
      assert ms[k] in ms;
    }
    if exists m :: m in ms && line == FormatMatch(path, m) {
      var m :| m in ms && line == FormatMatch(path, m);
      var k :| 0 <= k < |ms| && ms[k] == m;
      assert out[k] == line;
    }
  }

  /** `line` is the formatted form of a match of the regular file `entries[i]`. */
  ghost predicate PrintedFor(entries: seq<Entry>, i: int, matches: string -> bool, line: string)
    requires 0 <= i < |entries|
  {
    entries[i].isFile
    && exists m :: m in Grep(Decoded(entries[i].pulls), matches) && line == FormatMatch(entries[i].relPath, m)
  }

  /** A line is printed for a directory walk exactly when some regular file
      of the walk has a match that formats, under the file's root-relative
      path, to that line. */
  lemma {:induction false} WalkOutputLines(entries: seq<Entry>, matches: string -> bool, line: string)
    ensures line in WalkOutput(entries, matches) <==>
      (exists i :: 0 <= i < |entries| && PrintedFor(entries, i, matches, line))
  {
    if entries != [] {
      var n := |entries|;
      var front := entries[..n - 1];
      var e := entries[n - 1];
      WalkOutputLines(front, matches, line);
      var tail := if e.isFile then FormatAll(e.relPath, Grep(Decoded(e.pulls), matches)) else [];
      assert WalkOutput(entries, matches) == WalkOutput(front, matches) + tail;
      FormatAllLines(e.relPath, Grep(Decoded(e.pulls), matches), line);
      assert line in tail <==> PrintedFor(entries, n - 1, matches, line);
      forall i | 0 <= i < n - 1
        ensures PrintedFor(front, i, matches, line) <==> PrintedFor(entries, i, matches, line)
      {
        assert front[i] == entries[i];
      }
      if line in WalkOutput(entries, matches) && line !in tail {
        var i :| 0 <= i < |front| && PrintedFor(front, i, matches, line);
        assert PrintedFor(entries, i, matches, line);
      }
      if exists i :: 0 <= i < n && PrintedFor(entries, i, matches, line) {
        var i :| 0 <= i < n && PrintedFor(entries, i, matches, line);
        if i < n - 1 {
          assert PrintedFor(front, i, matches, line);
        }
      }
    }
  }

  /** A user error prints its message only. */
  lemma UserErrorOutput(args: seq<string>, host: Host, compile: string -> string -> bool)
    ensures |args| != 3 ==> MainOutput(args, host, compile) == [UsageMessage]
    ensures |args| == 3 && !host.pathExists(args[1]) ==>
      MainOutput(args, host, compile) == [MissingPathMessage(args[1])]
  {
  }

  /** `{path} line={n}: {text}` for raw line `n` of a file. */
  function LineFor(path: string, lines: seq<string>, i: nat): string
    requires i < |lines|
  {
    FormatMatch(path, Match(i + 1, RStrip(lines[i])))
  }

  /** Every line printed for a file comes from a matching raw line. */
  lemma FileReportSound(path: string, lines: seq<string>, matches: string -> bool, line: string)
    requires line in FormatAll(path, Grep(lines, matches))
    ensures exists i :: 0 <= i < |lines| && matches(lines[i]) && line == LineFor(path, lines, i)
  {
    GrepSound(lines, matches);
    FormatAllLines(path, Grep(lines, matches), line);
    var m :| m in Grep(lines, matches) && line == FormatMatch(path, m);
    var i := m.number - 1;
    assert m == Match(i + 1, RStrip(lines[i]));
    assert line == LineFor(path, lines, i);
  }

  /** Every matching raw line of a file is printed. */
  lemma FileReportComplete(path: string, lines: seq<string>, matches: string -> bool, i: nat)
    requires i < |lines| && matches(lines[i])
    ensures LineFor(path, lines, i) in FormatAll(path, Grep(lines, matches))
  {
    GrepComplete(lines, matches);
    var m := Match(i + 1, RStrip(lines[i]));
    assert m in Grep(lines, matches);
    FormatAllLines(path, Grep(lines, matches), FormatMatch(path, m));
  }

  /** No line is printed twice for one file. */
  lemma FileReportDistinct(path: string, lines: seq<string>, matches: string -> bool)
    ensures var out := FormatAll(path, Grep(lines, matches));
      forall j, k :: 0 <= j < k < |out| ==> out[j] != out[k]
  {
    var ms := Grep(lines, matches);
    var out := FormatAll(path, ms);
    GrepIncreasing(lines, matches);
    forall j, k | 0 <= j < k < |out|
      ensures out[j] != out[k]
    {
      if out[j] == out[k] {
        FormatMatchInjective(path, ms[j], ms[k]);
      }
    }
  }

  /** What `main` prints for a regular file, given its decoded lines: exactly
      the lines `{path} line={n}: {text}` where raw line `n` matches and
      `text` is that line stripped, none of them twice. */
  ghost predicate FileReport(out: seq<string>, path: string, lines: seq<string>, matches: string -> bool) {
    && (forall line :: line in out ==>
          (exists i :: 0 <= i < |lines| && matches(lines[i]) && line == LineFor(path, lines, i)))
    && (forall i :: 0 <= i < |lines| && matches(lines[i]) ==> LineFor(path, lines, i) in out)
    && (forall j, k :: 0 <= j < k < |out| ==> out[j] != out[k])
  }

  /** The formatted report of a file's matches is its FileReport. */
  lemma FileReportHolds(path: string, lines: seq<string>, matches: string -> bool)
    ensures FileReport(FormatAll(path, Grep(lines, matches)), path, lines, matches)
  {
    var out := FormatAll(path, Grep(lines, matches));
    forall line | line in out
      ensures exists i :: 0 <= i < |lines| && matches(lines[i]) && line == LineFor(path, lines, i)
    {
      FileReportSound(path, lines, matches, line);
    }
    forall i | 0 <= i < |lines| && matches(lines[i])
      ensures LineFor(path, lines, i) in out
    {
      FileReportComplete(path, lines, matches, i);
    }
    FileReportDistinct(path, lines, matches);
  }

  /** For a path naming a regular file, `main` prints that file's report
      under the path as given, searching with the compiled pattern argument. */
  lemma FileModeOutput(args: seq<string>, host: Host, compile: string -> string -> bool)
    requires |args| == 3 && host.pathExists(args[1]) && host.isFile(args[1])
    ensures FileReport(MainOutput(args, host, compile), args[1], Decoded(host.read(args[1])), compile(args[2]))
  {
    FileReportHolds(args[1], Decoded(host.read(args[1])), compile(args[2]));
  }

  /** Two matches print differently when their numbers differ: the number is
      the run of digits between " line=" and the ": " that follows it. */
  lemma FormatMatchInjective(path: string, a: Match, b: Match)
    requires FormatMatch(path, a) == FormatMatch(path, b)
    ensures a.number == b.number
  {
    var prefix := path + " line=";
    var sa := NatToString(a.number);
    var sb := NatToString(b.number);
    var f := FormatMatch(path, a);
    assert f == prefix + sa + ": " + a.text;
    assert f == prefix + sb + ": " + b.text;
    var i0 := |prefix|;
    assert f[i0 + |sa|] == ':' && f[i0 + |sb|] == ':';
    assert forall j :: i0 <= j < i0 + |sa| ==> f[j] == sa[j - i0];
    assert forall j :: i0 <= j < i0 + |sb| ==> f[j] == sb[j - i0];
    assert |sa| == |sb|;
    assert sa == f[|prefix|..|prefix| + |sa|];
    assert sb == f[|prefix|..|prefix| + |sb|];
    NatToStringInjective(a.number, b.number);
  }
}
