# mygrep in Dafny

A model of `mygrep`, a minimal recursive `grep`: `myapp <path> <pattern>`
prints `{path} line={n}: {text}` for every line of the file at `path` (or,
for a directory, of every regular file below it, named relative to it) on
which the regular expression `pattern` is found. The project models the
application logic in `myapp/app.py`:

- `text.dfy`, module `Text`: Python's `str.rstrip()` (every trailing
  whitespace character in the sense of `str.isspace()`, not only the line
  terminator) and the decimal rendering of a line number in an f-string.
- `scan.dfy`, module `Scan`: the generator `filter_lines`. The open file is
  seen through its line iterator, a sequence of pulls that each give a
  decoded line (terminator still attached) or a decoding failure. `Decoded`
  is the prefix of lines delivered before the first failure. `Grep` is the
  specification of the report, and `FilterLines` is the loop, proved equal to
  it. The search predicate is applied to the raw, unstripped line, and the
  reported text is the stripped line.
- `args.dfy`, module `Args`: `parse_args` and the messages of
  `UserException`, with the error path as a `Result`.
- `cli.dfy`, module `Cli`: `main`, as the method `Run` with the nested loops
  of the source. It returns the sequence of printed strings and is proved
  equal to the specification `MainOutput`. The filesystem queries (`exists`,
  `is_file`, opening a file, the recursive directory listing with each
  entry's root-relative path) are the fields of a `Host` value. Compiling the
  pattern is a parameter `compile` that maps the pattern text to its search
  predicate.
- `fixture.dfy`, module `Fixture`: the files the test suite writes
  (`File.write_to_file`), the round trip between them and the scanner, and
  the test scenarios stated as lemmas, for any ASCII match text without a
  line break (the tests use `this will match`, `match` and
  `this is a match`). Every string the fixture writes is required to read
  back as exactly one line, unchanged. It is ASCII, ends in `"\n"` and holds
  no other `'\n'` or `'\r'`. The fixture writes UTF-8
  (`tests/conftest.py:43`) and the scanner reads with the platform's default
  encoding (`myapp/app.py:17`), so the two agree on ASCII text whenever that
  encoding is ASCII-compatible.

Three behaviours of the code shape the model:
- The pattern is searched in the raw line, terminator included
  (`myapp/app.py:21`), so a pattern ending in `"\n"` can match, as the tests
  rely on.
- The reported text is `line.rstrip()` (`myapp/app.py:22`), which removes all
  trailing whitespace, not just the terminator.
- A decoding failure ends the scan silently (`myapp/app.py:24-25`). The
  matches the generator has already yielded stay printed.

## Model

| member | source | states |
|---|---|---|
| Text.IsSpace | myapp/app.py:22 | defines the characters `rstrip()` removes: those for which `str.isspace()` holds (TAB to CR, the information separators U+001C to U+001F, SPACE, U+0085, U+00A0, U+1680, U+2000 to U+200A, U+2028, U+2029, U+202F, U+205F, U+3000) |
| Text.RStrip | myapp/app.py:22 | `line.rstrip()` is a prefix of the line, does not end in whitespace, and only whitespace was removed |
| Text.RStripUnique | myapp/app.py:22 | those three properties determine the stripped text uniquely |
| Text.RStripIdempotent | myapp/app.py:22 | stripping a stripped line changes nothing |
| Text.RStripDropsTrailingSpace | myapp/app.py:22 | text followed by any run of whitespace, e.g. `'match\n'`, strips back to the text, e.g. `'match'` |
| Text.NatToString | myapp/app.py:61 | the rendered line number is a non-empty string of decimal digits with a leading zero only for 0 |
| Text.DecimalValueOfNatToString | myapp/app.py:61 | reading the rendered line number back as decimal gives the number |
| Text.NatToStringInjective | myapp/app.py:61 | different line numbers render differently |
| Scan.Decoded | myapp/app.py:16-25 | the lines delivered are exactly the pulls before the first decoding failure, or all of them when none fails |
| Scan.Grep | myapp/app.py:20-22 | defines the report of a file's lines: line n (1-based) appears as `Match(n, rstripped line)` exactly when the search succeeds on the raw line, in file order |
| Scan.GrepSound | myapp/app.py:20-22 | every reported number is in 1..(lines read), its raw line (newline included) matches, and its text is that line stripped |
| Scan.GrepComplete | myapp/app.py:20-22 | every line whose raw text matches is reported, with its 1-based number and stripped text |
| Scan.GrepIncreasing | myapp/app.py:20-22 | reported line numbers strictly increase |
| Scan.GrepReports | myapp/app.py:20-22 | the report is sound, complete and in increasing order |
| Scan.ReportsUnique | myapp/app.py:20-22 | any sound, complete, increasing report equals Grep's, so those properties define the output |
| Scan.FilterLines | myapp/app.py:6-25 | the generator loop yields exactly Grep of the lines decoded before the scan ends |
| Scan.DecodeErrorEndsScan | myapp/app.py:16-25 | a decoding failure ends the scan silently: the report is that of the lines before it, nothing after it counts, and a failure on the first read reports nothing |
| Args.UsageMessage | myapp/app.py:38-40 | defines the message for a wrong argument count: `Incorrect arguments`, a newline, then `Please, run 'myapp [path] [substring]'` |
| Args.MissingPathMessage | myapp/app.py:46 | `"path {path} doesn't exists"` holds the path at offset 5 |
| Args.ParseArgs | myapp/app.py:32-48 | succeeds iff there are exactly 3 arguments and the path exists, returning (args[1], args[2]) unchanged; otherwise fails with the usage message when the count is not 3, else with the missing-path message |
| Args.UserErrorsDistinct | myapp/app.py:37-46 | the usage message never equals a missing-path message, and different paths give different messages |
| Cli.FormatMatch | myapp/app.py:61 | defines one printed line, `{path} line={n}: {text}`, with n in decimal; the directory branch (`myapp/app.py:70`) uses it with the root-relative path |
| Cli.FormatAllLines | myapp/app.py:60-61 | a line is printed for a file iff it formats one of the file's matches |
| Cli.PrintMatches | myapp/app.py:68-71 | the inner print loop emits, in order, exactly one `{path} line={n}: {text}` per match |
| Cli.WalkOutput | myapp/app.py:66-71 | defines what the directory branch prints: the formatted matches of every regular file of the walk, in walk order, under its root-relative path; other entries print nothing |
| Cli.MainOutput | myapp/app.py:51-71 | defines everything `main` prints: the user error's message alone, or the formatted matches of the file named, or the directory walk's output |
| Cli.Run | myapp/app.py:51-71 | `main` prints exactly MainOutput: the error message alone, or the file's matches under the given path, or every regular file's matches under its root-relative path, in walk order |
| Cli.UserErrorOutput | myapp/app.py:52-56 | a wrong argument count prints only the usage message, and a missing path prints only the missing-path message |
| Cli.FileReportSound | myapp/app.py:59-61 | every line printed for a file is `{path} line={n}: {text}` for a raw line n that matches, with text that line stripped |
| Cli.FileReportComplete | myapp/app.py:59-61 | every matching raw line of the file is printed |
| Cli.FileReportDistinct | myapp/app.py:59-61 | no line is printed twice for one file |
| Cli.FileReportHolds | myapp/app.py:59-61 | the lines printed for a file are exactly its matching lines, formatted, none twice |
| Cli.FileModeOutput | myapp/app.py:59-63 | for a path naming a regular file, `main` prints that file's report under the path as given, searching with the compiled pattern argument |
| Cli.FormatMatchInjective | myapp/app.py:61 | two printed lines for one file that are equal have the same line number |
| Cli.WalkOutputCount | myapp/app.py:66-71 | in directory mode the number of printed lines is the total number of matches over the regular files |
| Cli.WalkOutputLines | myapp/app.py:66-71 | in directory mode a line is printed iff some regular file has a match that formats to it under the file's root-relative path |
| Fixture.FixtureLines | tests/conftest.py:29-48 | the fixture writes exactly `max_lines` lines, the match string at the listed line numbers and the other string elsewhere |
| Fixture.DecodedFixture | tests/conftest.py:43-48 | a file that decodes completely delivers all its lines |
| Fixture.GrepFixture | tests/conftest.py:43-48 | round trip: with sorted line numbers in range, the scan reports exactly the listed lines, each with the match string stripped; an empty list reports nothing |
| Fixture.FilterMatchExample | tests/test_myapp.py:7-46 | matches written at lines 1, 2 and 5 of 5 are reported as exactly 1, 2, 5, each with the match text stripped |
| Fixture.MainFileExample | tests/test_myapp.py:103-125 | one match at line 4 of 10 prints exactly `{path} line=4: {text}` (the test's `match`) |
| Fixture.MainBinaryExample | tests/test_myapp.py:129-146 | a file whose first read fails to decode prints nothing |
| Fixture.MainDirectoryExample | tests/test_myapp.py:149-174 | with `f1` (matches at lines 2 and 5) and `f2` (none) under the root, `main` prints exactly the two lines of `f1` |

## Left out

- Regular expressions: pattern syntax and `re.compile(...).search` are
  the abstract `compile` parameter. `re.error` on an invalid pattern
  propagates uncaught in the source and is not modelled.
- Opening files and decoding with the platform's default encoding: a file is
  the sequence of pulls from its line iterator. Where in the byte stream a
  decoding failure surfaces depends on buffered chunked decoding, so it is an
  input. Other I/O errors (permission denied, a path vanishing) propagate
  uncaught in the source and are not modelled.
- Directory traversal: the recursive listing, its order, `is_file` on each
  entry and `relative_to` are inputs (`Host.walk` gives each entry's
  root-relative path and file flag). The order is whatever the walk gives.
- Args.ParseArgs: returns the path argument as text, not as a `pathlib.Path`.
  The normalisation `Path(...)` applies (collapsed separators, a dropped
  trailing `/` or leading `./`) is not modelled, so the model prints and
  reports the path exactly as given. This also applies to the path in
  `MissingPathMessage`.
- Cli.Run: `print` and standard output are modelled as the list of printed
  strings, one per `print` call, without the newline `print` appends. A
  message containing a newline counts as one printed string. Reading
  `sys.argv` becomes the `args` parameter. The generator's laziness is not
  modelled: the loop collects each file's matches before printing them.
  The printed order is the same.
- Fixture.FixturePulls: reading back what the test helper wrote is modelled
  only for strings that are one ASCII line each, under an ASCII-compatible
  default encoding. A string with an embedded `'\n'` or `'\r'`, or without a
  final `"\n"`, would be split or joined by the line iterator. Non-ASCII text
  may decode differently or fail to decode. The scenarios require their
  strings to exclude all of these.
- Packaging (`setup.py`) and the test harness's file writing and
  `sys.argv` swapping are not modelled. The test files serve only as the
  scenarios in module `Fixture`.
