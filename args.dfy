/** The argument check `parse_args` and the user-facing error it raises. */
module Args {

  /** A value, or the message of a `UserException`. */
  datatype Result<T> = Ok(value: T) | Err(message: string)

  /** The message for a wrong number of arguments. */
  const UsageMessage: string := "Incorrect arguments" + "\n" + "Please, run 'myapp [path] [substring]'"

  /** The message for a path that does not exist (the spelling is the
      program's own). */
  function MissingPathMessage(path: string): (msg: string)
    ensures |msg| == |path| + 20
    ensures msg[5..5 + |path|] == path
  {
    "path " + path + " doesn't exists"
  }

  /** `parse_args(args)`: `args` is the whole argument vector, program name
      first. Checks the count first, then that the path exists, and hands
      back the path and the pattern text untouched. */
  function ParseArgs(args: seq<string>, pathExists: string -> bool): (r: Result<(string, string)>)
    ensures r.Ok? <==> |args| == 3 && pathExists(args[1])
    ensures r.Ok? ==> r.value == (args[1], args[2])
    ensures |args| != 3 ==> r == Err(UsageMessage)
    ensures |args| == 3 && !pathExists(args[1]) ==> r == Err(MissingPathMessage(args[1]))
  {
    if |args| != 3 then Err(UsageMessage)
    else if !pathExists(args[1]) then Err(MissingPathMessage(args[1]))
    else Ok((args[1], args[2]))
  }

  /** The two user errors can always be told apart, and the missing-path
      message names the path it was given: the same message is never produced
      for two different paths. */
  lemma {:induction false} UserErrorsDistinct(p: string, q: string)
    ensures UsageMessage != MissingPathMessage(p)
    ensures MissingPathMessage(p) == MissingPathMessage(q) ==> p == q
  {
    assert UsageMessage[0] == 'I';
    assert MissingPathMessage(p)[0] == 'p';
    if MissingPathMessage(p) == MissingPathMessage(q) {
      assert |p| == |q|;
      assert p == MissingPathMessage(p)[5..5 + |p|];
    }
  }
}
