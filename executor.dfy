/**
 * `executeNirCmd`: builds the command list `[path, command, args...]`,
 * hands it to the operating system and interprets what comes back. The
 * launch itself is abstracted to the one thing it reports.
 */
module Executor {
  import opened Java

  const PathNotInitializedMessage := "NirCmd path not initialized."

  /** What starting the process and waiting for it reported. */
  datatype ProcessRun =
    | StartFailed(message: string)  // `ProcessBuilder.start` threw an IOException
    | Interrupted                   // `waitFor` threw an InterruptedException
    | Exited(code: Int32)           // the process ended with this exit code

  /** The observable effect of one call of a public operation. */
  datatype Outcome = Outcome(
    result: Result<()>,              // returned normally, or the exception thrown
    attempted: Option<seq<string>>,  // the command list handed to `ProcessBuilder`, if any
    destroyed: bool,                 // `process.destroy()` ran
    exitWarning: Option<Int32>       // the non-zero exit code logged as a warning
  )

  /** A call that threw before any command was built. */
  function NotAttempted(e: Exception): (o: Outcome)
    ensures o.result.Err? && o.attempted.None? && !o.destroyed && o.exitWarning.None?
  {
    Outcome(Err(e), None, false, None)
  }

  /**
   * The specification of `executeNirCmd`. A non-zero exit code is only
   * logged; the IOException of a failed start and the InterruptedException
   * of a failed wait propagate; a started process is always destroyed.
   */
  function Execute(path: Option<string>, command: string, args: seq<string>, run: ProcessRun): (o: Outcome)
    ensures o.attempted.Some? <==> path.Some?
    ensures o.attempted.Some? ==> |o.attempted.value| == 2 + |args|
    ensures o.destroyed <==> path.Some? && !run.StartFailed?
    ensures o.result.Err? <==> path.None? || !run.Exited?
    ensures o.exitWarning.Some? <==> path.Some? && run.Exited? && run.code != 0
    ensures o.exitWarning.Some? ==> o.exitWarning.value == run.code
  {
    match path
    case None => NotAttempted(IOException(PathNotInitializedMessage))
    case Some(p) =>
      var commandList := [p, command] + args;
      match run
      case StartFailed(message) => Outcome(Err(IOException(message)), Some(commandList), false, None)
      case Interrupted => Outcome(Err(InterruptedException), Some(commandList), true, None)
      case Exited(code) => Outcome(Ok(()), Some(commandList), true, if code != 0 then Some(code) else None)
  }

  /** The `add`, `add`, `addAll` sequence that builds the command list. */
  method BuildCommandList(path: string, command: string, args: seq<string>) returns (commandList: seq<string>)
    ensures |commandList| == 2 + |args|
    ensures commandList[0] == path && commandList[1] == command
    ensures forall i :: 0 <= i < |args| ==> commandList[2 + i] == args[i]
  {
    commandList := [];
    commandList := commandList + [path];
    commandList := commandList + [command];
    var i := 0;
    while i < |args|
      invariant 0 <= i <= |args|
      invariant |commandList| == 2 + i
      invariant commandList[0] == path && commandList[1] == command
      invariant forall j :: 0 <= j < i ==> commandList[2 + j] == args[j]
    {
      commandList := commandList + [args[i]];
      i := i + 1;
    }
  }
}
