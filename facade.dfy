/**
 * The public surface of `WindowsVolumeControl`: the readiness gate on the
 * extracted NirCmd path, the six volume operations, and the static
 * initialiser that extracts NirCmd once.
 */
module Facade {
  import opened Java
  import opened Translator
  import opened Executor
  import opened Extractor

  const NotReadyMessage := "NirCmd executable path is not available. Initialization likely failed. Check logs."
  const ExtractInitMessage := "Could not initialize WindowsVolumeControl: Failed to extract nircmd.exe"
  const SecurityInitMessage := "Could not initialize WindowsVolumeControl due to security restrictions"

  /**
   * The specification of a public operation: the readiness check first,
   * then argument validation, then `executeNirCmd`.
   */
  function Perform(path: Option<string>, op: Op, run: ProcessRun): (o: Outcome)
    ensures path.None? ==> o.result == Err(IllegalStateException(NotReadyMessage))
    ensures o.attempted.Some? <==> path.Some? && ValidArgument(op)
  {
    if path.None? then NotAttempted(IllegalStateException(NotReadyMessage))
    else
      match Translate(op)
      case Err(e) => NotAttempted(e)
      case Ok(invocation) => Execute(path, invocation.command, invocation.args, run)
  }

  /**
   * The class's state: the path `extractedNirCmdPath` that the static
   * initialiser leaves behind. No operation writes it.
   */
  class WindowsVolumeControl {
    var extractedNirCmdPath: Option<string>

    constructor (path: Option<string>)
      ensures extractedNirCmdPath == path
    {
      extractedNirCmdPath := path;
    }

    /** `checkNirCmdReady`. */
    function CheckNirCmdReady(): (r: Result<()>)
      reads this
      ensures r.Ok? <==> extractedNirCmdPath.Some?
      ensures r.Err? ==> r.error == IllegalStateException(NotReadyMessage)
    {
      if extractedNirCmdPath.None? then Err(IllegalStateException(NotReadyMessage)) else Ok(())
    }

    /** `executeNirCmd`, with the process launch reported by `run`. */
    method ExecuteNirCmd(command: string, args: seq<string>, run: ProcessRun) returns (o: Outcome)
      ensures o == Execute(extractedNirCmdPath, command, args, run)
    {
      if extractedNirCmdPath.None? {
        return NotAttempted(IOException(PathNotInitializedMessage));
      }
      var commandList := BuildCommandList(extractedNirCmdPath.value, command, args);
      assert commandList == [extractedNirCmdPath.value, command] + args;
      var started := !run.StartFailed?;
      var thrown: Option<Exception> := None;
      var warning: Option<Int32> := None;
      match run {
        case StartFailed(message) =>
          thrown := Some(IOException(message));
        case Interrupted =>
          thrown := Some(InterruptedException);
        case Exited(exitCode) =>
          if exitCode != 0 {
            warning := Some(exitCode);
          }
      }
      // finally: a started process is destroyed on every path
      var destroyed := started;
      var result: Result<()> := if thrown.Some? then Err(thrown.value) else Ok(());
      o := Outcome(result, Some(commandList), destroyed, warning);
    }

    /**
     * The body every public operation shares: `checkNirCmdReady`, then the
     * operation's own validation and scaling, then `executeNirCmd`.
     */
    method Invoke(op: Op, run: ProcessRun) returns (o: Outcome)
      ensures o == Perform(extractedNirCmdPath, op, run)
    {
      var ready := CheckNirCmdReady();
      if ready.Err? {
        return NotAttempted(ready.error);
      }
      var translated := Translate(op);
      if translated.Err? {
        return NotAttempted(translated.error);
      }
      o := ExecuteNirCmd(translated.value.command, translated.value.args, run);
    }

    /** `setVolume`. */
    method SetVolume(percentage: Int32, run: ProcessRun) returns (o: Outcome)
      ensures o == Perform(extractedNirCmdPath, Op.SetVolume(percentage), run)
    {
      o := Invoke(Op.SetVolume(percentage), run);
    }

    /** `increaseVolume`, with the step scaled as written. */
    method IncreaseVolume(percentageStep: Int32, run: ProcessRun) returns (o: Outcome)
      ensures o == Perform(extractedNirCmdPath, Op.IncreaseVolume(percentageStep), run)
    {
      o := Invoke(Op.IncreaseVolume(percentageStep), run);
    }

    /** `decreaseVolume`, with the step scaled as written. */
    method DecreaseVolume(percentageStep: Int32, run: ProcessRun) returns (o: Outcome)
      ensures o == Perform(extractedNirCmdPath, Op.DecreaseVolume(percentageStep), run)
    {
      o := Invoke(Op.DecreaseVolume(percentageStep), run);
    }

    /** `mute`. */
    method Mute(run: ProcessRun) returns (o: Outcome)
      ensures o == Perform(extractedNirCmdPath, Op.Mute, run)
    {
      o := Invoke(Op.Mute, run);
    }

    /** `unmute`. */
    method Unmute(run: ProcessRun) returns (o: Outcome)
      ensures o == Perform(extractedNirCmdPath, Op.Unmute, run)
    {
      o := Invoke(Op.Unmute, run);
    }

    /** `toggleMute`. */
    method ToggleMute(run: ProcessRun) returns (o: Outcome)
      ensures o == Perform(extractedNirCmdPath, Op.ToggleMute, run)
    {
      o := Invoke(Op.ToggleMute, run);
    }
  }

  /**
   * The static initialiser: extract NirCmd and keep its path, register the
   * deletion hook, or fail with an IllegalStateException, which leaves the
   * class unusable. `Files.createTempFile` and `Files.newOutputStream` throw
   * only IOException or SecurityException here; `hookFailure` is the
   * SecurityException `addShutdownHook` threw, if any.
   */
  method StaticInitializer(
    resource: ResourceStream?, created: Result<TempFile>, openFailure: Option<Exception>,
    hookFailure: Option<Exception>)
    returns (r: Result<WindowsVolumeControl>)
    requires resource != null ==> resource.Valid()
    requires created.Ok? ==> created.value.contents == []
    requires created.Err? ==> created.error.IOException? || created.error.SecurityException?
    requires openFailure.Some? ==> openFailure.value.IOException? || openFailure.value.SecurityException?
    requires hookFailure.Some? ==> hookFailure.value.SecurityException?
    modifies resource, if created.Ok? then {created.value} else {}
    ensures r.Ok? <==> resource != null && created.Ok? && openFailure.None? && hookFailure.None?
    ensures r.Ok? ==>
      fresh(r.value) &&
      r.value.extractedNirCmdPath == Some(created.value.path) &&
      created.value.contents == old(resource.data[resource.pos..])
    ensures r.Err? ==>
      r.error == IllegalStateException(
        if resource == null then ExtractInitMessage
        else if created.Err? then
          (if created.error.SecurityException? then SecurityInitMessage else ExtractInitMessage)
        else if openFailure.Some? then
          (if openFailure.value.SecurityException? then SecurityInitMessage else ExtractInitMessage)
        else SecurityInitMessage)
  {
    var extracted := ExtractNirCmd(resource, created, openFailure);
    match extracted
    case Ok(path) =>
      if hookFailure.Some? {
        r := Err(IllegalStateException(SecurityInitMessage));
      } else {
        var control := new WindowsVolumeControl(Some(path));
        r := Ok(control);
      }
    case Err(e) =>
      if e.SecurityException? {
        r := Err(IllegalStateException(SecurityInitMessage));
      } else {
        r := Err(IllegalStateException(ExtractInitMessage));
      }
  }

  // -----------------------------------------------------------------------
  // Properties of the public operations

  /**
   * With no path, every operation throws IllegalStateException and builds
   * no command, whatever its argument: readiness is checked before validation.
   */
  lemma NotReadyComesFirst(op: Op, run: ProcessRun)
    ensures Perform(None, op, run) == NotAttempted(IllegalStateException(NotReadyMessage))
  {
  }

  /** Once the path is known, an invalid argument throws IllegalArgumentException and runs nothing. */
  lemma InvalidArgumentRunsNothing(path: string, op: Op, run: ProcessRun)
    requires !ValidArgument(op)
    ensures Perform(Some(path), op, run).result.Err?
    ensures Perform(Some(path), op, run).result.error.IllegalArgumentException?
    ensures Perform(Some(path), op, run).attempted.None?
    ensures !Perform(Some(path), op, run).destroyed
  {
  }

  /** A command is attempted exactly when the path is known and the argument is valid. */
  lemma AttemptedIff(path: Option<string>, op: Op, run: ProcessRun)
    ensures Perform(path, op, run).attempted.Some? <==> path.Some? && ValidArgument(op)
    ensures var r := Perform(path, op, run).result;
      (r.Err? && r.error.IllegalArgumentException?) <==> path.Some? && !ValidArgument(op)
  {
  }

  /**
   * The command list is the path, the command word, then the arguments in
   * order, so it is two longer than the arguments.
   */
  lemma CommandListShape(path: string, op: Op, run: ProcessRun)
    requires ValidArgument(op)
    ensures var invocation := Translate(op).value;
      Perform(Some(path), op, run).attempted == Some([path, invocation.command] + invocation.args) &&
      |Perform(Some(path), op, run).attempted.value| == 2 + |invocation.args|
  {
  }

  /**
   * What each operation sends, in full: for a percentage `p` in 0..100 and
   * every step `s` up to `MaxUnwrappedStep`.
   */
  lemma CommandLines(path: string, p: Int32, s: Int32, run: ProcessRun)
    requires 0 <= p <= 100
    requires 0 <= s <= MaxUnwrappedStep
    ensures Perform(Some(path), Op.SetVolume(p), run).attempted
      == Some([path, "setsysvolume", ValueOf(RoundedUnits(p))])
    ensures Perform(Some(path), Op.IncreaseVolume(s), run).attempted
      == Some([path, "changesysvolume", ValueOf(RoundedUnits(s))])
    ensures Perform(Some(path), Op.DecreaseVolume(s), run).attempted
      == Some([path, "changesysvolume", ValueOf(-RoundedUnits(s))])
    ensures Perform(Some(path), Op.Mute, run).attempted == Some([path, "mutesysvolume", "1"])
    ensures Perform(Some(path), Op.Unmute, run).attempted == Some([path, "mutesysvolume", "0"])
    ensures Perform(Some(path), Op.ToggleMute, run).attempted == Some([path, "mutesysvolume", "2"])
  {
    StepIsNotWrapped(s);
    assert Negate(ScaledValue(s)) == -RoundedUnits(s);
    assert [path, "mutesysvolume"] + ["1"] == [path, "mutesysvolume", "1"];
    assert [path, "mutesysvolume"] + ["0"] == [path, "mutesysvolume", "0"];
    assert [path, "mutesysvolume"] + ["2"] == [path, "mutesysvolume", "2"];
    assert [path, "setsysvolume"] + [ValueOf(RoundedUnits(p))] == [path, "setsysvolume", ValueOf(RoundedUnits(p))];
    assert [path, "changesysvolume"] + [ValueOf(RoundedUnits(s))] == [path, "changesysvolume", ValueOf(RoundedUnits(s))];
    assert [path, "changesysvolume"] + [ValueOf(-RoundedUnits(s))] == [path, "changesysvolume", ValueOf(-RoundedUnits(s))];
  }

  /**
   * A valid call returns normally whatever the exit code, which is only
   * logged when non-zero; only a failed start (IOException) or a failed wait
   * (InterruptedException) propagates, and a started process is destroyed.
   */
  lemma ExitCodeIsOnlyLogged(path: string, op: Op, run: ProcessRun)
    requires ValidArgument(op)
    ensures run.Exited? ==>
      Perform(Some(path), op, run).result == Ok(()) &&
      Perform(Some(path), op, run).exitWarning == (if run.code != 0 then Some(run.code) else None)
    ensures run.StartFailed? ==> Perform(Some(path), op, run).result == Err(IOException(run.message))
    ensures run.Interrupted? ==> Perform(Some(path), op, run).result == Err(InterruptedException)
    ensures Perform(Some(path), op, run).destroyed <==> !run.StartFailed?
  {
  }

  /**
   * Once the path is known, neither readiness check fires: a call throws only
   * for an invalid argument or because the launch itself failed.
   */
  lemma InitializedIsReady(path: string, op: Op, run: ProcessRun)
    ensures var r := Perform(Some(path), op, run).result;
      r.Err? ==>
        r.error.IllegalArgumentException? ||
        (run.StartFailed? && r.error == IOException(run.message)) ||
        (run.Interrupted? && r.error == InterruptedException)
  {
  }
}
