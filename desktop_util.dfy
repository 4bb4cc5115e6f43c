/**
 * The outcome of running a helper program (`osascript`, `open`, `xdotool`,
 * `wmctrl`, `powershell`) and the error text built from a failed run
 * (src/desktop/util.rs).
 *
 * A run either could not be started (`SpawnFailed`, with the reason) or
 * produced an output: its success flag, its exit code when it has one, and
 * its standard output and error already decoded as text.
 */
module DesktopUtil {
  import opened Wrappers
  import opened Errors
  import opened Strings

  datatype CommandOutput = CommandOutput(success: bool, code: Option<int>, stdout: string, stderr: string)

  datatype Spawn = Spawned(output: CommandOutput) | SpawnFailed(reason: string)

  /**
   * `command_output_error`: a `Config` error naming the program and giving
   * the trimmed standard error, else the trimmed standard output, else the
   * exit code (1 for a run without one).
   */
  function CommandOutputError(program: string, output: CommandOutput): (e: Error)
    ensures e.Config? && e.configMessage == program + " failed" + FailureDetail(output)
  {
    Config(program + " failed" + FailureDetail(output))
  }

  /** What follows "<program> failed" in the message. */
  function FailureDetail(output: CommandOutput): (d: string)
    ensures Trim(output.stderr) != "" ==> d == ": " + Trim(output.stderr)
    ensures Trim(output.stderr) == "" && Trim(output.stdout) != "" ==> d == ": " + Trim(output.stdout)
    ensures Trim(output.stderr) == "" && Trim(output.stdout) == "" ==>
      d == " with exit code " + IntToString(if output.code.Some? then output.code.value else 1)
  {
    var stderr := Trim(output.stderr);
    if stderr != "" then ": " + stderr
    else
      var stdout := Trim(output.stdout);
      if stdout != "" then ": " + stdout
      else " with exit code " + IntToString(match output.code case Some(c) => c case None => 1)
  }

  /** Every such message starts with the program's name followed by " failed". */
  lemma {:induction false} CommandOutputErrorNamesProgram(program: string, output: CommandOutput)
    ensures StartsWith(CommandOutputError(program, output).configMessage, program + " failed")
  {
    var head := program + " failed";
    var m := head + FailureDetail(output);
    assert m[..|head|] == head;
  }

  /** Standard error wins: with something on it, the standard output and the code do not matter. */
  lemma {:induction false} StderrWins(program: string, a: CommandOutput, b: CommandOutput)
    requires a.stderr == b.stderr && Trim(a.stderr) != ""
    ensures CommandOutputError(program, a) == CommandOutputError(program, b)
  {
  }

  /** A run with nothing printed reports its code, and a missing code as 1. */
  lemma {:induction false} SilentRunReportsCode(program: string, success: bool)
    ensures CommandOutputError(program, CommandOutput(success, None, "", "")).configMessage
            == program + " failed" + " with exit code 1"
  {
    assert Trim("") == "";
    assert IntToString(1) == "1";
    assert " with exit code " + "1" == " with exit code 1";
  }

  /**
   * The status of a run, as each platform's helper turns it into a result:
   * success is `Ok`, a failed run is its output's error, and a run that
   * could not start is "failed to run <program>: <reason>".
   */
  function RunStatus(program: string, run: Spawn): (r: Result<()>)
    ensures r.Ok? <==> run.Spawned? && run.output.success
    ensures run.Spawned? && !run.output.success ==> r == Err(CommandOutputError(program, run.output))
    ensures run.SpawnFailed? ==> r == Err(Config("failed to run " + program + ": " + run.reason))
  {
    match run
    case SpawnFailed(reason) => Err(Config("failed to run " + program + ": " + reason))
    case Spawned(output) => if output.success then Ok(()) else Err(CommandOutputError(program, output))
  }
}
