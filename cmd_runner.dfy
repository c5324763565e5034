/** `run_command`: runs one command line through the shell and folds whatever happened
    into a success flag and one text. */
module CmdRunner {
  import opened Text

  /** What running one command line produced. */
  datatype ProcessOutcome =
    /** The process ran and ended with this exit status and these captured streams. */
    | Exited(code: int, stdout: string, stderr: string)
    /** An exception other than a non-zero exit (the shell could not be started, the
        output could not be decoded, ...), with its text `str(e)`. */
    | Raised(message: string)

  /** The platform shell, as far as the model can see it: what a command line produces. */
  type Shell = string -> ProcessOutcome

  /** The `(success, output_or_error)` pair every manager operation returns. */
  datatype CommandResult = CommandResult(success: bool, output: string)

  /** Exit status 0 gives the stripped standard output; any other status raises
      `CalledProcessError` (the run uses `check=True`) and gives the stripped standard
      error; any other exception gives its text. Nothing escapes. */
  function RunCommand(shell: Shell, command: string): (r: CommandResult)
    ensures r.success <==> shell(command).Exited? && shell(command).code == 0
    ensures shell(command).Exited? && r.success ==> r.output == Strip(shell(command).stdout)
    ensures shell(command).Exited? && !r.success ==> r.output == Strip(shell(command).stderr)
    ensures shell(command).Raised? ==> r.output == shell(command).message
  {
    match shell(command)
    case Exited(code, out, err) =>
      if code == 0 then CommandResult(true, Strip(out)) else CommandResult(false, Strip(err))
    case Raised(message) => CommandResult(false, message)
  }

  /** Whenever the process ran, the text handed back has no whitespace at either end, so
      stripping it again leaves it as it is. */
  lemma RunCommandOutputTrimmed(shell: Shell, command: string)
    requires shell(command).Exited?
    ensures Trimmed(RunCommand(shell, command).output)
    ensures Strip(RunCommand(shell, command).output) == RunCommand(shell, command).output
  {
    var o := shell(command);
    StripIdempotent(if o.code == 0 then o.stdout else o.stderr);
  }

  /** A command that prints "ok" and a newline and exits with 0 yields (true, "ok"). */
  lemma RunCommandOkExample(shell: Shell, command: string)
    requires shell(command) == Exited(0, "ok\n", "")
    ensures RunCommand(shell, command) == CommandResult(true, "ok")
  {
    assert AllSpace("\n") && Trimmed("ok");
    StripUnique([], "ok", "\n");
    assert [] + "ok" + "\n" == "ok\n";
  }

  /** A command that writes "boom" to standard error and exits with 1 yields (false, "boom"). */
  lemma RunCommandBoomExample(shell: Shell, command: string)
    requires shell(command) == Exited(1, "", "boom")
    ensures RunCommand(shell, command) == CommandResult(false, "boom")
  {
    assert Trimmed("boom");
    StripUnique([], "boom", []);
    assert [] + "boom" + [] == "boom";
  }
}
