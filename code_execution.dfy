/** The shell tool: a first-match blocklist in front of the command, the
    bounded reader of its output, and the shaping of its result. */
module CodeExecution {
  import opened Common
  import opened JsonValues
  import opened ToolResults

  const MAX_OUTPUT_CHARS: nat := 8192
  const TRUNCATED_NOTE: string := "\n[OUTPUT TRUNCATED]"

  /** A compiled java.util.regex.Pattern: its source text and whether
      matcher(command).find() succeeds on a command. */
  datatype Pattern = Pattern(source: string, find: string -> bool)

  /** The tool's settings: the timeout and the two pattern lists. The
      working directory only matters to the shell, which is a parameter. */
  datatype Settings = Settings(timeoutSeconds: int, blocked: seq<Pattern>, warned: seq<Pattern>)

  /** How the shell run ended, as the tool observes it: exited with a code
      after printing some lines, timed out after printing some lines, or an
      exception (process start failure, interruption) with its message. */
  datatype RunOutcome =
    | Exited(exitCode: int, lines: seq<string>)
    | TimedOut(lines: seq<string>)
    | Failed(message: Option<string>)

  /** The position of the first pattern, in list order, that finds a match. */
  function FirstMatch(patterns: seq<Pattern>, command: string): (k: Option<nat>)
    ensures k.Some? ==> k.value < |patterns| && patterns[k.value].find(command)
    ensures k.Some? ==> forall j :: 0 <= j < k.value ==> !patterns[j].find(command)
    ensures k.None? <==> forall j :: 0 <= j < |patterns| ==> !patterns[j].find(command)
  {
    if patterns == [] then None
    else if patterns[0].find(command) then Some(0)
    else
      match FirstMatch(patterns[1..], command)
      case None => None
      case Some(k) => Some(k + 1)
  }

  /** checkBlocked: the reason naming the first blocked pattern that matches,
      or null when none does. */
  function CheckBlocked(patterns: seq<Pattern>, command: string): (reason: Option<string>)
    ensures reason.None? <==> forall j :: 0 <= j < |patterns| ==> !patterns[j].find(command)
    ensures reason.Some? ==> FirstMatch(patterns, command).Some?
    ensures reason.Some? ==> reason.value == "matches blocked pattern: " + patterns[FirstMatch(patterns, command).value].source
  {
    match FirstMatch(patterns, command)
    case None => None
    case Some(k) => Some("matches blocked pattern: " + patterns[k].source)
  }

  /** checkWarned: the first risky pattern that matches, which is only
      logged. */
  function CheckWarned(patterns: seq<Pattern>, command: string): (logged: Option<Pattern>)
    ensures logged.None? <==> forall j :: 0 <= j < |patterns| ==> !patterns[j].find(command)
    ensures logged.Some? ==> logged.value in patterns && logged.value.find(command)
  {
    match FirstMatch(patterns, command)
    case None => None
    case Some(k) => Some(patterns[k])
  }

  /** Every line followed by a newline, as the reader would append them all. */
  function AllLines(lines: seq<string>): string
  {
    if lines == [] then "" else AllLines(lines[..|lines| - 1]) + lines[|lines| - 1] + "\n"
  }

  /** The output buffer after the reader has seen `lines`: a line and a
      newline are appended only while the buffer is below 8192 chars. */
  function Accumulated(lines: seq<string>): string
  {
    if lines == [] then ""
    else
      var before := Accumulated(lines[..|lines| - 1]);
      if |before| < MAX_OUTPUT_CHARS then before + lines[|lines| - 1] + "\n" else before
  }

  /** The reader thread's loop over the process output. */
  method ReadOutput(lines: seq<string>) returns (output: string)
    ensures output == Accumulated(lines)
  {
    output := "";
    for i := 0 to |lines|
      invariant output == Accumulated(lines[..i])
    {
      assert lines[..i + 1][..i] == lines[..i];
      if |output| < MAX_OUTPUT_CHARS {
        output := output + lines[i] + "\n";
      }
    }
    assert lines[..|lines|] == lines;
  }

  /** The buffer holds whole lines in order, a prefix of all the output, and
      loses nothing while it stays below the limit. */
  lemma {:induction false} AccumulatedKeepsLeadingLines(lines: seq<string>)
    ensures StartsWith(AllLines(lines), Accumulated(lines))
    ensures |Accumulated(lines)| < MAX_OUTPUT_CHARS ==> Accumulated(lines) == AllLines(lines)
  {
    if lines != [] {
      var init := lines[..|lines| - 1];
      AccumulatedKeepsLeadingLines(init);
      var all := AllLines(init);
      assert StartsWith(AllLines(lines), all) by {
        assert AllLines(lines) == all + (lines[|lines| - 1] + "\n");
      }
    }
  }

  /** The buffer overshoots the limit by at most one line and its newline. */
  lemma {:induction false} AccumulatedBounded(lines: seq<string>, width: nat)
    requires forall i :: 0 <= i < |lines| ==> |lines[i]| <= width
    ensures |Accumulated(lines)| < MAX_OUTPUT_CHARS + width + 1
  {
    if lines != [] {
      AccumulatedBounded(lines[..|lines| - 1], width);
    }
  }

  /** The final cut: the first 8192 chars of a longer output and a note. */
  function TruncateOutput(s: string): (r: string)
    ensures |s| <= MAX_OUTPUT_CHARS ==> r == s
    ensures |s| > MAX_OUTPUT_CHARS ==>
      StartsWith(r, s[..MAX_OUTPUT_CHARS]) && EndsWith(r, TRUNCATED_NOTE)
      && |r| == MAX_OUTPUT_CHARS + |TRUNCATED_NOTE|
  {
    if |s| > MAX_OUTPUT_CHARS then s[..MAX_OUTPUT_CHARS] + TRUNCATED_NOTE else s
  }

  /** The note appended to the output of a command that timed out. */
  function TimeoutNote(timeoutSeconds: int): string
  {
    "\n[TIMEOUT: Command exceeded " + IntToString(timeoutSeconds) + "s limit]"
  }

  /** The result of a run that got as far as starting the shell. */
  function ShapeResult(settings: Settings, run: RunOutcome): (r: ToolResult)
    ensures run.Exited? ==> r.exitCode == run.exitCode && (r.isError <==> run.exitCode != 0)
    ensures run.Exited? ==> r.output == TruncateOutput(Trim(Accumulated(run.lines)))
    ensures run.TimedOut? ==> r.isError && r.exitCode == -1
    ensures run.TimedOut? ==>
      r.output == Trim(Accumulated(run.lines)) + TimeoutNote(settings.timeoutSeconds)
    ensures run.Failed? ==> r == Error("Failed to execute command: " + NullText(run.message))
  {
    match run
    case Exited(code, lines) => ToolResult(TruncateOutput(Trim(Accumulated(lines))), code != 0, code)
    case TimedOut(lines) =>
      ToolResult(Trim(Accumulated(lines)) + TimeoutNote(settings.timeoutSeconds), true, -1)
    case Failed(message) => Error("Failed to execute command: " + NullText(message))
  }

  /** The refusal of a blocked command. */
  function BlockedResult(reason: string): (r: ToolResult)
    ensures r.isError && r.exitCode == 1
    ensures StartsWith(r.output, "Command blocked for safety: ")
  {
    Error("Command blocked for safety: " + reason + ". This command pattern is not allowed.")
  }

  /** execute: the command text of the input, refused when a blocked pattern
      matches it, otherwise run by `shell` and shaped into a result. A
      missing input or command field is a NullPointerException. */
  function Execute(settings: Settings, input: Option<Json>, shell: string -> RunOutcome): (o: ToolOutcome)
    ensures (input.None? || !Has(input.value, "command")) <==> o.Threw?
    ensures o.Threw? ==> o.message == MISSING_FIELD_MESSAGE
    ensures o.Returned? ==> var command := AsText(Get(input.value, "command").value);
      match CheckBlocked(settings.blocked, command)
      case Some(reason) => o.result == BlockedResult(reason)
      case None => o.result == ShapeResult(settings, shell(command))
  {
    if input.None? || !Has(input.value, "command") then Threw(MISSING_FIELD_MESSAGE)
    else
      var command := AsText(Get(input.value, "command").value);
      match CheckBlocked(settings.blocked, command)
      case Some(reason) => Returned(BlockedResult(reason))
      case None => Returned(ShapeResult(settings, shell(command)))
  }

  /** A blocked command never reaches the shell: the result is the same
      whatever the shell would have done. */
  lemma BlockedBeforeAnyRun(settings: Settings, input: Json, shell1: string -> RunOutcome, shell2: string -> RunOutcome)
    requires Has(input, "command")
    requires CheckBlocked(settings.blocked, AsText(Get(input, "command").value)).Some?
    ensures Execute(settings, Some(input), shell1) == Execute(settings, Some(input), shell2)
    ensures Execute(settings, Some(input), shell1).Returned?
    ensures Execute(settings, Some(input), shell1).result.isError
  {
  }

  /** The warned patterns never change the result. */
  lemma WarningsOnlyLogged(settings: Settings, warned: seq<Pattern>, input: Option<Json>, shell: string -> RunOutcome)
    ensures Execute(settings.(warned := warned), input, shell) == Execute(settings, input, shell)
  {
  }

  /** A command that prints one line without blank ends and exits with 0
      returns exactly that line as a success. */
  lemma {:induction false} OneLineSuccess(line: string)
    requires 0 < |line| <= MAX_OUTPUT_CHARS
    requires !IsTrimmable(line[0]) && !IsTrimmable(line[|line| - 1])
    ensures ShapeResult(Settings(30, [], []), Exited(0, [line])) == ToolResults.Success(line)
  {
    var out := line + "\n";
    assert [line][..0] == [];
    assert Accumulated([line]) == out;
    assert TrimStart(out) == out;
    assert out[..|out| - 1] == line;
    assert TrimEnd(out) == line;
  }
}
