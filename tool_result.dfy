/** The outcome of one tool execution and the shared tool interface. */
module ToolResults {
  import opened Common
  import opened JsonValues

  /** An immutable result: the Java class has only final fields, and a
      datatype value cannot change after it is built. */
  datatype ToolResult = ToolResult(output: string, isError: bool, exitCode: int)

  /** ToolResult.success: not an error, exit code 0. */
  function Success(output: string): (r: ToolResult)
    ensures r.output == output && !r.isError && r.exitCode == 0
  {
    ToolResult(output, false, 0)
  }

  /** ToolResult.error: an error, exit code 1. */
  function Error(output: string): (r: ToolResult)
    ensures r.output == output && r.isError && r.exitCode == 1
  {
    ToolResult(output, true, 1)
  }

  /** What a call to Tool.execute does: it returns a result, or it throws
      (a missing input field, an unchecked exception inside the tool). */
  datatype ToolOutcome = Returned(result: ToolResult) | Threw(message: string)

  /** The message of the NullPointerException a tool throws when it
      dereferences an input field the model did not send. Its text comes
      from the Java runtime, not from this program, so it is left
      unspecified. */
  const MISSING_FIELD_MESSAGE: string

  /** The Tool interface: name, description, input schema and execute. The
      input handed to execute is a Java null when the model sent none. */
  datatype Tool = Tool(
    name: string,
    description: string,
    inputSchema: Json,
    execute: Option<Json> -> ToolOutcome)

}
