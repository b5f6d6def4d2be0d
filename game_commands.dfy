/**
 * The commands that drive the Minecraft server console: "$" (run a console
 * command and report its output), "say", "shutdown" and "list". Each body is
 * a value: what it asks the bot to send to the game, and how it ends.
 */
module GameCommands {
  import opened Wrappers
  import opened Text
  import opened Commands

  /** What a game command asks the bot to do: a console line (gameCommand) or an in-game broadcast (gameMessage). */
  datatype Effect = Console(line: string) | Broadcast(text: string)

  const CATEGORY := "Game"
  const EXEC_LEVEL := 3
  const SAY_LEVEL := 2
  const SHUTDOWN_LEVEL := 4
  const LIST_LEVEL := -1
  const SHUTDOWN_WORDS := ["shut down", "shutdown", "poweroff", "stop"]
  const LINE_LIMIT_NOTICE := "... Command output exceeded max line count"

  /**
   * output.subList(0, maxLines - 1) followed by the notice, when the
   * captured output has more than maxLines lines; subList rejects a
   * negative end index.
   */
  function TruncateOutput(output: seq<string>, maxLines: int): (r: Result<seq<string>, Exception>)
    ensures |output| <= maxLines ==> r == Ok(output)
    ensures |output| > maxLines && maxLines >= 1 ==>
      r.Ok? && |r.value| == maxLines && r.value[..maxLines - 1] == output[..maxLines - 1]
      && r.value[maxLines - 1] == LINE_LIMIT_NOTICE
    ensures |output| > maxLines && maxLines < 1 ==> r.Err?
  {
    if |output| <= maxLines then Ok(output)
    else if maxLines < 1 then
      Err(Exception("java.lang.IllegalArgumentException",
        Some("fromIndex(0) > toIndex(" + IntToString(maxLines - 1) + ")")))
    else Ok(output[..maxLines - 1] + [LINE_LIMIT_NOTICE])
  }

  /** Whatever the captured output, a successful truncation leaves at most maxLines lines. */
  lemma TruncateOutputBound(output: seq<string>, maxLines: int)
    ensures TruncateOutput(output, maxLines).Ok? ==> |TruncateOutput(output, maxLines).value| <= maxLines
    ensures TruncateOutput(output, maxLines).Ok? ==>
      var r := TruncateOutput(output, maxLines).value;
      forall i :: 0 <= i < |r| && i < maxLines - 1 ==> r[i] == output[i]
  {
  }

  /**
   * "$": the input minus its first character goes to the console; output
   * is the lines the log parser captured meanwhile.
   */
  function Exec(command: string, source: Source, output: seq<string>, maxLines: int): (r: (seq<Effect>, Outcome))
    ensures |command| >= 1 ==> r.0 == [Console(command[1..])]
    ensures |command| >= 1 && source == Game && TruncateOutput(output, maxLines).Ok? ==>
      r.1 == Returned(TextResponse("Successfully executed"))
    ensures |command| >= 1 && source != Game && TruncateOutput(output, maxLines).Ok? ==>
      r.1 == Returned(TextResponse(Join(TruncateOutput(output, maxLines).value, "\n")))
    ensures TruncateOutput(output, maxLines).Err? ==> r.1.Failed?
  {
    if |command| < 1 then
      ([], Failed(Exception("java.lang.StringIndexOutOfBoundsException", None)))
    else
      var effects := [Console(command[1..])];
      match TruncateOutput(output, maxLines)
      case Err(e) => (effects, Failed(e))
      case Ok(lines) =>
        if source == Game then (effects, Returned(TextResponse("Successfully executed")))
        else (effects, Returned(TextResponse(Join(lines, "\n"))))
  }

  /** command.substring(command.indexOf(" ") + 1) */
  function SayText(command: string): string {
    command[IndexOf(command, ' ') + 1..]
  }

  /** say broadcasts what follows the first space, or the whole input when there is none. */
  lemma SayTextAfterFirstSpace(command: string)
    ensures ' ' !in command ==> SayText(command) == command
    ensures ' ' in command ==>
      var k := IndexOf(command, ' ');
      command == command[..k] + " " + SayText(command) && ' ' !in command[..k]
  {
    if ' ' in command {
      var k := IndexOf(command, ' ');
      assert command == command[..k] + [command[k]] + command[k + 1..];
    }
  }

  /** "say": broadcast the text; echo it to chat sources, answer nothing in game. */
  function Say(command: string, source: Source): (seq<Effect>, Outcome)
  {
    var text := SayText(command);
    ([Broadcast(text)], if source != Game then Returned(TextResponse("[server] " + text)) else Returned(EmptyResponse()))
  }

  /** shutdown's matches: a case-sensitive test of its four words. */
  lemma ShutdownMatchesIff(s: string)
    ensures Accepts(AnyPrefix(SHUTDOWN_WORDS), s) <==>
      "shut down" <= s || "shutdown" <= s || "poweroff" <= s || "stop" <= s
  {
    var ws := SHUTDOWN_WORDS;
    if "shut down" <= s { assert ws[0] <= s; }
    if "shutdown" <= s { assert ws[1] <= s; }
    if "poweroff" <= s { assert ws[2] <= s; }
    if "stop" <= s { assert ws[3] <= s; }
  }

  /** "shutdown": announce, then stop the server; no answer. */
  function Shutdown(): (seq<Effect>, Outcome)
  {
    ([Broadcast("Stopping the server"), Console("stop")], Returned(EmptyResponse()))
  }

  /** "list": run the console's list and answer with the captured lines. */
  function List(output: seq<string>): (seq<Effect>, Outcome)
  {
    ([Console("list")], Returned(TextResponse(Join(output, "\n"))))
  }
}
