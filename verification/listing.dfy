/**
  The List command of src/main.rs: the lines it prints for a list of tasks.
  `ParseLine` reads a task line back; it exists to state that the rendering
  keeps every field of the task recoverable.
 */
module Listing {
  import opened Wrappers
  import opened Decimal
  import opened TaskModel

  const NO_TASKS: string := "No tasks found"
  const HEADER: string := "Task List"

  /** The completion marker printed between the brackets. */
  function Marker(done: bool): string {
    if done then "x" else " "
  }

  /** One task as `{id}. [{marker}] {description}`. */
  function RenderTask(t: Task): string {
    NatToString(t.id) + ". [" + Marker(t.done) + "] " + t.description
  }

  /** The task lines, one per task, in stored order. */
  function RenderAll(tasks: seq<Task>): (lines: seq<string>)
    ensures |lines| == |tasks|
    ensures forall i :: 0 <= i < |tasks| ==> lines[i] == RenderTask(tasks[i])
  {
    if |tasks| == 0 then []
    else [RenderTask(tasks[0])] + RenderAll(tasks[1..])
  }

  /** Everything List prints: the empty-list message alone, or a header followed by the task lines. */
  function ListLines(tasks: seq<Task>): (lines: seq<string>)
    ensures |tasks| == 0 ==> lines == [NO_TASKS]
    ensures |tasks| > 0 ==> |lines| == |tasks| + 1 && lines[0] == HEADER
    ensures |tasks| > 0 ==> forall i :: 0 <= i < |tasks| ==> lines[i + 1] == RenderTask(tasks[i])
  {
    if |tasks| == 0 then [NO_TASKS]
    else [HEADER] + RenderAll(tasks)
  }

  /** The fields a printed task line shows. */
  datatype Row = Row(id: nat, done: bool, description: string)

  /** Length of the longest prefix of `s` made of decimal digits. */
  function DigitPrefix(s: string): (n: nat)
    ensures n <= |s|
    ensures forall i :: 0 <= i < n ==> IsDigit(s[i])
    ensures n < |s| ==> !IsDigit(s[n])
  {
    if |s| == 0 || !IsDigit(s[0]) then 0
    else 1 + DigitPrefix(s[1..])
  }

  /** Reads a line of the form `{digits}. [{x or space}] {description}`. */
  function ParseLine(line: string): Option<Row> {
    var n := DigitPrefix(line);
    if n == 0 || |line| < n + 6 || line[n..n + 3] != ". [" || line[n + 4..n + 6] != "] " then None
    else if line[n + 3] == 'x' then Some(Row(ParseNat(line[..n]), true, line[n + 6..]))
    else if line[n + 3] == ' ' then Some(Row(ParseNat(line[..n]), false, line[n + 6..]))
    else None
  }

  /** The digit prefix of a digit string followed by a non-digit is that digit string. */
  lemma {:induction false} DigitPrefixOfConcat(digits: string, rest: string)
    requires AllDigits(digits)
    requires |rest| > 0 && !IsDigit(rest[0])
    ensures DigitPrefix(digits + rest) == |digits|
    decreases |digits|
  {
    if |digits| > 0 {
      assert (digits + rest)[1..] == digits[1..] + rest;
      DigitPrefixOfConcat(digits[1..], rest);
    } else {
      assert digits + rest == rest;
    }
  }

  /** A rendered task line shows exactly the task's id, completion flag and description. */
  lemma RenderTaskRecoverable(t: Task)
    ensures ParseLine(RenderTask(t)) == Some(Row(t.id, t.done, t.description))
  {
    var digits := NatToString(t.id);
    var rest := ". [" + Marker(t.done) + "] " + t.description;
    var line := RenderTask(t);
    assert line == digits + rest;
    DigitPrefixOfConcat(digits, rest);
    var n := |digits|;
    assert line[..n] == digits;
    assert line[n..n + 3] == ". [";
    assert line[n + 3] == Marker(t.done)[0];
    assert line[n + 4..n + 6] == "] ";
    assert line[n + 6..] == t.description;
    ParseNatToString(t.id);
  }

  /** Distinct tasks print distinct lines. */
  lemma RenderTaskInjective(a: Task, b: Task)
    requires RenderTask(a) == RenderTask(b)
    ensures a == b
  {
    RenderTaskRecoverable(a);
    RenderTaskRecoverable(b);
  }

  /** The line printed for a completed task with id 1 and a pending one with id 2. */
  lemma RenderExamples()
    ensures RenderTask(Task(1, "buy milk", true)) == "1. [x] buy milk"
    ensures RenderTask(Task(2, "walk dog", false)) == "2. [ ] walk dog"
  {
    assert NatToString(1) == "1" && NatToString(2) == "2";
  }
}
