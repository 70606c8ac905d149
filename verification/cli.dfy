/**
  The dispatch of `main` in src/main.rs: one command applied to the loaded list,
  giving the new list, whether it is written back, and the message printed.
 */
module Cli {
  import opened TaskModel
  import opened TaskStore
  import opened Listing

  /** The four subcommands. */
  datatype Command = Add(description: string) | List | Remove(id: U32) | Done(id: U32)

  /** What the invocation prints. `Overflowed` stands for the panic of a debug build when the next id would exceed `u32`. */
  datatype Reply =
    | TaskSaved
    | Overflowed
    | Printed(lines: seq<string>)
    | Removed
    | NotFound(id: U32)
    | MarkedDone
    | MarkDoneError

  /** The outcome of one command: the list afterwards, whether it is saved, and the message. */
  datatype Step = Step(tasks: seq<Task>, save: bool, reply: Reply)

  function Run(cmd: Command, tasks: seq<Task>): (s: Step)
    // A list that is not saved is the list that was loaded: no change is ever dropped.
    ensures !s.save ==> s.tasks == tasks
    ensures cmd.Add? ==> (s.save <==> NextId(tasks).Some?)
    ensures cmd.Add? && s.save ==> s.tasks == AddTask(tasks, cmd.description).value
    ensures cmd.Add? ==> s.reply == (if s.save then TaskSaved else Overflowed)
    ensures cmd.List? ==> !s.save && s.reply == Printed(ListLines(tasks))
    ensures cmd.Remove? ==> (s.save <==> HasId(tasks, cmd.id))
    ensures cmd.Remove? ==> s.tasks == RemoveTask(tasks, cmd.id).tasks
    ensures cmd.Remove? ==> s.reply == (if s.save then Removed else NotFound(cmd.id))
    ensures cmd.Done? ==> (s.save <==> HasId(tasks, cmd.id))
    ensures cmd.Done? ==> s.tasks == MarkDone(tasks, cmd.id).tasks
    ensures cmd.Done? ==> s.reply == (if s.save then MarkedDone else MarkDoneError)
  {
    match cmd
    case Add(description) =>
      (match AddTask(tasks, description)
       case Success(added) => Step(added, true, TaskSaved)
       case Failure(_) => Step(tasks, false, Overflowed))
    case List =>
      Step(tasks, false, Printed(ListLines(tasks)))
    case Remove(id) =>
      var e := RemoveTask(tasks, id);
      Step(e.tasks, e.matched, if e.matched then Removed else NotFound(id))
    case Done(id) =>
      var e := MarkDone(tasks, id);
      Step(e.tasks, e.matched, if e.matched then MarkedDone else MarkDoneError)
  }
}
