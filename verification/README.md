# todo-cli task store, modelled in Dafny

A model of the command layer of `todo-cli`, a command-line to-do list written in
Rust. A run loads the list of tasks from `todo.json`, applies one subcommand
(`add`, `list`, `remove`, `done`), writes the list back when the subcommand
asks for that, and prints a message. Every task is a `Task { id: u32,
description: String, done: bool }`.

The model is functional. A task is a `datatype`, the list is a `seq<Task>`, and
each subcommand is a pure function from the loaded list to the new list. Remove
and Done also return a "matched" flag, and that flag decides both the save and
the message.

Modules:

- `Wrappers`: `Option` and `Result`.
- `Decimal`: how Rust's `{}` prints a `u32`, plus its inverse `ParseNat`.
- `TaskModel`: the `Task` record, the `U32` range, the id predicates, and the
  invariant `Valid`. `Valid` means ids strictly increase along the list and are
  all positive.
- `TaskStore`: `NextId`, `AddTask`, `Retain`, `RemoveTask`, `FindFirst` and
  `MarkDone`.
- `Listing`: the lines `list` prints, and a parser that shows every field of a
  task can be read back from its line.
- `Cli`: the `match` in `main`. It maps a command and a list to the new list, a
  save flag and a reply.
- `Storage`: the backing file, seen as missing or as what it decodes to.
  `Load`, `Save`, one whole invocation, and the end-to-end walkthrough.
- `Invariants`: facts about whole lists. Every command keeps `Valid`, hence
  unique ids. Under `Valid`, Add allocates max + 1. No command clears a done
  flag. Done and Remove are idempotent. Remove has a
  characterisation that does not depend on how it is computed.

Details of the code that the model keeps:

- **Id allocation.** Add allocates the last task's id + 1, not the maximum id
  + 1 (src/main.rs:59). `Invariants.AddAllocatesMaxPlusOne` proves the two
  agree under `Valid`, which every list built by the commands satisfies
  (`Invariants.ReplayPreservesValid`).
- **Remove.** `retain` drops every task with the id, not only the first
  (src/main.rs:87).
- **Done on a done task.** Done saves whenever some task matched, even if that
  task was already done and the list does not change (src/main.rs:97-99).

## Model

| member | source | states |
|---|---|---|
| `TaskStore.NextId` | src/main.rs:56-60 | An empty list gets id 1. A non-empty list gets the last task's id + 1. Allocation fails exactly when the last id is `u32::MAX`. |
| `TaskStore.AddTask` | src/main.rs:55-66 | Add succeeds iff an id can be allocated. On success the list grows by exactly one. Every earlier task is kept, unchanged and in order. The new last task has the allocated id, the given description verbatim, and `done = false`. |
| `TaskStore.Retain` | src/main.rs:87 | No task in the result carries the id. The result is a subsequence of the input, so survivors keep their order and fields. Its length falls short of the input's by the number of tasks carrying the id. |
| `TaskStore.RetainKeepsOthers` | src/main.rs:87 | Every task whose id differs from the argument survives `retain`. |
| `TaskStore.RemoveTask` | src/main.rs:85-94 | No task with the id is left. The result is a subsequence of the input, so survivors keep their order and fields. It is shorter than the input by exactly the number of tasks carrying the id. Remove matched iff some task had the id, iff the list got shorter. With no match the list is returned unchanged. |
| `TaskStore.FindFirst` | src/main.rs:97 | The search returns the position of the first task with the id. It returns nothing iff no task has the id. |
| `TaskStore.MarkDone` | src/main.rs:96-104 | Done matched iff some task has the id. Length, ids and descriptions stay the same at every position. Only the first matching task's flag changes, and it becomes true. Every other flag is kept. With no match the list is unchanged. |
| `Listing.RenderAll` | src/main.rs:75-82 | Exactly one line per task, in stored order. |
| `Listing.ListLines` | src/main.rs:70-83 | An empty list prints only "No tasks found". Otherwise "Task List" is printed, then one rendered line per task in stored order. |
| `Listing.RenderTaskRecoverable` | src/main.rs:76-80 | A line `{id}. [{x or space}] {description}` can be parsed back to the task's exact id, done flag and description. |
| `Listing.RenderTaskInjective` | src/main.rs:76-80 | Two different tasks never print the same line. |
| `Listing.RenderExamples` | src/main.rs:76-81 | A done task 1 prints `1. [x] buy milk`. A pending task 2 prints `2. [ ] walk dog`. |
| `Decimal.NatToString` | src/main.rs:77-78 | An id prints as a non-empty string of decimal digits with no leading zero. |
| `Decimal.ParseNatToString` | src/main.rs:77-78 | Reading a printed id back gives the id. |
| `Decimal.NatToStringParseNat` | src/main.rs:77-78 | Every canonical digit string is the printed form of the number it denotes. |
| `Cli.Run` | src/main.rs:54-105 | The dispatch. A list that is not saved equals the loaded list. Add saves iff an id was allocated. List never saves and prints `ListLines`. Remove and Done save iff some task had the id. Each command's reply follows its save flag. |
| `Storage.Load` | src/main.rs:30-41 | A missing file yields the empty list. So does a file that does not decode. Otherwise the decoded list is returned. |
| `Storage.Save` | src/main.rs:43-48 | Loading what was saved gives back the saved list. |
| `Storage.Invoke` | src/main.rs:50-106 | One run loads the list, applies the command and prints its reply. The file afterwards loads as the new list. The file is untouched when nothing is saved, and `list` always leaves it untouched. |
| `Storage.Bootstrap` | src/main.rs:52-67 | A first `add` without a file writes a file holding one pending task with id 1. |
| `Storage.Walkthrough` | src/main.rs:50-106 | Starting without a file: add, add, done 1, list, remove 2, remove 2. This gives ids 1 and 2. Task 1 becomes done. `list` leaves the file as it was. Task 2 is removed, and the second remove reports not found without saving. |
| `TaskModel.CountId` | src/main.rs:86-89 | The number of tasks with an id is zero iff no task has that id. |
| `TaskModel.LastIsMax` | src/main.rs:59 | When ids strictly increase, the last id is the largest id. |
| `Invariants.AddAllocatesMaxPlusOne` | src/main.rs:56-60 | When ids strictly increase, an allocated id is the maximum + 1 and belongs to no task yet. Allocation fails iff the maximum is `u32::MAX`. |
| `Invariants.AddPreservesValid` | src/main.rs:56-66 | A successful Add keeps ids strictly increasing and positive. |
| `Invariants.RemovePreservesValid` | src/main.rs:87 | Remove keeps ids strictly increasing and positive. |
| `Invariants.RunPreservesValid` | src/main.rs:54-105 | Every command keeps ids strictly increasing and positive, and therefore pairwise distinct. |
| `Invariants.ReplayPreservesValid` | src/main.rs:50-106 | Any sequence of invocations started from a valid list, such as the empty list, keeps ids strictly increasing, positive and unique. |
| `Invariants.AddKeepsDone` | src/main.rs:61-66 | When ids strictly increase, Add keeps every done task done under its id. The new task is pending and takes an id no earlier task has. |
| `Invariants.RemoveKeepsDone` | src/main.rs:87 | When ids strictly increase, every task that survives Remove keeps its done flag. |
| `Invariants.MarkDoneKeepsDone` | src/main.rs:97-98 | When ids strictly increase, Done only ever writes true, so a done task stays done. |
| `Invariants.RunKeepsDone` | src/main.rs:54-105 | When ids strictly increase, no command turns a done task back into a pending task with the same id. |
| `Invariants.RunNeverClearsDone` | src/main.rs:54-105 | On every list, including hand-edited ones with repeated ids, no command clears a done flag. Add, List and Done keep each task at its position with the same id and description, and its flag only goes from false to true. A task they append is pending. Remove keeps only unchanged tasks of the input. |
| `Invariants.MarkDoneIdempotent` | src/main.rs:97-98 | Marking the same id done a second time changes nothing. |
| `Invariants.RemoveIdempotent` | src/main.rs:86-94 | Removing the same id a second time changes nothing and reports not found. |
| `Invariants.RetainCharacterised` | src/main.rs:87 | Take any subsequence of the list that avoids the id and is as long as the number of tasks without it. That subsequence is the list Remove leaves. |
| `Invariants.IdReusedAfterRemovingLast` | src/main.rs:56-60 | Removed ids are not reserved. After removing task 2 from tasks 1 and 2, the next Add hands out id 2 again. |

## Left out

- File I/O: `Path::exists`, `File::open`/`create`, `read_to_string` and `write_all` (src/main.rs:31-37, 45-47). The file is modelled only as `Missing` or `Present(what it decodes to)`.
- JSON: `serde_json::from_str` and `to_string_pretty` are library code. The model assumes decoding what was encoded gives the same list; `Storage.Save` states this, it is not proved about JSON. Contents that do not decode are `Present(None)`.
- Command-line parsing and help text (clap, src/main.rs:15-28). A command arrives as a `Cli.Command` value.
- Console output: the confirmation and error messages are `Cli.Reply` constructors, not their exact text. Only the lines of `list` are modelled character by character. A "line" is the string given to one `println!`, without the newline it adds. A description that contains a newline therefore shows on several terminal lines.
- Panics from `expect` on I/O or serialisation errors are not modelled.
- TaskStore.AddTask: does not model the release-build wrap-around of `id + 1` when the last id is `u32::MAX`. The model treats this case as the failure `IdOverflow`: nothing is saved, and the reply is `Overflowed`. That is what a debug build does when it panics before `save_task`.
- Concurrent invocations on the same file are not modelled. The program has no locking.
