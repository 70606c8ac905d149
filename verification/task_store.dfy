/**
  The list-mutating commands of the `main` match in src/main.rs: Add, Remove
  and Done. Each is a pure function from the loaded list to the new list; Remove
  and Done also report whether any task matched, which decides whether the list
  is saved and which message is printed.
 */
module TaskStore {
  import opened Wrappers
  import opened TaskModel

  /** The new list and whether the command found a task with the requested id. */
  datatype Edit = Edit(tasks: seq<Task>, matched: bool)

  /** Why Add could not allocate an id. */
  datatype AddError = IdOverflow

  /** `b` contains the elements of `a` in the same order, possibly with others between them. */
  ghost predicate IsSubsequence(a: seq<Task>, b: seq<Task>)
    decreases |b|
  {
    if |a| == 0 then true
    else if |b| == 0 then false
    else (a[0] == b[0] && IsSubsequence(a[1..], b[1..])) || IsSubsequence(a, b[1..])
  }

  /**
    The id Add allocates: 1 for an empty list, otherwise one more than the id
    of the LAST task (not the largest one). `None` when that addition would
    leave the range of `u32`.
   */
  function NextId(tasks: seq<Task>): (r: Option<U32>)
    ensures |tasks| == 0 ==> r == Some(1)
    ensures |tasks| > 0 ==> (r.None? <==> tasks[|tasks| - 1].id == U32_MAX)
    ensures |tasks| > 0 && r.Some? ==> r.value == tasks[|tasks| - 1].id + 1
  {
    if |tasks| == 0 then Some(1)
    else if tasks[|tasks| - 1].id == U32_MAX then None
    else Some(tasks[|tasks| - 1].id + 1)
  }

  /** Add: append a pending task with the given description under a fresh id. */
  function AddTask(tasks: seq<Task>, description: string): (r: Result<seq<Task>, AddError>)
    ensures r.Success? <==> NextId(tasks).Some?
    ensures r.Success? ==> |r.value| == |tasks| + 1 && r.value[..|tasks|] == tasks
    ensures r.Success? ==> r.value[|tasks|] == Task(NextId(tasks).value, description, false)
  {
    match NextId(tasks)
    case None => Failure(IdOverflow)
    case Some(id) => Success(tasks + [Task(id, description, false)])
  }

  /** `Vec::retain` with the predicate "id differs": drops every task with that id. */
  function Retain(tasks: seq<Task>, id: int): (r: seq<Task>)
    ensures forall i :: 0 <= i < |r| ==> r[i].id != id
    ensures |r| + CountId(tasks, id) == |tasks|
    ensures IsSubsequence(r, tasks)
  {
    if |tasks| == 0 then []
    else
      var rest := Retain(tasks[1..], id);
      assert tasks == [tasks[0]] + tasks[1..];
      if tasks[0].id == id then
        assert |rest| == 0 || IsSubsequence(rest, tasks[1..]);
        rest
      else
        [tasks[0]] + rest
  }

  /** Every task whose id differs survives `Retain`. */
  lemma {:induction false} RetainKeepsOthers(tasks: seq<Task>, id: int)
    ensures forall i :: 0 <= i < |tasks| && tasks[i].id != id ==> tasks[i] in Retain(tasks, id)
  {
    if |tasks| > 0 {
      RetainKeepsOthers(tasks[1..], id);
      forall i | 0 < i < |tasks| && tasks[i].id != id
        ensures tasks[i] in Retain(tasks, id)
      {
        assert tasks[i] == tasks[1..][i - 1];
      }
    }
  }

  /** Remove: drop every task with `id`; it matched iff the list got shorter. */
  function RemoveTask(tasks: seq<Task>, id: U32): (r: Edit)
    ensures forall i :: 0 <= i < |r.tasks| ==> r.tasks[i].id != id
    ensures |r.tasks| + CountId(tasks, id) == |tasks|
    ensures IsSubsequence(r.tasks, tasks)
    ensures r.matched <==> HasId(tasks, id)
    ensures r.matched <==> |r.tasks| < |tasks|
    ensures !r.matched ==> r.tasks == tasks
  {
    var kept := Retain(tasks, id);
    SubsequenceOfSameLength(kept, tasks);
    Edit(kept, |kept| < |tasks|)
  }

  /** `i` is the position of the first task with `id`. */
  ghost predicate IsFirstMatch(tasks: seq<Task>, id: int, i: int) {
    && 0 <= i < |tasks|
    && tasks[i].id == id
    && forall j :: 0 <= j < i ==> tasks[j].id != id
  }

  /** The position `Iterator::find` stops at when looking for `id`. */
  function FindFirst(tasks: seq<Task>, id: int): (r: Option<nat>)
    ensures r.Some? ==> IsFirstMatch(tasks, id, r.value)
    ensures r.None? <==> !HasId(tasks, id)
  {
    if |tasks| == 0 then None
    else if tasks[0].id == id then Some(0)
    else
      match FindFirst(tasks[1..], id)
      case None => None
      case Some(k) =>
        assert forall j :: 1 <= j < k + 1 ==> tasks[j] == tasks[1..][j - 1];
        Some(k + 1)
  }

  /** Done: mark the first task with `id` as done; every other task is left alone. */
  function MarkDone(tasks: seq<Task>, id: U32): (r: Edit)
    ensures r.matched <==> HasId(tasks, id)
    ensures |r.tasks| == |tasks|
    ensures forall i :: 0 <= i < |tasks| ==>
      && r.tasks[i].id == tasks[i].id
      && r.tasks[i].description == tasks[i].description
      && r.tasks[i].done == (tasks[i].done || IsFirstMatch(tasks, id, i))
    ensures !r.matched ==> r.tasks == tasks
  {
    match FindFirst(tasks, id)
    case None => Edit(tasks, false)
    case Some(i) => Edit(tasks[i := tasks[i].(done := true)], true)
  }

  /** A subsequence is never longer than the sequence it is taken from, and one of equal length is that sequence. */
  lemma {:induction false} SubsequenceOfSameLength(a: seq<Task>, b: seq<Task>)
    requires IsSubsequence(a, b)
    ensures |a| <= |b|
    ensures |a| == |b| ==> a == b
    decreases |b|
  {
    if |a| > 0 {
      if a[0] == b[0] && IsSubsequence(a[1..], b[1..]) {
        SubsequenceOfSameLength(a[1..], b[1..]);
        if |a| == |b| {
          assert a == [a[0]] + a[1..] && b == [b[0]] + b[1..];
        }
      } else {
        SubsequenceOfSameLength(a, b[1..]);
      }
    }
  }
}
