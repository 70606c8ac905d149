/**
  The stored record of the to-do list (the `Task` struct of src/main.rs) and the
  invariants that the command layer keeps on the ordered list of tasks.
 */
module TaskModel {

  /** Largest value of Rust's `u32`. */
  const U32_MAX: int := 0xFFFF_FFFF

  /** Values representable by a `u32`. */
  type U32 = x: int | 0 <= x <= U32_MAX

  /** One to-do item, with the three fields that are serialised to todo.json. */
  datatype Task = Task(id: U32, description: string, done: bool)

  /** True if some task in `tasks` carries `id`. */
  predicate HasId(tasks: seq<Task>, id: int) {
    exists i :: 0 <= i < |tasks| && tasks[i].id == id
  }

  /** How many tasks in `tasks` carry `id`. */
  function CountId(tasks: seq<Task>, id: int): (n: nat)
    ensures n <= |tasks|
    ensures n == 0 <==> !HasId(tasks, id)
  {
    if |tasks| == 0 then 0
    else
      var rest := CountId(tasks[1..], id);
      assert HasId(tasks, id) <==> tasks[0].id == id || HasId(tasks[1..], id) by {
        if HasId(tasks[1..], id) {
          var i :| 0 <= i < |tasks[1..]| && tasks[1..][i].id == id;
          assert tasks[i + 1].id == id;
        }
        if HasId(tasks, id) && tasks[0].id != id {
          var i :| 0 <= i < |tasks| && tasks[i].id == id;
          assert tasks[1..][i - 1].id == id;
        }
      }
      (if tasks[0].id == id then 1 else 0) + rest
  }

  /** The largest id in `tasks`, or 0 for the empty list. */
  function MaxId(tasks: seq<Task>): (m: nat)
    ensures forall i :: 0 <= i < |tasks| ==> tasks[i].id <= m
    ensures |tasks| > 0 ==> HasId(tasks, m)
    ensures |tasks| == 0 ==> m == 0
  {
    if |tasks| == 0 then 0
    else
      var rest := MaxId(tasks[1..]);
      assert forall i :: 1 <= i < |tasks| ==> tasks[i] == tasks[1..][i - 1];
      if tasks[0].id >= rest then tasks[0].id
      else
        assert HasId(tasks, rest) by {
          var i :| 0 <= i < |tasks[1..]| && tasks[1..][i].id == rest;
          assert tasks[i + 1].id == rest;
        }
        rest
  }

  /** Ids grow strictly from the front of the list to the back. */
  ghost predicate StrictlyIncreasing(tasks: seq<Task>) {
    forall i, j :: 0 <= i < j < |tasks| ==> tasks[i].id < tasks[j].id
  }

  /** No two tasks share an id. */
  ghost predicate UniqueIds(tasks: seq<Task>) {
    forall i, j :: 0 <= i < |tasks| && 0 <= j < |tasks| && tasks[i].id == tasks[j].id ==> i == j
  }

  /** The invariant of every list the commands build from an empty one. */
  ghost predicate Valid(tasks: seq<Task>) {
    && StrictlyIncreasing(tasks)
    && forall i :: 0 <= i < |tasks| ==> tasks[i].id >= 1
  }

  lemma IncreasingImpliesUnique(tasks: seq<Task>)
    requires StrictlyIncreasing(tasks)
    ensures UniqueIds(tasks)
  {
  }

  /** In a list with strictly increasing ids the last id is the largest one. */
  lemma LastIsMax(tasks: seq<Task>)
    requires StrictlyIncreasing(tasks) && |tasks| > 0
    ensures MaxId(tasks) == tasks[|tasks| - 1].id
  {
  }
}
