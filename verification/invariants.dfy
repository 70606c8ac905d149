/**
  Properties of the commands over whole lists: the id invariant they keep, the
  id Add allocates under it, the one-way completion flag, idempotence, and a
  characterisation of Remove independent of how `Retain` is computed.
 */
module Invariants {
  import opened TaskModel
  import opened TaskStore
  import opened Cli

  /** Every element of a subsequence occurs in the sequence it is taken from. */
  lemma {:induction false} SubsequenceMembers(a: seq<Task>, b: seq<Task>)
    requires IsSubsequence(a, b)
    ensures forall t :: t in a ==> t in b
    decreases |b|
  {
    if |a| > 0 {
      if a[0] == b[0] && IsSubsequence(a[1..], b[1..]) {
        SubsequenceMembers(a[1..], b[1..]);
        assert forall t :: t in a ==> t == a[0] || t in a[1..];
      } else {
        SubsequenceMembers(a, b[1..]);
      }
    }
  }

  /** Taking a subsequence keeps ids strictly increasing. */
  lemma {:induction false} SubsequenceIncreasing(a: seq<Task>, b: seq<Task>)
    requires IsSubsequence(a, b) && StrictlyIncreasing(b)
    ensures StrictlyIncreasing(a)
    decreases |b|
  {
    if |a| > 0 {
      assert StrictlyIncreasing(b[1..]);
      if a[0] == b[0] && IsSubsequence(a[1..], b[1..]) {
        SubsequenceIncreasing(a[1..], b[1..]);
        SubsequenceMembers(a[1..], b[1..]);
        forall j | 0 < j < |a|
          ensures a[0].id < a[j].id
        {
          assert a[j] == a[1..][j - 1] && a[j] in a[1..];
          assert a[j] in b[1..];
          var k :| 0 <= k < |b[1..]| && b[1..][k] == a[j];
          assert b[k + 1] == a[j];
        }
      } else {
        SubsequenceIncreasing(a, b[1..]);
      }
    }
  }

  /** Under the invariant Add allocates one more than the largest id, an id no task has yet. */
  lemma AddAllocatesMaxPlusOne(tasks: seq<Task>)
    requires StrictlyIncreasing(tasks)
    ensures NextId(tasks).Some? ==> NextId(tasks).value == MaxId(tasks) + 1
    ensures NextId(tasks).Some? ==> !HasId(tasks, NextId(tasks).value)
    ensures NextId(tasks).None? <==> MaxId(tasks) == U32_MAX
  {
  }

  lemma AddPreservesValid(tasks: seq<Task>, description: string)
    requires Valid(tasks)
    ensures AddTask(tasks, description).Success? ==> Valid(AddTask(tasks, description).value)
  {
  }

  lemma RemovePreservesValid(tasks: seq<Task>, id: U32)
    requires Valid(tasks)
    ensures Valid(RemoveTask(tasks, id).tasks)
  {
    var r := Retain(tasks, id);
    SubsequenceIncreasing(r, tasks);
    SubsequenceMembers(r, tasks);
    forall i | 0 <= i < |r|
      ensures r[i].id >= 1
    {
      assert r[i] in r;
    }
  }

  /** Every command keeps ids strictly increasing and positive, hence unique. */
  lemma RunPreservesValid(cmd: Command, tasks: seq<Task>)
    requires Valid(tasks)
    ensures Valid(Run(cmd, tasks).tasks)
    ensures UniqueIds(Run(cmd, tasks).tasks)
  {
    match cmd
    case Add(description) => AddPreservesValid(tasks, description);
    case List =>
    case Remove(id) => RemovePreservesValid(tasks, id);
    case Done(id) =>
  }

  /** The list after applying `cmds` in order, one invocation each. */
  function Replay(tasks: seq<Task>, cmds: seq<Command>): seq<Task>
    decreases |cmds|
  {
    if |cmds| == 0 then tasks
    else Replay(Run(cmds[0], tasks).tasks, cmds[1..])
  }

  /** Any sequence of commands started on an empty list leaves ids strictly increasing, positive and unique. */
  lemma {:induction false} ReplayPreservesValid(tasks: seq<Task>, cmds: seq<Command>)
    requires Valid(tasks)
    ensures Valid(Replay(tasks, cmds))
    ensures UniqueIds(Replay(tasks, cmds))
    decreases |cmds|
  {
    if |cmds| > 0 {
      RunPreservesValid(cmds[0], tasks);
      ReplayPreservesValid(Run(cmds[0], tasks).tasks, cmds[1..]);
    } else {
      IncreasingImpliesUnique(tasks);
    }
  }

  /** A task that was done is still done in `after` under the same id. */
  ghost predicate KeepsDone(before: seq<Task>, after: seq<Task>) {
    forall i, j :: 0 <= i < |before| && 0 <= j < |after| && before[i].id == after[j].id && before[i].done ==> after[j].done
  }

  lemma AddKeepsDone(tasks: seq<Task>, description: string)
    requires StrictlyIncreasing(tasks)
    ensures AddTask(tasks, description).Success? ==> KeepsDone(tasks, AddTask(tasks, description).value)
    ensures AddTask(tasks, description).Success? ==>
      var t := AddTask(tasks, description).value[|tasks|];
      !t.done && !HasId(tasks, t.id)
  {
    AddAllocatesMaxPlusOne(tasks);
  }

  lemma RemoveKeepsDone(tasks: seq<Task>, id: U32)
    requires StrictlyIncreasing(tasks)
    ensures KeepsDone(tasks, RemoveTask(tasks, id).tasks)
  {
    var after := RemoveTask(tasks, id).tasks;
    SubsequenceMembers(after, tasks);
    forall i, j | 0 <= i < |tasks| && 0 <= j < |after| && tasks[i].id == after[j].id && tasks[i].done
      ensures after[j].done
    {
      assert after[j] in after;
    }
  }

  lemma MarkDoneKeepsDone(tasks: seq<Task>, id: U32)
    requires StrictlyIncreasing(tasks)
    ensures KeepsDone(tasks, MarkDone(tasks, id).tasks)
  {
  }

  /** When ids strictly increase, no command turns a done task back into a pending one with the same id. */
  lemma RunKeepsDone(cmd: Command, tasks: seq<Task>)
    requires StrictlyIncreasing(tasks)
    ensures KeepsDone(tasks, Run(cmd, tasks).tasks)
  {
    match cmd
    case Add(description) => AddKeepsDone(tasks, description);
    case List =>
    case Remove(id) => RemoveKeepsDone(tasks, id);
    case Done(id) => MarkDoneKeepsDone(tasks, id);
  }

  /**
    On any list at all, ids increasing or not, no command clears a done flag.
    Commands other than Remove keep every task at its position, with the same
    id and description and a done flag that can only go from false to true;
    a task they append is pending. Remove only keeps unchanged tasks.
   */
  lemma RunNeverClearsDone(cmd: Command, tasks: seq<Task>)
    ensures var after := Run(cmd, tasks).tasks;
      !cmd.Remove? ==>
        && |tasks| <= |after|
        && (forall i :: 0 <= i < |tasks| ==>
              && after[i].id == tasks[i].id
              && after[i].description == tasks[i].description
              && (tasks[i].done ==> after[i].done))
        && (forall j :: |tasks| <= j < |after| ==> !after[j].done)
    ensures var after := Run(cmd, tasks).tasks;
      cmd.Remove? ==> forall j :: 0 <= j < |after| ==> after[j] in tasks
  {
    var after := Run(cmd, tasks).tasks;
    match cmd
    case Add(description) =>
      if AddTask(tasks, description).Success? {
        forall i | 0 <= i < |tasks|
          ensures after[i] == tasks[i]
        {
          assert after[i] == after[..|tasks|][i];
        }
      }
    case List =>
    case Remove(id) =>
      SubsequenceMembers(after, tasks);
      forall j | 0 <= j < |after|
        ensures after[j] in tasks
      {
        assert after[j] in after;
      }
    case Done(id) =>
  }

  /** Marking the same id done twice changes nothing the second time. */
  lemma MarkDoneIdempotent(tasks: seq<Task>, id: U32)
    ensures MarkDone(MarkDone(tasks, id).tasks, id).tasks == MarkDone(tasks, id).tasks
  {
  }

  /** Removing the same id twice changes nothing the second time. */
  lemma RemoveIdempotent(tasks: seq<Task>, id: U32)
    ensures RemoveTask(RemoveTask(tasks, id).tasks, id) == Edit(RemoveTask(tasks, id).tasks, false)
  {
  }

  /** A subsequence of `tasks` avoiding `id` has at most as many elements as `tasks` has tasks without `id`. */
  lemma {:induction false} AvoidingSubsequenceBound(r: seq<Task>, tasks: seq<Task>, id: int)
    requires IsSubsequence(r, tasks)
    requires forall t :: t in r ==> t.id != id
    ensures |r| + CountId(tasks, id) <= |tasks|
    decreases |tasks|
  {
    if |tasks| > 0 {
      if |r| > 0 && r[0] == tasks[0] && IsSubsequence(r[1..], tasks[1..]) {
        AvoidingSubsequenceBound(r[1..], tasks[1..], id);
      } else if |r| > 0 {
        AvoidingSubsequenceBound(r, tasks[1..], id);
      } else {
        assert CountId(tasks, id) <= |tasks|;
      }
    }
  }

  /**
    Remove keeps exactly the tasks whose id differs, in their original order:
    any subsequence of the list that avoids `id` and is as long as the number
    of such tasks is the list Remove leaves.
   */
  lemma {:induction false} RetainCharacterised(tasks: seq<Task>, id: U32, r: seq<Task>)
    requires IsSubsequence(r, tasks)
    requires forall t :: t in r ==> t.id != id
    requires |r| + CountId(tasks, id) == |tasks|
    ensures r == RemoveTask(tasks, id).tasks
    decreases |tasks|
  {
    if |tasks| > 0 {
      var rest := tasks[1..];
      if tasks[0].id == id {
        assert |r| == 0 || r[0] != tasks[0] by {
          if |r| > 0 { assert r[0] in r; }
        }
        assert IsSubsequence(r, rest);
        RetainCharacterised(rest, id, r);
      } else {
        if |r| > 0 && r[0] == tasks[0] && IsSubsequence(r[1..], rest) {
          assert forall t :: t in r[1..] ==> t in r;
          RetainCharacterised(rest, id, r[1..]);
          assert r == [r[0]] + r[1..];
        } else if |r| > 0 {
          AvoidingSubsequenceBound(r, rest, id);
          assert false;
        } else {
          assert false;
        }
      }
    }
  }

  /** Ids are not reserved: after removing the newest task, the next Add can hand out its id again. */
  lemma IdReusedAfterRemovingLast(first: Task, second: Task, description: string)
    requires first.id == 1 && second.id == 2
    ensures
      var removed := RemoveTask([first, second], 2).tasks;
      var added := AddTask(removed, description);
      added.Success? && added.value == [first, Task(2, description, false)]
  {
  }
}
