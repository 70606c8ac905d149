/**
  The backing file todo.json, as `load_task` and `save_task` in src/main.rs see
  it. The JSON encoding is not modelled: a present file is described by what it
  decodes to, `None` standing for contents that do not decode.
 */
module Storage {
  import opened Wrappers
  import opened TaskModel
  import opened Cli
  import Listing
  import TaskStore

  datatype Backing = Missing | Present(decoded: Option<seq<Task>>)

  /** The list an invocation starts from: empty unless the file exists and decodes. */
  function Load(b: Backing): (tasks: seq<Task>)
    ensures b.Present? && b.decoded.Some? ==> tasks == b.decoded.value
    ensures b.Missing? || b.decoded.None? ==> tasks == []
  {
    match b
    case Present(Some(tasks)) => tasks
    case _ => []
  }

  /** Overwrite the file with the whole list. */
  function Save(tasks: seq<Task>): (b: Backing)
    ensures Load(b) == tasks
  {
    Present(Some(tasks))
  }

  datatype Invocation = Invocation(backing: Backing, reply: Reply)

  /** One run of the program: load, apply the command, save when it asks to. */
  function Invoke(b: Backing, cmd: Command): (r: Invocation)
    ensures r.reply == Run(cmd, Load(b)).reply
    ensures Load(r.backing) == Run(cmd, Load(b)).tasks
    ensures r.backing == b <== !Run(cmd, Load(b)).save
    ensures r.backing != b ==> r.backing.Present? && r.backing.decoded.Some?
    ensures cmd.List? ==> r.backing == b
  {
    var s := Run(cmd, Load(b));
    Invocation(if s.save then Save(s.tasks) else b, s.reply)
  }

  /** A first Add on a missing file creates a file holding one pending task with id 1. */
  lemma Bootstrap(description: string)
    ensures Invoke(Missing, Add(description)) ==
      Invocation(Present(Some([Task(1, description, false)])), TaskSaved)
  {
  }

  /** Add, add, done, list, remove, remove again, starting without a file. */
  lemma Walkthrough()
    ensures
      var milk := Task(1, "buy milk", false);
      var dog := Task(2, "walk dog", false);
      var s1 := Invoke(Missing, Add("buy milk"));
      var s2 := Invoke(s1.backing, Add("walk dog"));
      var s3 := Invoke(s2.backing, Done(1));
      var s4 := Invoke(s3.backing, List);
      var s5 := Invoke(s4.backing, Remove(2));
      var s6 := Invoke(s5.backing, Remove(2));
      && s1.backing == Present(Some([milk]))
      && s2.backing == Present(Some([milk, dog]))
      && s3.backing == Present(Some([milk.(done := true), dog]))
      && s4.backing == s3.backing
      && s4.reply == Printed(Listing.ListLines([milk.(done := true), dog]))
      && s5.backing == Present(Some([milk.(done := true)]))
      && s6 == Invocation(s5.backing, NotFound(2))
  {
    var milk := Task(1, "buy milk", false);
    var dog := Task(2, "walk dog", false);
    assert [milk] + [dog] == [milk, dog];
    MarkFirstOfTwo(milk, dog);
    RemoveSecondOfTwo(milk.(done := true), dog);
  }

  lemma MarkFirstOfTwo(a: Task, b: Task)
    requires a.id != b.id
    ensures TaskStore.MarkDone([a, b], a.id) == TaskStore.Edit([a.(done := true), b], true)
  {
  }

  lemma RemoveSecondOfTwo(a: Task, b: Task)
    requires a.id != b.id
    ensures TaskStore.RemoveTask([a, b], b.id) == TaskStore.Edit([a], true)
    ensures TaskStore.RemoveTask([a], b.id) == TaskStore.Edit([a], false)
  {
  }
}
