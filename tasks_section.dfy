/** The task checklist: append, toggle and delete by id, each a whole-list
    replacement. */
module TasksSection {
  import opened Types
  import opened Seqs

  /** `addTask`: a new open task at the end of the list. */
  function AddTask(tasks: seq<Task>, id: int, text: string): (r: seq<Task>)
    ensures |r| == |tasks| + 1 && r[..|tasks|] == tasks
    ensures r[|tasks|] == Task(id, text, false)
  {
    tasks + [Task(id, text, false)]
  }

  function Toggled(t: Task, id: int): Task {
    if t.id == id then t.(completed := !t.completed) else t
  }

  /** `toggleTask`: flip `completed` on the tasks with the id, keep every other task. */
  function ToggleTask(tasks: seq<Task>, id: int): (r: seq<Task>)
    ensures |r| == |tasks|
    ensures forall i :: 0 <= i < |r| ==> r[i].id == tasks[i].id && r[i].text == tasks[i].text
    ensures forall i :: 0 <= i < |r| ==> (r[i].completed != tasks[i].completed <==> tasks[i].id == id)
  {
    seq(|tasks|, i requires 0 <= i < |tasks| => Toggled(tasks[i], id))
  }

  /** Toggling the same id twice restores the list. */
  lemma ToggleTwice(tasks: seq<Task>, id: int)
    ensures ToggleTask(ToggleTask(tasks, id), id) == tasks
  {
    var r := ToggleTask(ToggleTask(tasks, id), id);
    assert forall i :: 0 <= i < |tasks| ==> r[i] == tasks[i];
  }

  /** Toggling an id no task has leaves the list as it is. */
  lemma ToggleAbsent(tasks: seq<Task>, id: int)
    requires forall i :: 0 <= i < |tasks| ==> tasks[i].id != id
    ensures ToggleTask(tasks, id) == tasks
  {
    assert forall i :: 0 <= i < |tasks| ==> ToggleTask(tasks, id)[i] == tasks[i];
  }

  /** The filter test of `deleteTask`. */
  function OtherThan(id: int): Task -> bool {
    (t: Task) => t.id != id
  }

  /** `deleteTask`: every task but those with the id. */
  function DeleteTask(tasks: seq<Task>, id: int): (r: seq<Task>)
    ensures |r| <= |tasks|
    ensures forall i :: 0 <= i < |r| ==> r[i].id != id && r[i] in tasks
    ensures forall i :: 0 <= i < |tasks| && tasks[i].id != id ==> tasks[i] in r
  {
    Filter(tasks, OtherThan(id))
  }

  /** Deleting keeps the surviving tasks in their order. */
  lemma DeleteTaskKeepsOrder(a: seq<Task>, b: seq<Task>, id: int)
    ensures DeleteTask(a + b, id) == DeleteTask(a, id) + DeleteTask(b, id)
  {
    FilterAppend(a, b, OtherThan(id));
  }

  lemma DeleteTaskIdempotent(tasks: seq<Task>, id: int)
    ensures DeleteTask(DeleteTask(tasks, id), id) == DeleteTask(tasks, id)
  {
    FilterIdempotent(tasks, OtherThan(id));
  }

  /** Deleting an id no task has leaves the list as it is. */
  lemma DeleteAbsentTask(tasks: seq<Task>, id: int)
    requires forall i :: 0 <= i < |tasks| ==> tasks[i].id != id
    ensures DeleteTask(tasks, id) == tasks
  {
    FilterKeepsAll(tasks, OtherThan(id));
  }

  /** Deleting a freshly appended task by its (fresh) id restores the list. */
  lemma DeleteUndoesAdd(tasks: seq<Task>, id: int, text: string)
    requires forall i :: 0 <= i < |tasks| ==> tasks[i].id != id
    ensures DeleteTask(AddTask(tasks, id, text), id) == tasks
  {
    DeleteTaskKeepsOrder(tasks, [Task(id, text, false)], id);
    DeleteAbsentTask(tasks, id);
    assert DeleteTask([Task(id, text, false)], id) == [];
  }
}
