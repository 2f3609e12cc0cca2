/**
 * App.jsx: the owner of the task list. Its state `tasks` is replaced wholesale by
 * two handlers: adding appends a task, toggling flips `completed` at one position.
 */
module App {
  import opened Tasks

  /** `[...tasks, task]`: the old list, unchanged and in order, followed by the new task. */
  function Appended(s: seq<Task>, t: Task): (r: seq<Task>)
    ensures |r| == |s| + 1
    ensures r[..|s|] == s
    ensures r[|s|] == t
  {
    s + [t]
  }

  /**
   * `tasks.map((task, idx) => idx === index ? { ...task, completed: !task.completed } : task)`:
   * the same length, the element at `index` flipped, every other element untouched.
   * An `index` outside the list matches no `idx`, so nothing changes.
   */
  function Toggled(s: seq<Task>, index: int): (r: seq<Task>)
    ensures |r| == |s|
    ensures 0 <= index < |s| ==> r[index] == Flip(s[index])
    ensures forall i :: 0 <= i < |s| && i != index ==> r[i] == s[i]
  {
    if s == [] then []
    else
      var last := |s| - 1;
      Toggled(s[..last], index) + [if last == index then Flip(s[last]) else s[last]]
  }

  /** Toggling a position outside the list leaves the list as it was. */
  lemma ToggleOutOfRange(s: seq<Task>, index: int)
    requires index < 0 || |s| <= index
    ensures Toggled(s, index) == s
  {
    assert forall i :: 0 <= i < |s| ==> Toggled(s, index)[i] == s[i];
  }

  /** Toggling the same position twice restores the original list. */
  lemma ToggleTwice(s: seq<Task>, index: int)
    ensures Toggled(Toggled(s, index), index) == s
  {
    var r := Toggled(Toggled(s, index), index);
    forall i | 0 <= i < |s| ensures r[i] == s[i] {
      if i == index {
        FlipTwice(s[i]);
      }
    }
  }

  /** Toggles at two positions can be applied in either order. */
  lemma TogglesCommute(s: seq<Task>, i: int, j: int)
    ensures Toggled(Toggled(s, i), j) == Toggled(Toggled(s, j), i)
  {
    var a, b := Toggled(Toggled(s, i), j), Toggled(Toggled(s, j), i);
    assert forall k :: 0 <= k < |s| ==> a[k] == b[k];
  }

  /** Toggling an existing task and adding a task can be applied in either order. */
  lemma ToggleThenAppend(s: seq<Task>, t: Task, index: int)
    requires index < |s|
    ensures Toggled(Appended(s, t), index) == Appended(Toggled(s, index), t)
  {
    var a, b := Toggled(Appended(s, t), index), Appended(Toggled(s, index), t);
    assert forall k :: 0 <= k < |s| + 1 ==> a[k] == b[k];
  }

  /** Toggling the task just added flips it and only it. */
  lemma ToggleJustAppended(s: seq<Task>, t: Task)
    ensures Toggled(Appended(s, t), |s|) == Appended(s, Flip(t))
  {
    assert Appended(s, t)[..|s|] == s;
    ToggleOutOfRange(s, |s|);
  }

  /** The `tasks` state of App with its two handlers. */
  class TaskStore {
    var tasks: seq<Task>

    /** `useState([])`. */
    constructor ()
      ensures tasks == []
    {
      tasks := [];
    }

    /** `handleAddTask(task)`: the list becomes the old list followed by `task`. */
    method HandleAddTask(task: Task)
      modifies this
      ensures tasks == Appended(old(tasks), task)
    {
      tasks := Appended(tasks, task);
    }

    /** `handleToggleComplete(index)`: the list becomes the old list with `index` toggled. */
    method HandleToggleComplete(index: int)
      modifies this
      ensures tasks == Toggled(old(tasks), index)
    {
      tasks := Toggled(tasks, index);
    }
  }
}
