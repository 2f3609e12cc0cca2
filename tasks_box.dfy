/**
 * TasksBox.jsx: a stateless paged table. Each shown row carries callbacks built
 * from its own task: the checkbox reports the task's id and current status, Edit
 * hands over the task, Delete reports the task's id.
 */
module TasksBox {
  import opened Wrappers
  import opened Tasks
  import opened Pagination

  /** The controls on a row. */
  datatype RowControl = Checkbox | EditButton | DeleteButton

  /** A call of one of the component's callback props, with its arguments. */
  datatype Callback =
    | HandleToggleComplete(id: Option<int>, completed: bool)
    | OpenDialog(task: Task)
    | HandleDeleteTask(id: Option<int>)

  /** The rows the table body renders (line 40). */
  function Rows(tasks: seq<Task>, page: nat, rowsPerPage: nat): (rows: seq<Task>)
    ensures |rows| <= rowsPerPage
    ensures |tasks| <= PageStart(page, rowsPerPage) ==> rows == []
    ensures PageStart(page, rowsPerPage) < |tasks| ==>
      |rows| == Min(rowsPerPage, |tasks| - PageStart(page, rowsPerPage))
    ensures forall i :: 0 <= i < |rows| ==> PageStart(page, rowsPerPage) + i < |tasks| && rows[i] == tasks[PageStart(page, rowsPerPage) + i]
  {
    PageWindow(tasks, page, rowsPerPage)
  }

  /** What clicking `control` on the row showing `task` calls (lines 48, 61 and 64). */
  function RowCallback(task: Task, control: RowControl): (c: Callback)
    ensures control == Checkbox <==> c.HandleToggleComplete?
    ensures control == EditButton <==> c.OpenDialog?
    ensures control == DeleteButton <==> c.HandleDeleteTask?
    ensures c.HandleToggleComplete? ==> c.id == task.id && c.completed == task.completed
    ensures c.OpenDialog? ==> c.task == task
    ensures c.HandleDeleteTask? ==> c.id == task.id
  {
    match control
    case Checkbox => HandleToggleComplete(task.id, task.completed)
    case EditButton => OpenDialog(task)
    case DeleteButton => HandleDeleteTask(task.id)
  }

  /** Clicking `control` on row `row` of `page` reports the list task at the page's start plus `row`. */
  function ClickRow(tasks: seq<Task>, page: nat, rowsPerPage: nat, row: nat, control: RowControl): (c: Callback)
    requires row < |Rows(tasks, page, rowsPerPage)|
    ensures PageStart(page, rowsPerPage) + row < |tasks|
    ensures c == RowCallback(tasks[PageStart(page, rowsPerPage) + row], control)
  {
    RowCallback(Rows(tasks, page, rowsPerPage)[row], control)
  }

  /** No two tasks that have an id share it. */
  predicate UniqueIds(tasks: seq<Task>) {
    forall i, j :: 0 <= i < j < |tasks| && tasks[i].id.Some? ==> tasks[i].id != tasks[j].id
  }

  /**
   * With unique ids, the id a row's checkbox or Delete button reports names the
   * task shown in that row and no other task of the list, on any page.
   */
  lemma RowIdNamesDisplayedTask(tasks: seq<Task>, page: nat, rowsPerPage: nat, row: nat, control: RowControl, j: nat)
    requires UniqueIds(tasks)
    requires row < |Rows(tasks, page, rowsPerPage)| && control != EditButton
    requires j < |tasks| && tasks[PageStart(page, rowsPerPage) + row].id.Some?
    requires tasks[j].id == ClickRow(tasks, page, rowsPerPage, row, control).id
    ensures j == PageStart(page, rowsPerPage) + row
  {
    var k := PageStart(page, rowsPerPage) + row;
    if j != k {
      assert false;
    }
  }

  /** The props of the pagination control: the whole list's length, and the single choice of 10 rows. */
  function PagerProps(tasks: seq<Task>, page: nat, rowsPerPage: nat): (p: Pager)
    ensures p.count == |tasks| && |Rows(tasks, page, rowsPerPage)| <= p.count
    ensures p.page == page && p.rowsPerPage == rowsPerPage && p.rowsPerPageOptions == [10]
  {
    Pager(|tasks|, page, rowsPerPage, [10])
  }

}
