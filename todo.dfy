/**
 * Todo.jsx: the add form and the paged task table. The component keeps the form
 * fields and the paging position as its own state and hands new tasks and row
 * toggles to App through its `addTask` and `toggleComplete` props.
 */
module Todo {
  import opened Wrappers
  import opened Tasks
  import opened Pagination
  import opened App

  /** `useState(5)` for rows per page, one of the choices `[5, 10, 15]` the pagination control offers. */
  const InitialRowsPerPage: nat := 5
  const RowsPerPageOptions: seq<nat> := [5, 10, 15]

  lemma InitialRowsPerPageIsOffered()
    ensures InitialRowsPerPage in RowsPerPageOptions
  {
  }

  /**
   * The task `handleAddTask` builds from the form: `input.trim() || ''`,
   * `priority || 'low'`, `dueDate || dayjs()` (with `now` standing for `dayjs()`),
   * `completed: false`, and no `id`.
   */
  function DraftTask(input: string, priority: string, dueDate: Option<Timestamp>, now: Timestamp): (t: Task)
    ensures t.text == Trim(input)
    ensures priority != "" ==> t.priority == priority
    ensures priority == "" ==> t.priority == "low"
    ensures dueDate.Some? ==> t.dueDate == dueDate
    ensures dueDate.None? ==> t.dueDate == Some(now)
    ensures !t.completed && t.id == None
  {
    Task(
      None,
      StringOr(Trim(input), ""),
      StringOr(priority, "low"),
      if dueDate.Some? then dueDate else Some(now),
      false)
  }

  /** A blank or whitespace-only input gives a task whose text is the empty string. */
  lemma DraftOfBlankInput(input: string, priority: string, dueDate: Option<Timestamp>, now: Timestamp)
    requires AllWhitespace(input)
    ensures DraftTask(input, priority, dueDate, now).text == ""
  {
    TrimEmptyIff(input);
  }

  /** When the priority select holds one of its options or nothing, the draft's priority is one of the three options. */
  lemma DraftPriorityIsOption(input: string, priority: string, dueDate: Option<Timestamp>, now: Timestamp)
    requires priority == "" || IsPriorityOption(priority)
    ensures IsPriorityOption(DraftTask(input, priority, dueDate, now).priority)
  {
  }

  /**
   * The list position that holds the task shown in row `row` of `page`: the
   * page's first position plus the row.
   */
  function DisplayedTaskIndex(tasks: seq<Task>, page: nat, rowsPerPage: nat, row: nat): (index: nat)
    requires row < |PageWindow(tasks, page, rowsPerPage)|
    ensures index < |tasks| && tasks[index] == PageWindow(tasks, page, rowsPerPage)[row]
  {
    PageStart(page, rowsPerPage) + row
  }

  /**
   * As written (`toggleComplete(index)` with the row's position on the page), on any
   * page after the first a click toggles the task at list position `row`, which is
   * not the task shown in that row, and the page being looked at does not change.
   */
  lemma RowToggleMissesLaterPages(tasks: seq<Task>, page: nat, rowsPerPage: nat, row: nat)
    requires 0 < page && row < |PageWindow(tasks, page, rowsPerPage)|
    ensures && row < |tasks|
      && row != DisplayedTaskIndex(tasks, page, rowsPerPage, row)
      && Toggled(tasks, row)[row] == Flip(tasks[row])
      && PageWindow(Toggled(tasks, row), page, rowsPerPage) == PageWindow(tasks, page, rowsPerPage)
  {
    var start := PageStart(page, rowsPerPage);
    assert rowsPerPage <= start by {
      MulMonotone(1, page, rowsPerPage);
    }
    var before, after := PageWindow(tasks, page, rowsPerPage), PageWindow(Toggled(tasks, row), page, rowsPerPage);
    assert forall k :: 0 <= k < |after| ==> after[k] == before[k];
  }

  /** The concrete case: six tasks, five rows per page, clicking the only row of page 1 flips task 0 and not task 5. */
  lemma RowToggleOnSecondPage(t0: Task, t1: Task, t2: Task, t3: Task, t4: Task, t5: Task)
    ensures var tasks := [t0, t1, t2, t3, t4, t5];
      && PageWindow(tasks, 1, 5) == [t5]
      && Toggled(tasks, 0) == [Flip(t0), t1, t2, t3, t4, t5]
  {
    var tasks := [t0, t1, t2, t3, t4, t5];
    assert PageWindow(tasks, 1, 5) == [t5];
    var r := Toggled(tasks, 0);
    assert r == [r[0], r[1], r[2], r[3], r[4], r[5]];
  }

  /**
   * With the displayed task's position, clicking a row flips exactly that row of
   * the visible page and leaves the rest of the page as it was.
   */
  lemma DisplayedToggleFlipsThatRow(tasks: seq<Task>, page: nat, rowsPerPage: nat, row: nat)
    requires row < |PageWindow(tasks, page, rowsPerPage)|
    ensures var index := DisplayedTaskIndex(tasks, page, rowsPerPage, row);
      && index < |tasks|
      && tasks[index] == PageWindow(tasks, page, rowsPerPage)[row]
      && PageWindow(Toggled(tasks, index), page, rowsPerPage) == Toggled(PageWindow(tasks, page, rowsPerPage), row)
  {
    var index := DisplayedTaskIndex(tasks, page, rowsPerPage, row);
    WindowOfToggled(tasks, page, rowsPerPage, index);
    var after, expected := PageWindow(Toggled(tasks, index), page, rowsPerPage), Toggled(PageWindow(tasks, page, rowsPerPage), row);
    assert forall k :: 0 <= k < |after| ==> after[k] == expected[k];
  }

  /** The page of a toggled list: the same rows, with the row at `index` flipped if it is on this page. */
  lemma WindowOfToggled(tasks: seq<Task>, page: nat, rowsPerPage: nat, index: int)
    ensures var start, before, after := PageStart(page, rowsPerPage), PageWindow(tasks, page, rowsPerPage), PageWindow(Toggled(tasks, index), page, rowsPerPage);
      && |after| == |before|
      && forall k :: 0 <= k < |after| ==> after[k] == if start + k == index then Flip(before[k]) else before[k]
  {
  }

  /** On the first page the row's position is the displayed task's position, so the table behaves as intended there. */
  lemma FirstPageIndicesAgree(tasks: seq<Task>, rowsPerPage: nat, row: nat)
    requires row < |PageWindow(tasks, 0, rowsPerPage)|
    ensures DisplayedTaskIndex(tasks, 0, rowsPerPage, row) == row
  {
  }

  /** The component's state; `store` is the App whose handlers are its `addTask` and `toggleComplete` props. */
  class TodoView {
    var input: string
    var priority: string
    var dueDate: Option<Timestamp>
    var page: nat
    var rowsPerPage: nat
    const store: TaskStore

    /** The `useState` initial values: an empty form, page 0, five rows per page. */
    constructor (store: TaskStore)
      ensures this.store == store
      ensures input == "" && priority == "" && dueDate == None
      ensures page == 0 && rowsPerPage == InitialRowsPerPage
    {
      this.store := store;
      input, priority, dueDate := "", "", None;
      page, rowsPerPage := 0, InitialRowsPerPage;
    }

    /** The text field's `onChange`: `setInput(e.target.value)`. */
    method SetInput(value: string)
      modifies this`input
      ensures input == value
    {
      input := value;
    }

    /** The priority select's `onChange`: `setPriority(e.target.value)`. */
    method SetPriority(value: string)
      modifies this`priority
      ensures priority == value
    {
      priority := value;
    }

    /** The date picker's `onChange`: `setDueDate(newValue)`; clearing it gives `None`. */
    method SetDueDate(value: Option<Timestamp>)
      modifies this`dueDate
      ensures dueDate == value
    {
      dueDate := value;
    }

    /**
     * `handleAddTask`: hands the draft built from the form to App, which appends it,
     * then clears the three form fields. The paging position is untouched.
     */
    method HandleAddTask(now: Timestamp)
      modifies this`input, this`priority, this`dueDate, store
      ensures store.tasks == Appended(old(store.tasks), DraftTask(old(input), old(priority), old(dueDate), now))
      ensures input == "" && priority == "" && dueDate == None
    {
      var draft := DraftTask(input, priority, dueDate, now);
      store.HandleAddTask(draft);
      ResetForm();
    }

    /** The three resets that end `handleAddTask`: `setInput('')`, `setPriority('')`, `setDueDate(null)`. */
    method ResetForm()
      modifies this`input, this`priority, this`dueDate
      ensures input == "" && priority == "" && dueDate == None
    {
      input := "";
      priority := "";
      dueDate := None;
    }

    /** `handleChangePage(event, newPage)`: only the page changes. */
    method HandleChangePage(newPage: nat)
      modifies this`page
      ensures page == newPage
    {
      page := newPage;
    }

    /** `handleChangeRowsPerPage(event)`: the new page size, and back to the first page. */
    method HandleChangeRowsPerPage(newRowsPerPage: nat)
      modifies this`rowsPerPage, this`page
      ensures rowsPerPage == newRowsPerPage && page == 0
    {
      rowsPerPage := newRowsPerPage;
      page := 0;
    }

    /** The rows the table shows (line 107). */
    function VisibleRows(): (rows: seq<Task>)
      reads this, store
      ensures |rows| <= rowsPerPage
      ensures |store.tasks| <= PageStart(page, rowsPerPage) ==> rows == []
      ensures PageStart(page, rowsPerPage) < |store.tasks| ==>
        |rows| == Min(rowsPerPage, |store.tasks| - PageStart(page, rowsPerPage))
      ensures forall i :: 0 <= i < |rows| ==> PageStart(page, rowsPerPage) + i < |store.tasks| && rows[i] == store.tasks[PageStart(page, rowsPerPage) + i]
    {
      PageWindow(store.tasks, page, rowsPerPage)
    }

    /** The props of the pagination control: the whole list's length, and the choices 5, 10 and 15. */
    function PagerProps(): (p: Pager)
      reads this, store
      ensures p.count == |store.tasks| && |VisibleRows()| <= p.count
      ensures p.page == page && p.rowsPerPage == rowsPerPage && p.rowsPerPageOptions == RowsPerPageOptions
    {
      Pager(|store.tasks|, page, rowsPerPage, RowsPerPageOptions)
    }

    /**
     * A click on row `row` of the table or on its checkbox (the checkbox stops the
     * event there, so one click toggles once): App is handed the row's position
     * on the page, `row`, and toggles that list position, which lies inside the list.
     */
    method ToggleRow(row: nat)
      requires row < |VisibleRows()|
      modifies store
      ensures row < |old(store.tasks)|
      ensures store.tasks == Toggled(old(store.tasks), row)
    {
      store.HandleToggleComplete(row);
    }
  }
}
