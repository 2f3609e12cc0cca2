/**
 * TaskDialog.jsx: the add/edit dialog. It holds no state of its own: its handlers
 * pass a new copy of the `task` prop to `setTask`, and Save calls `onSave` and then
 * `onClose`.
 */
module TaskDialog {
  import opened Wrappers
  import opened Tasks

  /** The two fields `handleChange` is bound to: `handleChange('text')` and `handleChange('priority')`. */
  datatype Field = Text | Priority

  /** The value of a string field of a task. */
  function FieldValue(task: Task, field: Field): string {
    match field
    case Text => task.text
    case Priority => task.priority
  }

  /**
   * `handleChange(field)(event)`: the task passed to `setTask`, `{ ...task, [field]: value }`.
   * The chosen field holds the new value; every other field keeps its old one.
   */
  function HandleChange(task: Task, field: Field, value: string): (r: Task)
    ensures FieldValue(r, field) == value
    ensures forall other :: other != field ==> FieldValue(r, other) == FieldValue(task, other)
    ensures r.id == task.id && r.dueDate == task.dueDate && r.completed == task.completed
  {
    match field
    case Text => task.(text := value)
    case Priority => task.(priority := value)
  }

  /** `handleDateChange(date)`: the task passed to `setTask`, with only the due date replaced (`None` when the picker is cleared). */
  function HandleDateChange(task: Task, date: Option<Timestamp>): (r: Task)
    ensures r.dueDate == date
    ensures r.id == task.id && r.text == task.text && r.priority == task.priority && r.completed == task.completed
  {
    task.(dueDate := date)
  }

  /** A change written back with the value the field already holds gives the same task. */
  lemma ChangeToSameValue(task: Task, field: Field)
    ensures HandleChange(task, field, FieldValue(task, field)) == task
  {
  }

  /** Two changes of one field: the later value wins. */
  lemma LaterChangeWins(task: Task, field: Field, first: string, second: string)
    ensures HandleChange(HandleChange(task, field, first), field, second) == HandleChange(task, field, second)
  {
  }

  /** Changes of different fields, or of a field and the due date, can be made in either order. */
  lemma ChangesCommute(task: Task, field: Field, field': Field, value: string, value': string, date: Option<Timestamp>)
    requires field != field'
    ensures HandleChange(HandleChange(task, field, value), field', value') == HandleChange(HandleChange(task, field', value'), field, value)
    ensures HandleDateChange(HandleChange(task, field, value), date) == HandleChange(HandleDateChange(task, date), field, value)
  {
  }

  /** A call the dialog makes on its parent's callbacks. */
  datatype DialogCall = OnSave(task: Task) | OnClose

  /** `handleSave`: first `onSave(task)` with the task exactly as given, then `onClose()`. */
  function HandleSave(task: Task): (calls: seq<DialogCall>)
    ensures |calls| == 2
    ensures calls[0] == OnSave(task) && calls[1] == OnClose
  {
    [OnSave(task), OnClose]
  }

  /** The Cancel button: only `onClose()`, nothing is saved. */
  function HandleCancel(): (calls: seq<DialogCall>)
    ensures forall i :: 0 <= i < |calls| ==> !calls[i].OnSave?
    ensures |calls| == 1 && calls[0] == OnClose
  {
    [OnClose]
  }

  const EditTitle := "Edit Task"
  const AddTitle := "Add New Task"

  /** `task.id ? 'Edit Task' : 'Add New Task'`: the edit title exactly when the id is truthy. */
  function Title(task: Task): (title: string)
    ensures title == EditTitle <==> IdIsTruthy(task.id)
    ensures title == AddTitle <==> !IdIsTruthy(task.id)
  {
    if IdIsTruthy(task.id) then EditTitle else AddTitle
  }

  /** A null id and the id 0 both give the add title. */
  lemma FalsyIdsGiveAddTitle(task: Task)
    requires task.id == None || task.id == Some(0)
    ensures Title(task) == AddTitle
  {
  }

  /** Editing a field or the due date never turns an add dialog into an edit dialog, or back. */
  lemma EditsKeepTitle(task: Task, field: Field, value: string, date: Option<Timestamp>)
    ensures Title(HandleChange(task, field, value)) == Title(task)
    ensures Title(HandleDateChange(task, date)) == Title(task)
  {
  }

  /**
   * The test fixture `{ id: null, name: '', priority: 'Low', dueDate: null }` gets the
   * add title, and saving it reports that task unchanged, then closes. The fixture has
   * no `text` or `completed` key (its `name` is not a field the dialog uses); they are
   * written here as `""` and `false`, and neither fact depends on them.
   */
  lemma BlankTaskDialog()
    ensures var blank := Task(None, "", "Low", None, false);
      && Title(blank) == AddTitle
      && HandleSave(blank) == [OnSave(blank), OnClose]
  {
  }
}
