/**
 * One rendered task: its completion toggle and its inline editor. The
 * editor's local state is `isEditing` with the edited `title` and
 * `description`; typing into the inputs assigns those fields directly.
 * The `onUpdate(id, fields)` callback is returned as an `UpdateCall`.
 */
module TaskItemComponent {
  import opened Tasks
  import opened JsText
  import Backend

  /** An `onUpdate(id, fields)` call. */
  datatype UpdateCall = UpdateCall(id: int, fields: TaskFields)

  /** The status a toggle sends: `'todo'` after `'done'`, `'done'` after anything else. */
  function ToggledStatus(status: string): (r: string)
    ensures r == "todo" || r == "done"
    ensures r == "todo" <==> status == "done"
    ensures r != status
  {
    if status == "done" then "todo" else "done"
  }

  /** Toggling twice returns a `'todo'` or `'done'` task to where it was; `'in progress'` ends at `'todo'`. */
  lemma ToggleTwice(status: string)
    ensures status == "todo" || status == "done" ==> ToggledStatus(ToggledStatus(status)) == status
    ensures status == "in progress" ==> ToggledStatus(ToggledStatus(status)) == "todo"
  {
  }

  /**
   * A whitespace-only title passes the add form's emptiness check (and the
   * server's validation) but not the editor's trimmed check.
   */
  lemma BlankTitleAcceptedByServerNotByEditor(title: string, description: string, status: string)
    requires title != "" && IsBlank(title)
    requires description != "" && status != ""
    ensures Backend.ValidateTask(TaskFields(title, description, status))
    ensures Trim(title) == ""
  {
    TrimEmptyIffBlank(title);
  }

  class TaskItem {
    const task: Task
    var isEditing: bool
    var title: string
    var description: string

    constructor (task: Task)
      ensures this.task == task
      ensures !isEditing && title == task.title && description == task.description
    {
      this.task := task;
      isEditing := false;
      title := task.title;
      description := task.description;
    }

    /**
     * `toggleComplete`: asks for the task's own id, title and description
     * with the other status. A stored task's toggle passes the server's
     * validation.
     */
    method ToggleComplete() returns (call: UpdateCall)
      ensures call.id == task.id
      ensures call.fields.title == task.title && call.fields.description == task.description
      ensures call.fields.status == (if task.status == "done" then "todo" else "done")
      ensures call.fields.status != task.status
      ensures Backend.ValidateTask(FieldsOf(task)) ==> Backend.ValidateTask(call.fields)
    {
      var newStatus := ToggledStatus(task.status);
      call := UpdateCall(task.id, TaskFields(task.title, task.description, newStatus));
    }

    /** The Edit button: `setIsEditing(true)`. */
    method StartEditing()
      modifies this
      ensures isEditing && title == old(title) && description == old(description)
    {
      isEditing := true;
    }

    /**
     * `handleSave`: when the trimmed title or trimmed description is empty
     * (that is, either is all whitespace) nothing is sent and nothing
     * changes; otherwise the edited, untrimmed title and description are
     * sent with the task's current status and the editor closes.
     */
    method HandleSave() returns (call: Option<UpdateCall>)
      modifies this
      ensures title == old(title) && description == old(description)
      ensures call.None? <==> IsBlank(title) || IsBlank(description)
      ensures call.None? ==> isEditing == old(isEditing)
      ensures call.Some? ==>
                && call.value == UpdateCall(task.id, TaskFields(title, description, task.status))
                && !isEditing
      ensures call.Some? && task.status != "" ==> Backend.ValidateTask(call.value.fields)
    {
      TrimEmptyIffBlank(title);
      TrimEmptyIffBlank(description);
      if Trim(title) == "" || Trim(description) == "" {
        return None;
      }
      TrimNonEmptyImpliesNonEmpty(title);
      TrimNonEmptyImpliesNonEmpty(description);
      call := Some(UpdateCall(task.id, TaskFields(title, description, task.status)));
      isEditing := false;
    }

    /** `handleCancel`: drop the edits and close the editor. */
    method HandleCancel()
      modifies this
      ensures title == task.title && description == task.description && !isEditing
    {
      title := task.title;
      description := task.description;
      isEditing := false;
    }
  }
}
