/**
 * The add-task form: its fields `title`, `description`, `status` and the
 * `error` it shows. Choosing values in the inputs assigns those fields
 * directly. The `onAddTask(task)` callback is returned as the fields it is
 * called with.
 */
module TaskFormComponent {
  import opened Tasks
  import Backend

  const RequiredMessage := "All fields are required."

  class TaskForm {
    var title: string
    var description: string
    var status: string
    var error: string

    constructor ()
      ensures title == "" && description == "" && status == "todo" && error == ""
    {
      title := "";
      description := "";
      status := "todo";
      error := "";
    }

    /**
     * `handleSubmit`: with any field empty, show the error and keep the
     * fields; otherwise call `onAddTask` once with the fields and reset the
     * form. The form lets through exactly the bodies the server accepts.
     */
    method HandleSubmit() returns (added: Option<TaskFields>)
      modifies this
      ensures added.None? <==> old(title) == "" || old(description) == "" || old(status) == ""
      ensures added.None? <==> !Backend.ValidateTask(TaskFields(old(title), old(description), old(status)))
      ensures added.None? ==>
                && error == RequiredMessage
                && title == old(title) && description == old(description) && status == old(status)
      ensures added.Some? ==>
                && added.value == TaskFields(old(title), old(description), old(status))
                && title == "" && description == "" && status == "todo" && error == ""
    {
      if title == "" || description == "" || status == "" {
        error := RequiredMessage;
        return None;
      }
      added := Some(TaskFields(title, description, status));
      title := "";
      description := "";
      status := "todo";
      error := "";
    }
  }
}
