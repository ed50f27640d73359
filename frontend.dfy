/**
 * The client's list state (`tasks`, `loading`, `error`, `filter`) and the
 * handlers that update it after a server call. Each call's outcome is a
 * parameter: the value the call resolved with, or the message it was
 * rejected with.
 */
module Frontend {
  import opened Tasks

  /** How an awaited server call ended. */
  datatype Call<T> = Resolved(value: T) | Rejected(message: string)

  const FetchFailedMessage :=
    "Failed to fetch tasks. Please check your network connection and ensure the backend is running."

  /** The message shown when `action` ("add", "remove", "update") fails with `reason`. */
  function FailedMessage(action: string, reason: string): (m: string)
    ensures m != ""
  {
    "Failed to " + action + " task: " + reason + ". Please try again."
  }

  class App {
    var tasks: seq<Task>
    var loading: bool
    var error: Option<string>
    var filter: string

    constructor ()
      ensures tasks == [] && loading && error == None && filter == "all"
    {
      tasks := [];
      loading := true;
      error := None;
      filter := "all";
    }

    /** `fetchTasks`, where `outcome` is how `getTasks()` ended. */
    method FetchTasks(outcome: Call<seq<Task>>)
      modifies this
      ensures !loading && filter == old(filter)
      ensures outcome.Resolved? ==> tasks == outcome.value && error == None
      ensures outcome.Rejected? ==> tasks == old(tasks) && error == Some(FetchFailedMessage)
    {
      loading := true;
      error := None;
      match outcome {
        case Resolved(data) =>
          tasks := data;
        case Rejected(_) =>
          error := Some(FetchFailedMessage);
      }
      loading := false;
    }

    /** `handleAddTask`, where `outcome` is how `addTask(newTask)` ended. */
    method HandleAddTask(outcome: Call<Task>)
      modifies this
      ensures loading == old(loading) && filter == old(filter)
      ensures outcome.Resolved? ==> tasks == old(tasks) + [outcome.value] && error == old(error)
      ensures outcome.Rejected? ==>
                tasks == old(tasks) && error == Some(FailedMessage("add", outcome.message))
    {
      match outcome {
        case Resolved(added) =>
          tasks := tasks + [added];
        case Rejected(reason) =>
          error := Some(FailedMessage("add", reason));
      }
    }

    /** `handleRemoveTask(id)`, where `outcome` is how `removeTask(id)` ended. */
    method HandleRemoveTask(id: int, outcome: Call<bool>)
      modifies this
      ensures loading == old(loading) && filter == old(filter)
      ensures outcome.Resolved? ==> tasks == WithoutId(old(tasks), id) && error == old(error)
      ensures outcome.Rejected? ==>
                tasks == old(tasks) && error == Some(FailedMessage("remove", outcome.message))
    {
      match outcome {
        case Resolved(_) =>
          tasks := WithoutId(tasks, id);
        case Rejected(reason) =>
          error := Some(FailedMessage("remove", reason));
      }
    }

    /** `handleUpdateTask(id, fields)`, where `outcome` is how `updateTask(id, fields)` ended. */
    method HandleUpdateTask(id: int, outcome: Call<Task>)
      modifies this
      ensures loading == old(loading) && filter == old(filter)
      ensures outcome.Resolved? ==> tasks == ReplaceId(old(tasks), id, outcome.value) && error == old(error)
      ensures outcome.Rejected? ==>
                tasks == old(tasks) && error == Some(FailedMessage("update", outcome.message))
    {
      match outcome {
        case Resolved(updated) =>
          tasks := ReplaceId(tasks, id, updated);
        case Rejected(reason) =>
          error := Some(FailedMessage("update", reason));
      }
    }

    /**
     * `filteredTasks`: the list the page renders, which is every task under
     * the filter `'all'` and otherwise the tasks whose status equals the
     * filter, in order.
     */
    function FilteredTasks(): (r: seq<Task>)
      reads this
      ensures filter == "all" ==> r == tasks
      ensures filter != "all" ==> r == WithStatus(tasks, filter)
      ensures filter != "all" ==> forall t :: t in r <==> t in tasks && t.status == filter
      ensures filter != "all" ==>
                forall t :: multiset(r)[t] == (if t.status == filter then multiset(tasks)[t] else 0)
      ensures IsSubsequence(r, tasks)
    {
      if filter == "all" then
        SelfIsSubsequence(tasks);
        tasks
      else
        WithStatusIsSubsequence(tasks, filter);
        WithStatus(tasks, filter)
    }
  }
}
