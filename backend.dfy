/**
 * The backend task store: the in-memory `tasks` list and the `nextId`
 * counter, with one method per REST handler (GET, POST, PUT and DELETE on
 * `/tasks`). Each handler's HTTP reply is returned as a `Reply`.
 */
module Backend {
  import opened Tasks

  const BadRequestMessage := "Title, description, and status are required"
  const NotFoundMessage := "Task not found"

  /** A response body: a task as JSON, nothing, or `{ error }`. */
  datatype Body = TaskBody(task: Task) | Empty | ErrorBody(error: string)

  /** `res.status(code)` with its body. */
  datatype Reply = Reply(code: int, body: Body)

  /** JavaScript truthiness of a string field. */
  predicate Truthy(s: string)
  {
    s != ""
  }

  /** `validateTask`: `title && description && status`, each field truthy. */
  predicate ValidateTask(f: TaskFields)
  {
    Truthy(f.title) && Truthy(f.description) && Truthy(f.status)
  }

  /** The six tasks the store starts with. */
  function SeedTasks(): seq<Task>
  {
    [ Task(1, "Finish report", "Complete Q3 summary", "todo"),
      Task(2, "Team meeting", "Discuss project goals", "todo"),
      Task(3, "Internship Task", "Complete internship module", "todo"),
      Task(4, "Gym", "Workout at 6 PM", "done"),
      Task(5, "DSA Practice", "Solve 6 DSA questions", "done"),
      Task(6, "Miscellaneous", "Random task to check off", "todo") ]
  }

  /** The seed data satisfies the store invariant with `nextId = 7`. */
  lemma SeedIsValid()
    ensures IdsDistinct(SeedTasks())
    ensures forall t :: t in SeedTasks() ==> 1 <= t.id < 7 && ValidateTask(FieldsOf(t))
  {
    var s := SeedTasks();
    forall i, j | 0 <= i < |s| && 0 <= j < |s| && s[i].id == s[j].id ensures i == j {
      assert s[i].id == i + 1 && s[j].id == j + 1;
    }
  }

  class Store {
    var tasks: seq<Task>
    var nextId: int
    /** Every id the store has ever handed out, including those since deleted. */
    ghost var issued: set<int>

    /**
     * Ids are pairwise distinct, every stored id was issued, every issued id
     * lies in [1, nextId), and every stored task has non-empty fields.
     */
    ghost predicate Valid()
      reads this
    {
      && 1 <= nextId
      && IdsDistinct(tasks)
      && (forall t :: t in tasks ==> t.id in issued && ValidateTask(FieldsOf(t)))
      && (forall id :: id in issued ==> 1 <= id < nextId)
    }

    constructor ()
      ensures Valid()
      ensures tasks == SeedTasks() && nextId == 7
      ensures issued == {1, 2, 3, 4, 5, 6}
    {
      tasks := SeedTasks();
      nextId := 7;
      issued := {1, 2, 3, 4, 5, 6};
      SeedIsValid();
    }

    /**
     * `GET /tasks[?status=S]`: the whole list when the query has no status
     * (or an empty one), otherwise the tasks whose status equals it, in
     * stored order.
     */
    method List(query: Option<string>) returns (result: seq<Task>)
      ensures query.None? || query.value == "" ==> result == tasks
      ensures query.Some? && query.value != "" ==>
                result == WithStatus(tasks, query.value)
                && (forall t :: t in result <==> t in tasks && t.status == query.value)
      ensures IsSubsequence(result, tasks)
    {
      if query.Some? && query.value != "" {
        result := WithStatus(tasks, query.value);
        WithStatusIsSubsequence(tasks, query.value);
      } else {
        result := tasks;
        SelfIsSubsequence(tasks);
      }
    }

    /** `tasks.find(t => t.id === id)`, as the position of the task it returns. */
    method Find(id: int) returns (found: Option<nat>)
      ensures found == IndexOfId(tasks, id)
    {
      var i := 0;
      while i < |tasks|
        invariant 0 <= i <= |tasks|
        invariant forall j :: 0 <= j < i ==> tasks[j].id != id
      {
        if tasks[i].id == id {
          FirstIndexIsIndexOf(tasks, id, i);
          return Some(i);
        }
        i := i + 1;
      }
      found := None;
    }

    /** `POST /tasks` */
    method Create(body: TaskFields) returns (reply: Reply)
      requires Valid()
      modifies this
      ensures Valid()
      ensures !ValidateTask(body) ==>
                && reply == Reply(400, ErrorBody(BadRequestMessage))
                && tasks == old(tasks) && nextId == old(nextId) && issued == old(issued)
      ensures ValidateTask(body) ==>
                var t := WithId(old(nextId), body);
                && reply == Reply(201, TaskBody(t))
                && tasks == old(tasks) + [t]
                && nextId == old(nextId) + 1
                && issued == old(issued) + {t.id}
                && t.id !in old(issued)
                && (forall u :: u in old(tasks) ==> u.id < t.id)
    {
      if !ValidateTask(body) {
        return Reply(400, ErrorBody(BadRequestMessage));
      }
      var t := WithId(nextId, body);
      nextId := nextId + 1;
      tasks := tasks + [t];
      issued := issued + {t.id};
      reply := Reply(201, TaskBody(t));
      forall i, j | 0 <= i < |tasks| && 0 <= j < |tasks| && tasks[i].id == tasks[j].id
        ensures i == j
      {
        if i < |tasks| - 1 {
          assert tasks[i] in old(tasks);
        }
        if j < |tasks| - 1 {
          assert tasks[j] in old(tasks);
        }
      }
    }

    /** `PUT /tasks/:id` */
    method Update(id: int, body: TaskFields) returns (reply: Reply)
      requires Valid()
      modifies this
      ensures Valid()
      ensures nextId == old(nextId) && issued == old(issued)
      ensures !HasId(old(tasks), id) ==>
                reply == Reply(404, ErrorBody(NotFoundMessage)) && tasks == old(tasks)
      ensures HasId(old(tasks), id) && !ValidateTask(body) ==>
                reply == Reply(400, ErrorBody(BadRequestMessage)) && tasks == old(tasks)
      ensures HasId(old(tasks), id) && ValidateTask(body) ==>
                var i := IndexOfId(old(tasks), id).value;
                var t := WithId(id, body);
                && reply == Reply(200, TaskBody(t))
                && tasks == old(tasks)[i := t]
    {
      var found := Find(id);
      if found.None? {
        return Reply(404, ErrorBody(NotFoundMessage));
      }
      if !ValidateTask(body) {
        return Reply(400, ErrorBody(BadRequestMessage));
      }
      var i := found.value;
      var t := WithId(tasks[i].id, body);
      tasks := tasks[i := t];
      reply := Reply(200, TaskBody(t));
      assert forall u :: u in tasks ==> u == t || u in old(tasks);
      forall k, j | 0 <= k < |tasks| && 0 <= j < |tasks| && tasks[k].id == tasks[j].id
        ensures k == j
      {
        assert old(tasks)[k].id == tasks[k].id && old(tasks)[j].id == tasks[j].id;
      }
    }

    /** `DELETE /tasks/:id` */
    method Delete(id: int) returns (reply: Reply)
      requires Valid()
      modifies this
      ensures Valid()
      ensures nextId == old(nextId) && issued == old(issued)
      ensures tasks == WithoutId(old(tasks), id)
      ensures !HasId(tasks, id)
      ensures !HasId(old(tasks), id) ==>
                reply == Reply(404, ErrorBody(NotFoundMessage)) && tasks == old(tasks)
      ensures HasId(old(tasks), id) ==>
                reply == Reply(204, Empty) && |tasks| == |old(tasks)| - 1
    {
      var initialLength := |tasks|;
      tasks := WithoutId(tasks, id);
      WithoutIdKeepsLengthIffAbsent(old(tasks), id);
      WithoutIdIsSubsequence(old(tasks), id);
      SubsequenceKeepsIdsDistinct(tasks, old(tasks));
      if HasId(old(tasks), id) {
        WithoutPresentIdDropsOne(old(tasks), id);
      }
      if |tasks| == initialLength {
        return Reply(404, ErrorBody(NotFoundMessage));
      }
      reply := Reply(204, Empty);
    }
  }

  /** Dropping tasks (keeping order) cannot make two ids collide. */
  lemma {:induction false} SubsequenceKeepsIdsDistinct(a: seq<Task>, b: seq<Task>)
    requires IsSubsequence(a, b) && IdsDistinct(b)
    ensures IdsDistinct(a)
    ensures forall t :: t in a ==> t in b
    decreases |b|
  {
    if a != [] {
      IdsDistinctTail(b);
      if a[0] == b[0] && IsSubsequence(a[1..], b[1..]) {
        SubsequenceKeepsIdsDistinct(a[1..], b[1..]);
        assert a == [a[0]] + a[1..];
        assert !HasId(a[1..], a[0].id);
        forall i, j | 0 <= i < |a| && 0 <= j < |a| && a[i].id == a[j].id ensures i == j {
          if i > 0 && j > 0 {
            assert a[1..][i - 1].id == a[1..][j - 1].id;
          }
        }
      } else {
        SubsequenceKeepsIdsDistinct(a, b[1..]);
      }
    }
  }

  /**
   * A task posted and then updated shows up under its new status and not
   * under its old one: POST `{A, B, todo}`, then PUT the returned id with
   * `{A2, B2, done}`, then GET `?status=done` and `?status=todo`.
   */
  method PostPutGetScenario(store: Store) returns (created: Reply, updated: Reply, done: seq<Task>, todo: seq<Task>)
    requires store.Valid()
    modifies store
    ensures store.Valid()
    ensures created == Reply(201, TaskBody(Task(old(store.nextId), "A", "B", "todo")))
    ensures updated == Reply(200, TaskBody(Task(old(store.nextId), "A2", "B2", "done")))
    ensures Task(old(store.nextId), "A2", "B2", "done") in done
    ensures forall t :: t in todo ==> t.id != old(store.nextId)
  {
    ghost var before := store.tasks;
    created := store.Create(TaskFields("A", "B", "todo"));
    var id := created.body.task.id;
    ghost var posted := store.tasks;
    ghost var last := |posted| - 1;
    assert posted[last].id == id;
    forall j | 0 <= j < last ensures posted[j].id != id {
      assert posted[j] in before;
    }
    assert HasId(posted, id) by {
      assert posted[last] in posted;
    }
    FirstIndexIsIndexOf(posted, id, last);
    updated := store.Update(id, TaskFields("A2", "B2", "done"));
    assert store.tasks[last] == Task(id, "A2", "B2", "done");
    done := store.List(Some("done"));
    todo := store.List(Some("todo"));
    IdHolderIsUnique(store.tasks, last);
  }
}
