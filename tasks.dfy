/**
 * The task entity shared by the backend store and the client, and the list
 * operations both sides apply to a sequence of tasks: filtering by status,
 * filtering out an id, replacing every task with an id, and finding the first
 * task with an id.
 */
module Tasks {

  datatype Option<T> = None | Some(value: T)

  /** A stored task: `{ id, title, description, status }`. */
  datatype Task = Task(id: int, title: string, description: string, status: string)

  /** The editable part of a task, as sent in a POST or PUT body. */
  datatype TaskFields = TaskFields(title: string, description: string, status: string)

  function FieldsOf(t: Task): TaskFields
  {
    TaskFields(t.title, t.description, t.status)
  }

  /** The task `{ id, title, description, status }` built from a body. */
  function WithId(id: int, f: TaskFields): Task
  {
    Task(id, f.title, f.description, f.status)
  }

  /** Some task in `s` has this id. */
  predicate HasId(s: seq<Task>, id: int)
  {
    exists t :: t in s && t.id == id
  }

  /** No two positions of `s` hold the same id. */
  ghost predicate IdsDistinct(s: seq<Task>)
  {
    forall i, j :: 0 <= i < |s| && 0 <= j < |s| && s[i].id == s[j].id ==> i == j
  }

  /** `a` is `b` with some elements dropped and the rest kept in order. */
  ghost predicate IsSubsequence(a: seq<Task>, b: seq<Task>)
    decreases |b|
  {
    if a == [] then true
    else if b == [] then false
    else (a[0] == b[0] && IsSubsequence(a[1..], b[1..])) || IsSubsequence(a, b[1..])
  }

  /** `tasks.filter(t => t.status === status)` */
  function WithStatus(s: seq<Task>, status: string): (r: seq<Task>)
    ensures |r| <= |s|
    ensures forall t :: t in r <==> t in s && t.status == status
    ensures forall t :: multiset(r)[t] == (if t.status == status then multiset(s)[t] else 0)
  {
    if s == [] then []
    else
      assert s == [s[0]] + s[1..];
      (if s[0].status == status then [s[0]] else []) + WithStatus(s[1..], status)
  }

  /** `tasks.filter(t => t.id !== id)` */
  function WithoutId(s: seq<Task>, id: int): (r: seq<Task>)
    ensures |r| <= |s|
    ensures forall t :: t in r <==> t in s && t.id != id
    ensures forall t :: multiset(r)[t] == (if t.id != id then multiset(s)[t] else 0)
  {
    if s == [] then []
    else
      assert s == [s[0]] + s[1..];
      (if s[0].id != id then [s[0]] else []) + WithoutId(s[1..], id)
  }

  /** `tasks.map(t => t.id === id ? replacement : t)` */
  function ReplaceId(s: seq<Task>, id: int, replacement: Task): (r: seq<Task>)
    ensures |r| == |s|
    ensures forall i :: 0 <= i < |s| ==> r[i] == (if s[i].id == id then replacement else s[i])
  {
    if s == [] then []
    else [if s[0].id == id then replacement else s[0]] + ReplaceId(s[1..], id, replacement)
  }

  /** The position of the first task with this id, as `tasks.find` locates it. */
  function IndexOfId(s: seq<Task>, id: int): (r: Option<nat>)
    ensures r.None? <==> !HasId(s, id)
    ensures r.Some? ==> r.value < |s| && s[r.value].id == id
    ensures r.Some? ==> forall j :: 0 <= j < r.value ==> s[j].id != id
  {
    if s == [] then None
    else if s[0].id == id then Some(0)
    else
      assert s == [s[0]] + s[1..];
      match IndexOfId(s[1..], id)
      case None => None
      case Some(k) => Some(k + 1)
  }

  lemma {:induction false} WithStatusIsSubsequence(s: seq<Task>, status: string)
    ensures IsSubsequence(WithStatus(s, status), s)
  {
    if s != [] {
      WithStatusIsSubsequence(s[1..], status);
      var rest := WithStatus(s[1..], status);
      if s[0].status == status {
        assert WithStatus(s, status) == [s[0]] + rest;
        assert ([s[0]] + rest)[1..] == rest;
      } else {
        assert WithStatus(s, status) == rest;
        SubsequenceOfTail(rest, s);
      }
    }
  }

  lemma {:induction false} WithoutIdIsSubsequence(s: seq<Task>, id: int)
    ensures IsSubsequence(WithoutId(s, id), s)
  {
    if s != [] {
      WithoutIdIsSubsequence(s[1..], id);
      var rest := WithoutId(s[1..], id);
      if s[0].id != id {
        assert WithoutId(s, id) == [s[0]] + rest;
        assert ([s[0]] + rest)[1..] == rest;
      } else {
        assert WithoutId(s, id) == rest;
        SubsequenceOfTail(rest, s);
      }
    }
  }

  /** A subsequence of the tail of `b` is a subsequence of `b`. */
  lemma SubsequenceOfTail(a: seq<Task>, b: seq<Task>)
    requires b != [] && IsSubsequence(a, b[1..])
    ensures IsSubsequence(a, b)
  {
  }

  /** Filtering out an id keeps the length exactly when no task had that id. */
  lemma {:induction false} WithoutIdKeepsLengthIffAbsent(s: seq<Task>, id: int)
    ensures |WithoutId(s, id)| == |s| <==> !HasId(s, id)
    ensures !HasId(s, id) ==> WithoutId(s, id) == s
  {
    if s != [] {
      WithoutIdKeepsLengthIffAbsent(s[1..], id);
      assert s == [s[0]] + s[1..];
      assert HasId(s, id) <==> s[0].id == id || HasId(s[1..], id);
    }
  }

  lemma IdsDistinctTail(s: seq<Task>)
    requires s != [] && IdsDistinct(s)
    ensures IdsDistinct(s[1..])
    ensures !HasId(s[1..], s[0].id)
  {
    forall i, j | 0 <= i < |s| - 1 && 0 <= j < |s| - 1 && s[1..][i].id == s[1..][j].id
      ensures i == j
    {
      assert s[i + 1].id == s[j + 1].id;
    }
  }

  /** With distinct ids, removing a present id shortens the list by exactly one. */
  lemma {:induction false} WithoutPresentIdDropsOne(s: seq<Task>, id: int)
    requires IdsDistinct(s) && HasId(s, id)
    ensures |WithoutId(s, id)| == |s| - 1
  {
    assert s == [s[0]] + s[1..];
    IdsDistinctTail(s);
    if s[0].id == id {
      WithoutIdKeepsLengthIffAbsent(s[1..], id);
    } else {
      assert HasId(s[1..], id);
      WithoutPresentIdDropsOne(s[1..], id);
    }
  }

  /**
   * With distinct ids, replacing every task with an id (the client's `map`)
   * is the same as overwriting the one position `find` locates (the server's
   * in-place update).
   */
  lemma ReplaceIdIsUpdateAtIndex(s: seq<Task>, id: int, replacement: Task)
    requires IdsDistinct(s) && HasId(s, id)
    ensures IndexOfId(s, id).Some?
    ensures ReplaceId(s, id, replacement) == s[IndexOfId(s, id).value := replacement]
  {
    var i := IndexOfId(s, id).value;
    var r := ReplaceId(s, id, replacement);
    forall k | 0 <= k < |s| ensures r[k] == s[i := replacement][k] {
      if s[k].id == id {
        assert k == i;
      }
    }
  }

  /** Replacing an id that no task has changes nothing. */
  lemma ReplaceAbsentIdIsIdentity(s: seq<Task>, id: int, replacement: Task)
    requires !HasId(s, id)
    ensures ReplaceId(s, id, replacement) == s
  {
    var r := ReplaceId(s, id, replacement);
    forall k | 0 <= k < |s| ensures r[k] == s[k] {
      assert s[k] in s;
    }
  }

  lemma {:induction false} SelfIsSubsequence(s: seq<Task>)
    ensures IsSubsequence(s, s)
  {
    if s != [] {
      SelfIsSubsequence(s[1..]);
    }
  }

  /** The first position holding an id is the one `IndexOfId` reports. */
  lemma FirstIndexIsIndexOf(s: seq<Task>, id: int, i: nat)
    requires i < |s| && s[i].id == id
    requires forall j :: 0 <= j < i ==> s[j].id != id
    ensures IndexOfId(s, id) == Some(i)
  {
    assert s[i] in s;
  }

  /** With distinct ids, the task at position `k` is the only one carrying its id. */
  lemma IdHolderIsUnique(s: seq<Task>, k: nat)
    requires IdsDistinct(s) && k < |s|
    ensures forall t :: t in s && t.id == s[k].id ==> t == s[k]
  {
    forall t | t in s && t.id == s[k].id ensures t == s[k] {
      var m :| 0 <= m < |s| && s[m] == t;
    }
  }
}
