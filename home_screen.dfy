/** The home screen: the `tasks` state, its load from storage, toggling and
    deleting by id (each saved back under "tasks"), and the list rendering,
    which reverses the state array in place (`tasks.reverse()`). */
module HomeScreen {
  import opened Common
  import opened AppStorage
  import TaskCard

  /** A task with its completion flag inverted when its id is the given
      one; any other task is returned as it is. */
  function Flip(t: Task, id: string): (r: Task)
    ensures r.(completed := t.completed) == t
    ensures r.completed != t.completed <==> t.id == id
  {
    if t.id == id then t.(completed := !t.completed) else t
  }

  /** `tasks.map(...)` in `toggleComplete`: each task, in order, passed
      through `Flip`. */
  function ToggleById(tasks: seq<Task>, id: string): (r: seq<Task>)
    ensures |r| == |tasks|
    ensures forall i :: 0 <= i < |tasks| ==> r[i] == Flip(tasks[i], id)
  {
    if tasks == [] then [] else [Flip(tasks[0], id)] + ToggleById(tasks[1..], id)
  }

  /** Toggling keeps the list's length and order: each task with the id
      has its completion flag flipped and every other field kept; every
      other task is kept as it is. */
  lemma ToggleKeepsFields(tasks: seq<Task>, id: string)
    ensures |ToggleById(tasks, id)| == |tasks|
    ensures forall i :: 0 <= i < |tasks| ==>
      var r := ToggleById(tasks, id);
      && r[i].id == tasks[i].id
      && r[i].title == tasks[i].title
      && r[i].description == tasks[i].description
      && r[i].startTimestamp == tasks[i].startTimestamp
      && r[i].endTimestamp == tasks[i].endTimestamp
      && r[i].completed == (if tasks[i].id == id then !tasks[i].completed else tasks[i].completed)
  {
  }

  /** Toggling the same id twice restores the list. */
  lemma {:induction false} ToggleTwice(tasks: seq<Task>, id: string)
    ensures ToggleById(ToggleById(tasks, id), id) == tasks
  {
    if tasks != [] {
      ToggleTwice(tasks[1..], id);
      assert ToggleById(tasks, id)[1..] == ToggleById(tasks[1..], id);
    }
  }

  /** The filter in `deleteTask`: the tasks whose id differs from `id`, in
      their order. */
  function DeleteById(tasks: seq<Task>, id: string): (r: seq<Task>)
    ensures |r| <= |tasks|
    ensures forall t :: t in r <==> t in tasks && t.id != id
  {
    if tasks == [] then []
    else if tasks[0].id != id then [tasks[0]] + DeleteById(tasks[1..], id)
    else DeleteById(tasks[1..], id)
  }

  /** `sub` is `s` with some elements left out, the rest in their order. */
  predicate IsSubsequence(sub: seq<Task>, s: seq<Task>)
  {
    if sub == [] then true
    else if s == [] then false
    else if sub[0] == s[0] then IsSubsequence(sub[1..], s[1..])
    else IsSubsequence(sub, s[1..])
  }

  function CountId(tasks: seq<Task>, id: string): nat
  {
    if tasks == [] then 0 else (if tasks[0].id == id then 1 else 0) + CountId(tasks[1..], id)
  }

  /** Deleting keeps the tasks whose id differs, in their original relative
      order, and drops exactly the tasks that have the id. */
  lemma {:induction false} DeleteKeepsOrder(tasks: seq<Task>, id: string)
    ensures IsSubsequence(DeleteById(tasks, id), tasks)
    ensures |DeleteById(tasks, id)| + CountId(tasks, id) == |tasks|
  {
    if tasks != [] {
      DeleteKeepsOrder(tasks[1..], id);
      if tasks[0].id != id {
        assert DeleteById(tasks, id)[1..] == DeleteById(tasks[1..], id);
      }
    }
  }

  /** Deleting an id no task has leaves the list unchanged. */
  lemma {:induction false} DeleteAbsentId(tasks: seq<Task>, id: string)
    requires forall i :: 0 <= i < |tasks| ==> tasks[i].id != id
    ensures DeleteById(tasks, id) == tasks
  {
    if tasks != [] {
      DeleteAbsentId(tasks[1..], id);
    }
  }

  /** Deleting twice is deleting once. */
  lemma {:induction false} DeleteIdempotent(tasks: seq<Task>, id: string)
    ensures DeleteById(DeleteById(tasks, id), id) == DeleteById(tasks, id)
  {
    var once := DeleteById(tasks, id);
    forall i | 0 <= i < |once|
      ensures once[i].id != id
    {
      assert once[i] in once;
    }
    DeleteAbsentId(once, id);
  }

  /** The order `FlatList` shows: the array reversed. */
  function Reversed(s: seq<Task>): (r: seq<Task>)
    ensures |r| == |s|
  {
    if s == [] then [] else Reversed(s[1..]) + [s[0]]
  }

  lemma {:induction false} ReversedAt(s: seq<Task>, k: nat)
    requires k < |s|
    ensures Reversed(s)[k] == s[|s| - 1 - k]
  {
    if k < |s| - 1 {
      ReversedAt(s[1..], k);
    }
  }

  lemma ReversedTwice(s: seq<Task>)
    ensures Reversed(Reversed(s)) == s
  {
    forall k | 0 <= k < |s|
      ensures Reversed(Reversed(s))[k] == s[k]
    {
      ReversedAt(Reversed(s), k);
      ReversedAt(s, |s| - 1 - k);
    }
  }

  lemma ToggleOfReversedAt(s: seq<Task>, id: string, k: nat)
    requires k < |s|
    ensures |ToggleById(Reversed(s), id)| == |s|
    ensures ToggleById(Reversed(s), id)[k] == Flip(s[|s| - 1 - k], id)
  {
    ReversedAt(s, k);
  }

  lemma ReversedOfToggleAt(s: seq<Task>, id: string, k: nat)
    requires k < |s|
    ensures Reversed(ToggleById(s, id))[k] == Flip(s[|s| - 1 - k], id)
  {
    var ts := ToggleById(s, id);
    assert |ts| == |s|;
    ReversedAt(ts, k);
    assert ts[|ts| - 1 - k] == Flip(s[|s| - 1 - k], id);
  }

  /** Toggling and reversing commute: toggling the reversed array saves the
      toggled list in reversed order. */
  lemma {:induction false} ToggleOfReversed(s: seq<Task>, id: string)
    ensures ToggleById(Reversed(s), id) == Reversed(ToggleById(s, id))
  {
    var a := ToggleById(Reversed(s), id);
    var b := Reversed(ToggleById(s, id));
    forall k | 0 <= k < |s|
      ensures a[k] == b[k]
    {
      ToggleOfReversedAt(s, id, k);
      ReversedOfToggleAt(s, id, k);
    }
  }

  /** A list whose k-th element is the (n-1-k)-th of `s` is `s` reversed. */
  lemma ReversedFromIndices(s: seq<Task>, t: seq<Task>)
    requires |t| == |s|
    requires forall k :: 0 <= k < |t| ==> t[k] == s[|s| - 1 - k]
    ensures t == Reversed(s)
  {
    forall k | 0 <= k < |t|
      ensures t[k] == Reversed(s)[k]
    {
      ReversedAt(s, k);
    }
  }

  /** A length-two list of distinct tasks: rendering reverses the state, so a
      toggle right after a render saves the two tasks in swapped order. */
  lemma ToggleAfterRenderSwapsSavedOrder(a: Task, b: Task, id: string)
    requires a != b
    ensures ToggleById(Reversed([a, b]), id) == [Flip(b, id), Flip(a, id)]
    ensures ToggleById(Reversed([a, b]), id) != ToggleById([a, b], id)
  {
    assert Reversed([a, b]) == [b, a] by {
      assert [a, b][1..] == [b];
      assert Reversed([b]) == [b] by { assert [b][1..] == []; }
    }
    var r := ToggleById([b, a], id);
    assert r[0] == Flip(b, id) && r[1] == Flip(a, id);
    var t := ToggleById([a, b], id);
    assert t[0] == Flip(a, id) && t[1] == Flip(b, id);
  }

  /** The ids in list order. */
  function Ids(tasks: seq<Task>): seq<string>
  {
    if tasks == [] then [] else [tasks[0].id] + Ids(tasks[1..])
  }

  /** With a display order that leaves the state alone, toggling saves the
      ids in the order they were loaded in. */
  lemma {:induction false} ToggleKeepsIdOrder(tasks: seq<Task>, id: string)
    ensures Ids(ToggleById(tasks, id)) == Ids(tasks)
  {
    if tasks != [] {
      ToggleKeepsIdOrder(tasks[1..], id);
      assert ToggleById(tasks, id)[1..] == ToggleById(tasks[1..], id);
    }
  }

  /** `Array.prototype.reverse`: swaps the two ends and moves inward, so
      position k ends up holding what position n-1-k held. */
  method ReverseInPlace(a: array<Task>)
    modifies a
    ensures forall k :: 0 <= k < a.Length ==> a[k] == old(a[a.Length - 1 - k])
  {
    var n := a.Length;
    var i := 0;
    while i < n / 2
      invariant 0 <= i <= n / 2
      invariant forall k :: 0 <= k < i ==> a[k] == old(a[n - 1 - k])
      invariant forall k :: n - i <= k < n ==> a[k] == old(a[n - 1 - k])
      invariant forall k :: i <= k < n - i ==> a[k] == old(a[k])
    {
      a[i], a[n - 1 - i] := a[n - 1 - i], a[i];
      i := i + 1;
    }
  }

  /** An answer to the "Delete" alert. */
  datatype Answer = Delete | Cancel

  class HomeScreenState {
    /** The `tasks` state. */
    var tasks: array<Task>
    /** The device storage as this screen reads and writes it. */
    var storage: Storage

    /** `useState([])`. */
    constructor(storage: Storage)
      ensures this.storage == storage
      ensures tasks[..] == [] && fresh(tasks)
    {
      this.storage := storage;
      tasks := new Task[0];
    }

    /** `setTasks(list)`: the state becomes a fresh array holding `list`. */
    method SetTasks(list: seq<Task>)
      modifies this
      ensures fresh(tasks) && tasks[..] == list
      ensures storage == old(storage)
    {
      tasks := new Task[|list|](i requires 0 <= i < |list| => list[i]);
    }

    /** `loadTasks`: the stored list replaces the state when one is stored;
        otherwise the state stays as it was. */
    method LoadTasks()
      modifies this
      ensures storage == old(storage)
      ensures storage.tasks.Some? ==> fresh(tasks) && tasks[..] == storage.tasks.value
      ensures storage.tasks.None? ==> tasks == old(tasks) && tasks[..] == old(tasks[..])
    {
      if storage.tasks.Some? {
        SetTasks(storage.tasks.value);
      }
    }

    /** `toggleComplete(id)`: the state and the saved "tasks" value are the
        same new list; users and session are untouched. */
    method ToggleComplete(id: string)
      modifies this
      ensures fresh(tasks) && tasks[..] == ToggleById(old(tasks[..]), id)
      ensures storage == old(storage).(tasks := Some(tasks[..]))
    {
      var updated := ToggleById(tasks[..], id);
      SetTasks(updated);
      storage := storage.(tasks := Some(updated));
    }

    /** `deleteTask(id)`, after the confirmation alert: on "Delete" the state
        and the saved value are the list without that id; on "Cancel"
        nothing changes. */
    method DeleteTask(id: string, answer: Answer)
      modifies this
      ensures answer == Cancel ==> tasks == old(tasks) && storage == old(storage)
      ensures answer == Delete ==> fresh(tasks) && tasks[..] == DeleteById(old(tasks[..]), id)
      ensures answer == Delete ==> storage == old(storage).(tasks := Some(tasks[..]))
    {
      if answer == Delete {
        var updated := DeleteById(tasks[..], id);
        SetTasks(updated);
        storage := storage.(tasks := Some(updated));
      }
    }

    /** The list as rendered: `data={tasks.reverse()}` reverses the state
        array in place and shows it. */
    method Render() returns (shown: seq<Task>)
      modifies tasks
      ensures tasks[..] == Reversed(old(tasks[..]))
      ensures shown == tasks[..]
    {
      ghost var before := tasks[..];
      ReverseInPlace(tasks);
      ReversedFromIndices(before, tasks[..]);
      shown := tasks[..];
    }

    /** The intended rendering, `[...tasks].reverse()`: newest first, with
        the state left as it is. */
    method VisibleTasks() returns (shown: seq<Task>)
      ensures shown == Reversed(tasks[..])
      ensures forall k :: 0 <= k < |shown| ==> shown[k] == tasks[tasks.Length - 1 - k]
    {
      shown := Reversed(tasks[..]);
      forall k | 0 <= k < |shown|
        ensures shown[k] == tasks[tasks.Length - 1 - k]
      {
        ReversedAt(tasks[..], k);
      }
    }

    /** A card's toggle request reaches `toggleComplete` only when
        `TaskCard.HandleToggleComplete` yields the id. */
    method OnCardToggle(task: Task, answer: TaskCard.Answer)
      modifies this
      ensures task.completed || answer == TaskCard.Yes ==>
        fresh(tasks) && tasks[..] == ToggleById(old(tasks[..]), task.id) &&
        storage == old(storage).(tasks := Some(tasks[..]))
      ensures !task.completed && answer == TaskCard.Cancel ==>
        tasks == old(tasks) && storage == old(storage)
    {
      var request := TaskCard.HandleToggleComplete(task, answer);
      if request.Some? {
        ToggleComplete(request.value);
      }
    }
  }
}
