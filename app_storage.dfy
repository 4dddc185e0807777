/** The records the app persists and the device storage that holds them.
    Storage is read and written one whole key at a time: "tasks" holds the
    task list, "users" the account list and "currentUser" a scalar. A key
    that was never written reads as `None` (JavaScript's null). */
module AppStorage {
  import opened Common

  /** A to-do item. Timestamps are epoch milliseconds; `id` is the clock
      value at creation time, as text. */
  datatype Task = Task(
    id: string,
    title: string,
    description: string,
    startTimestamp: int,
    endTimestamp: int,
    completed: bool)

  /** An account record. Sign-up stores only the email and the password; the
      profile editor stores whatever its form holds, so every field but the
      email may be absent. */
  datatype User = User(
    email: string,
    password: Option<string>,
    name: Option<string>,
    mobile: Option<string>,
    countryCode: Option<string>,
    address: Option<string>,
    dob: Option<string>,
    image: Option<string>)

  datatype Storage = Storage(
    tasks: Option<seq<Task>>,
    users: Option<seq<User>>,
    currentUser: Option<string>)

  /** The stored account list as the account screens read it: an absent
      "users" key reads as the empty list. */
  function StoredUsers(s: Storage): (r: seq<User>)
    ensures s.users.Some? ==> r == s.users.value
    ensures s.users.None? ==> |r| == 0
  {
    if s.users.Some? then s.users.value else []
  }

  /** The stored task list as the task form reads it: an absent "tasks" key
      reads as the empty list. */
  function StoredTasks(s: Storage): (r: seq<Task>)
    ensures s.tasks.Some? ==> r == s.tasks.value
    ensures s.tasks.None? ==> |r| == 0
  {
    if s.tasks.Some? then s.tasks.value else []
  }
}
