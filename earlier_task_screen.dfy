/** The earlier copy of the task editor (components/TaskScreen.jsx). Its
    `formatDuration`, `initialValues` and `onSubmit` are the same code as
    the later copy's and are modelled once, in module TaskScreen; what
    differs is the schema, whose description is optional. */
module EarlierTaskScreen {
  import opened Common
  import opened FieldRules
  import opened AppStorage
  import opened TaskScreen

  /** The earlier `TaskSchema`: title required with at most 30 code units,
      description at most 150 (the empty string allowed), end after start. */
  predicate EarlierSchemaValid(v: TaskValues)
  {
    && TitleRule(v.title)
    && Utf16Length(v.description) <= 150
    && EndAfterStart(v.startTimestamp, v.endTimestamp)
  }

  /** The later schema accepts exactly the values the earlier one accepts
      that have a non-empty description. */
  lemma LaterSchemaIsEarlierWithRequiredDescription(v: TaskValues)
    ensures TaskSchemaValid(v) <==> EarlierSchemaValid(v) && v.description != ""
    ensures EarlierSchemaValid(v.(description := "")) <==> TitleRule(v.title) && EndAfterStart(v.startTimestamp, v.endTimestamp)
  {
    assert Utf16Length("") == 0;
  }

  /** The earlier form's submit: its schema, then the shared handler. */
  function Submit(s: Storage, task: Option<Task>, v: TaskValues, now: nat): (r: Option<Storage>)
    ensures r.Some? <==> EarlierSchemaValid(v)
    ensures r.Some? ==> r.value.users == s.users && r.value.currentUser == s.currentUser
    ensures r.Some? && task.Some? ==> r.value.tasks == Some(EditTasks(StoredTasks(s), task.value.id, v))
    ensures r.Some? && task.None? ==>
      r.value.tasks == Some(StoredTasks(s) + [Task(Decimal(now), v.title, v.description, v.startTimestamp, v.endTimestamp, false)])
  {
    if EarlierSchemaValid(v) then Some(OnSubmit(s, task, v, now)) else None
  }

  /** A task with an empty description can be saved through the earlier
      form but not through the later one. */
  lemma EmptyDescriptionOnlyEarlier(s: Storage, task: Option<Task>, now: nat)
    ensures Submit(s, task, TaskValues("Buy milk", "", 0, 0), now).Some?
    ensures TaskScreen.Submit(s, task, TaskValues("Buy milk", "", 0, 0), now).None?
  {
  }
}
