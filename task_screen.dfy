/** The task editor (the later copy, screens/TaskScreen.jsx): the form's
    initial values, its validation schema, the duration line, and the submit
    handler that edits the matching task or appends a new one, then writes
    the whole "tasks" list back. The clock is a parameter. */
module TaskScreen {
  import opened Common
  import opened Durations
  import opened FieldRules
  import opened AppStorage

  /** The form's values. */
  datatype TaskValues = TaskValues(
    title: string,
    description: string,
    startTimestamp: int,
    endTimestamp: int)

  /** `initialValues`: the edited task's fields, with `||` falling back to ""
      or to the clock when a field is falsy (the empty string, or 0). The
      clock is read once for each timestamp: `startNow` for the start and
      `endNow` for the end. */
  function InitialValues(task: Option<Task>, startNow: int, endNow: int): (v: TaskValues)
    ensures task.None? ==> v == TaskValues("", "", startNow, endNow)
    ensures task.Some? ==> v.title == task.value.title && v.description == task.value.description
    ensures task.Some? && task.value.startTimestamp != 0 ==> v.startTimestamp == task.value.startTimestamp
    ensures task.Some? && task.value.startTimestamp == 0 ==> v.startTimestamp == startNow
    ensures task.Some? && task.value.endTimestamp != 0 ==> v.endTimestamp == task.value.endTimestamp
    ensures task.Some? && task.value.endTimestamp == 0 ==> v.endTimestamp == endNow
  {
    match task
    case None => TaskValues("", "", startNow, endNow)
    case Some(t) =>
      TaskValues(
        if t.title != "" then t.title else "",
        if t.description != "" then t.description else "",
        if t.startTimestamp != 0 then t.startTimestamp else startNow,
        if t.endTimestamp != 0 then t.endTimestamp else endNow)
  }

  /** A new form left as it opens passes the timing rule exactly when the
      second clock read comes strictly after the first (or one read is 0). */
  lemma NewFormTiming(startNow: int, endNow: int)
    ensures var v := InitialValues(None, startNow, endNow);
      EndAfterStart(v.startTimestamp, v.endTimestamp) <==> startNow == 0 || endNow == 0 || endNow > startNow
  {
  }

  /** The "is-after-start" test: it passes when either time is unset (0)
      and otherwise demands that the end come strictly after the start. */
  predicate EndAfterStart(start: int, end: int)
  {
    end == 0 || start == 0 || end > start
  }

  /** A title: not empty and at most 30 code units long. */
  predicate TitleRule(title: string)
  {
    Required(title) && Utf16Length(title) <= 30
  }

  /** `TaskSchema`: title required with at most 30 code units, description
      required with at most 150, end after start. The timestamps are numbers
      here, so their `required()` always holds. */
  predicate TaskSchemaValid(v: TaskValues)
  {
    && TitleRule(v.title)
    && Required(v.description) && Utf16Length(v.description) <= 150
    && EndAfterStart(v.startTimestamp, v.endTimestamp)
  }

  /** What the schema accepts, said field by field. */
  lemma TaskSchemaMeaning(v: TaskValues)
    ensures TaskSchemaValid(v) ==>
      1 <= Utf16Length(v.title) <= 30 && 1 <= Utf16Length(v.description) <= 150
    ensures TaskSchemaValid(v) ==>
      1 <= |v.title| <= 30 && 1 <= |v.description| <= 150
    ensures TaskSchemaValid(v) && v.startTimestamp != 0 && v.endTimestamp != 0 ==>
      v.endTimestamp > v.startTimestamp
    ensures (TitleRule(v.title) && Required(v.description) && Utf16Length(v.description) <= 150 &&
             (v.startTimestamp == 0 || v.endTimestamp == 0)) ==> TaskSchemaValid(v)
  {
  }

  /** `formatDuration(start, end)`: null unless both are truthy and the end
      is after the start; otherwise the duration line. */
  function FormatDuration(start: int, end: int): (r: Option<string>)
    ensures r.None? <==> start == 0 || end == 0 || end <= start
  {
    if start == 0 || end == 0 || end <= start then None
    else Some("\U{1F553} Duration: " + SpanText(SplitMinutes(end - start)))
  }

  /** The duration names whole minutes between start and end, floored, with
      the minutes below 60 and the hours shown only when positive. */
  lemma DurationSplit(start: int, end: int)
    requires start != 0 && end != 0 && end > start
    ensures var span := SplitMinutes(end - start);
      && FormatDuration(start, end) == Some("\U{1F553} Duration: " + SpanText(span))
      && span.minutes < 60
      && span.hours == (end - start) / MsPerMinute / 60
      && (span.hours * 60 + span.minutes) * MsPerMinute <= end - start
      && end - start < (span.hours * 60 + span.minutes + 1) * MsPerMinute
      && (span.hours > 0 <==> 'h' in SpanText(span))
  {
    SpanTextShowsHoursIffPositive(SplitMinutes(end - start));
  }

  /** The form's fields spread over a stored task: the id and the
      completion flag are kept, and the four form fields replace the task's. */
  function Overlay(t: Task, v: TaskValues): (r: Task)
    ensures r.id == t.id && r.completed == t.completed
    ensures r.title == v.title && r.description == v.description
    ensures r.startTimestamp == v.startTimestamp && r.endTimestamp == v.endTimestamp
  {
    t.(title := v.title, description := v.description,
       startTimestamp := v.startTimestamp, endTimestamp := v.endTimestamp)
  }

  /** The edit branch of `onSubmit`: every stored task with the edited
      task's id takes the form's values over its own; the others stay. */
  function EditTasks(stored: seq<Task>, id: string, v: TaskValues): (r: seq<Task>)
    ensures |r| == |stored|
    ensures forall i :: 0 <= i < |stored| && stored[i].id != id ==> r[i] == stored[i]
    ensures forall i :: 0 <= i < |stored| && stored[i].id == id ==>
      && r[i].id == stored[i].id && r[i].completed == stored[i].completed
      && r[i].title == v.title && r[i].description == v.description
      && r[i].startTimestamp == v.startTimestamp && r[i].endTimestamp == v.endTimestamp
  {
    if stored == [] then []
    else [if stored[0].id == id then Overlay(stored[0], v) else stored[0]] + EditTasks(stored[1..], id, v)
  }

  /** The task a new form creates: not completed, its id the decimal text
      of the clock, and the form's fields as its own. */
  function NewTask(v: TaskValues, now: nat): (r: Task)
    ensures r.id == Decimal(now) && !r.completed
    ensures Overlay(r, v) == r
  {
    Task(Decimal(now), v.title, v.description, v.startTimestamp, v.endTimestamp, false)
  }

  /** The `onSubmit` handler: with a task being edited, every stored task
      with its id takes the form's values; otherwise one new, incomplete
      task is appended. A missing "tasks" value counts as the empty list.
      Only "tasks" is written. */
  function OnSubmit(s: Storage, task: Option<Task>, v: TaskValues, now: nat): (s': Storage)
    ensures s'.users == s.users && s'.currentUser == s.currentUser && s'.tasks.Some?
    ensures task.Some? ==> s'.tasks.value == EditTasks(StoredTasks(s), task.value.id, v)
    ensures task.None? ==> |s'.tasks.value| == |StoredTasks(s)| + 1
    ensures task.None? ==> s'.tasks.value[..|StoredTasks(s)|] == StoredTasks(s)
    ensures task.None? ==> var added := s'.tasks.value[|StoredTasks(s)|];
      && added.completed == false && added.id == Decimal(now)
      && added.title == v.title && added.description == v.description
      && added.startTimestamp == v.startTimestamp && added.endTimestamp == v.endTimestamp
  {
    var stored := StoredTasks(s);
    var updated := if task.Some? then EditTasks(stored, task.value.id, v) else stored + [NewTask(v, now)];
    s.(tasks := Some(updated))
  }

  /** Tasks added at two different clock values get different ids. */
  lemma NewTaskIdsDiffer(v: TaskValues, w: TaskValues, now1: nat, now2: nat)
    requires now1 != now2
    ensures NewTask(v, now1).id != NewTask(w, now2).id
  {
    if Decimal(now1) == Decimal(now2) {
      DecimalInjective(now1, now2);
    }
  }

  /** Formik calls `onSubmit` only with values the schema accepts; `None`
      means the form was not submitted and nothing was written. */
  function Submit(s: Storage, task: Option<Task>, v: TaskValues, now: nat): (r: Option<Storage>)
    ensures r.Some? <==> TaskSchemaValid(v)
    ensures r.Some? ==> r.value == OnSubmit(s, task, v, now)
  {
    if TaskSchemaValid(v) then Some(OnSubmit(s, task, v, now)) else None
  }

  /** Every task the form adds satisfies the schema's timing rule. */
  lemma AddedTaskEndsAfterStart(s: Storage, v: TaskValues, now: nat)
    requires Submit(s, None, v, now).Some?
    ensures var tasks := Submit(s, None, v, now).value.tasks.value;
      var added := tasks[|tasks| - 1];
      added.startTimestamp != 0 && added.endTimestamp != 0 ==> added.endTimestamp > added.startTimestamp
  {
  }
}
