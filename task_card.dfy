/** The task card's derived state: the border colour that marks a task's
    urgency, the countdown line, and the rule that marking a task complete
    asks for confirmation first. "Now" is a parameter. */
module TaskCard {
  import opened Common
  import opened Durations
  import opened AppStorage

  const TenMinutesMs: int := 10 * 60 * 1000

  /** `getBorderColor`, branch for branch. The half-time test compares with
      the real number `total / 2`, as JavaScript does. */
  function BorderColor(completed: bool, now: int, start: int, end: int): (color: string)
    ensures color != "#cccccc"
    ensures color == "dodgerblue" <==> completed
    ensures color == "lightgreen" <==> !completed && now < start
  {
    if completed then "dodgerblue"
    else if now < start then "lightgreen"
    else if now >= end then "#f44336"
    else
      var total := end - start;
      var elapsed := now - start;
      var remaining := end - now;
      if remaining <= TenMinutesMs then "red"
      else if elapsed as real >= total as real / 2.0 then "orange"
      else if now >= start && now < end then "gold"
      else "#cccccc"
  }

  /** The six urgency classes of a task, each described on its own
      (independently of the order of the tests in `BorderColor`). */
  datatype Status = Done | NotStarted | PastDue | FinalTenMinutes | PastHalfTime | InProgress

  predicate HasStatus(st: Status, completed: bool, now: int, start: int, end: int)
  {
    match st
    case Done => completed
    case NotStarted => !completed && now < start
    case PastDue => !completed && start <= now && end <= now
    case FinalTenMinutes => !completed && start <= now < end && end - now <= TenMinutesMs
    case PastHalfTime =>
      !completed && start <= now < end && end - now > TenMinutesMs && 2 * (now - start) >= end - start
    case InProgress =>
      !completed && start <= now < end && end - now > TenMinutesMs && 2 * (now - start) < end - start
  }

  function ColorOf(st: Status): string
  {
    match st
    case Done => "dodgerblue"
    case NotStarted => "lightgreen"
    case PastDue => "#f44336"
    case FinalTenMinutes => "red"
    case PastHalfTime => "orange"
    case InProgress => "gold"
  }

  /** Every task is in exactly one class. */
  lemma StatusExactlyOne(completed: bool, now: int, start: int, end: int)
    ensures exists st :: HasStatus(st, completed, now, start, end)
    ensures forall st1, st2 ::
      HasStatus(st1, completed, now, start, end) && HasStatus(st2, completed, now, start, end) ==> st1 == st2
  {
    if completed {
      assert HasStatus(Done, completed, now, start, end);
    } else if now < start {
      assert HasStatus(NotStarted, completed, now, start, end);
    } else if now >= end {
      assert HasStatus(PastDue, completed, now, start, end);
    } else if end - now <= TenMinutesMs {
      assert HasStatus(FinalTenMinutes, completed, now, start, end);
    } else if 2 * (now - start) >= end - start {
      assert HasStatus(PastHalfTime, completed, now, start, end);
    } else {
      assert HasStatus(InProgress, completed, now, start, end);
    }
  }

  /** The colour is the colour of the task's class; in particular the
      "#cccccc" fallback is never returned, and the final ten minutes are
      red whatever fraction of the time has elapsed. */
  lemma BorderColorIsStatusColor(completed: bool, now: int, start: int, end: int, st: Status)
    requires HasStatus(st, completed, now, start, end)
    ensures BorderColor(completed, now, start, end) == ColorOf(st)
    ensures BorderColor(completed, now, start, end) != "#cccccc"
  {
    if !completed && start <= now < end && end - now > TenMinutesMs {
      HalfTimeTest(now - start, end - start);
    }
  }

  /** `elapsed >= total / 2` over the reals is `2 * elapsed >= total`. */
  lemma HalfTimeTest(elapsed: int, total: int)
    ensures (elapsed as real >= total as real / 2.0) <==> 2 * elapsed >= total
  {
  }

  /** What `getTimeLeft` reports before formatting. */
  datatype TimeLeft = Completed | StartsIn(msLeft: nat) | EndsIn(msLeft: nat) | Due

  function TimeLeftOf(completed: bool, now: int, start: int, end: int): (r: TimeLeft)
    ensures r == Completed <==> completed
    ensures r.StartsIn? <==> !completed && now < start
    ensures r.StartsIn? ==> r.msLeft == start - now > 0
    ensures r.EndsIn? <==> !completed && start <= now < end
    ensures r.EndsIn? ==> r.msLeft == end - now > 0
    ensures r == Due <==> !completed && start <= now && end <= now
  {
    if completed then Completed
    else if now < start then StartsIn(start - now)
    else if now >= start && now < end then EndsIn(end - now)
    else Due
  }

  /** The line the card shows: a fixed text for a completed or a due task,
      otherwise the label, a colon and the span text of the time left. */
  function TimeLeftText(t: TimeLeft): (r: string)
    ensures |r| > 0
    ensures r[|r| - 1] == 'm' <==> t.StartsIn? || t.EndsIn?
  {
    match t
    case Completed => "\U{2705} Completed"
    case Due => "\U{274C} Task is due"
    case StartsIn(ms) => "Starts in: " + SpanText(SplitMinutes(ms))
    case EndsIn(ms) => "Ends in: " + SpanText(SplitMinutes(ms))
  }

  /** `getTimeLeft(start, end)`. */
  function GetTimeLeft(completed: bool, now: int, start: int, end: int): (r: string)
    ensures r == "\U{2705} Completed" <==> completed
    ensures r == "\U{274C} Task is due" <==> !completed && start <= now && end <= now
    ensures |r| > 0 && (r[|r| - 1] == 'm' <==> !completed && (now < start || now < end))
  {
    TimeLeftText(TimeLeftOf(completed, now, start, end))
  }

  /** What the card says in each case: a completed task says so; a task
      not started counts down to its start and a running one to its end,
      floored to whole minutes with the minutes below 60; otherwise it is
      due. */
  lemma GetTimeLeftCases(completed: bool, now: int, start: int, end: int)
    ensures completed ==> GetTimeLeft(completed, now, start, end) == "\U{2705} Completed"
    ensures !completed && now < start ==>
      GetTimeLeft(completed, now, start, end) == "Starts in: " + SpanText(SplitMinutes(start - now))
    ensures !completed && start <= now < end ==>
      var span := SplitMinutes(end - now);
      && GetTimeLeft(completed, now, start, end) == "Ends in: " + SpanText(span)
      && span.minutes < 60
      && (span.hours * 60 + span.minutes) * MsPerMinute <= end - now
      && end - now < (span.hours * 60 + span.minutes + 1) * MsPerMinute
    ensures !completed && start <= now && end <= now ==>
      GetTimeLeft(completed, now, start, end) == "\U{274C} Task is due"
  {
  }

  /** An answer to the "Mark as Complete" alert (dismissing it cancels). */
  datatype Answer = Yes | Cancel

  /** `handleToggleComplete`: the id passed to `onToggleComplete`, if any. A
      task that is not yet completed is toggled only after "Yes"; a completed
      one is toggled at once and the alert is never shown. */
  function HandleToggleComplete(task: Task, answer: Answer): (toggled: Option<string>)
    ensures toggled.Some? ==> toggled.value == task.id
    ensures task.completed ==> toggled == Some(task.id)
    ensures !task.completed ==> (toggled.Some? <==> answer == Yes)
  {
    if !task.completed then
      if answer == Yes then Some(task.id) else None
    else Some(task.id)
  }
}
