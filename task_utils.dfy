/** The client's task display rules (client/src/lib/task-utils.ts): the
    due-date status at an instant `now`, the status text and colour class
    read from it, and the priority badge. */
module TaskUtils {
  import opened Common
  import TaskModel

  /** `TaskDateStatus`; `daysUntilDue` is absent without a due date. */
  datatype DateStatus = DateStatus(isOverdue: bool, isDueSoon: bool, daysUntilDue: Option<nat>)

  /** `getTaskDateStatus(due)` at `now`: overdue exactly when the due date
      has passed, due soon exactly when it is less than a day ahead, never
      both, and the whole days to it, rounded up, without sign. */
  function DateStatusOf(due: Option<Millis>, now: Millis): (r: DateStatus)
    ensures due.None? ==> r == DateStatus(false, false, None)
    ensures due.Some? ==> (r.isOverdue <==> due.value < now)
    ensures due.Some? ==> (r.isDueSoon <==> now < due.value < now + DayMillis)
    ensures !(r.isOverdue && r.isDueSoon)
    ensures due.Some? ==> r.daysUntilDue.Some?
  {
    if due.None? then DateStatus(false, false, None)
    else
      var diff := due.value - now;
      DateStatus(diff < 0, diff > 0 && diff < DayMillis, Some(Abs(CeilDiv(diff, DayMillis))))
  }

  /** The day count is the server's `getDaysUntilDue` without its sign, and
      the client's overdue flag is the server's `isOverdue`; a task due
      soon has one day to go. */
  lemma DateStatusAgreesWithServer(due: Millis, now: Millis)
    ensures var r := DateStatusOf(Some(due), now);
      r.isOverdue == TaskModel.IsOverdue(Some(due), now)
      && r.daysUntilDue.value == Abs(TaskModel.DaysUntilDue(Some(due), now).value)
      && (r.isDueSoon ==> r.daysUntilDue.value == 1)
      && (r.isOverdue ==> TaskModel.DaysUntilDue(Some(due), now).value <= 0)
  {
    var q := CeilDiv(due - now, DayMillis);
    TaskModel.DaysUntilDueSign(due, now);
    if 0 < due - now < DayMillis {
      assert (q - 1) * DayMillis < DayMillis;
      assert 0 < q * DayMillis;
    }
  }

  /** `getTaskStatusText`: overdue wins over due soon, which wins over the
      default. */
  function StatusText(due: Option<Millis>, now: Millis): (r: string)
    ensures var s := DateStatusOf(due, now);
      (s.isOverdue <==> r == "Overdue") && (s.isDueSoon <==> r == "Due Soon")
      && (!s.isOverdue && !s.isDueSoon <==> r == "On Track")
  {
    var s := DateStatusOf(due, now);
    if s.isOverdue then "Overdue" else if s.isDueSoon then "Due Soon" else "On Track"
  }

  /** `getDateStatusClasses`, with the same precedence. */
  function StatusClasses(due: Option<Millis>, now: Millis): (r: string)
    ensures var s := DateStatusOf(due, now);
      (s.isOverdue <==> r == "text-red-600") && (s.isDueSoon <==> r == "text-orange-600")
      && (!s.isOverdue && !s.isDueSoon <==> r == "text-gray-600")
  {
    var s := DateStatusOf(due, now);
    if s.isOverdue then "text-red-600" else if s.isDueSoon then "text-orange-600" else "text-gray-600"
  }

  /** The text and the classes always tell the same story. */
  lemma TextAndClassesAgree(due: Option<Millis>, now: Millis)
    ensures StatusText(due, now) == "Overdue" <==> StatusClasses(due, now) == "text-red-600"
    ensures StatusText(due, now) == "Due Soon" <==> StatusClasses(due, now) == "text-orange-600"
    ensures StatusText(due, now) == "On Track" <==> StatusClasses(due, now) == "text-gray-600"
    ensures due.None? ==> StatusText(due, now) == "On Track"
  {
  }

  datatype PriorityConfig = PriorityConfig(color: string, labelText: string)

  const MediumConfig := PriorityConfig("text-yellow-600 bg-yellow-100", "Medium")

  /** `getTaskPriorityConfig(priority)` for a parameter of type
      `Task["priority"]`: the table entry of that priority. */
  function PriorityConfigFor(p: Priority): (r: PriorityConfig)
    ensures r == MediumConfig <==> p == Medium
    ensures r.labelText == match p case Low => "Low" case Medium => "Medium" case High => "High"
  {
    match p
    case Low => PriorityConfig("text-green-600 bg-green-100", "Low")
    case Medium => MediumConfig
    case High => PriorityConfig("text-red-600 bg-red-100", "High")
  }

  /** Each priority gets a colour no other priority has. */
  lemma PriorityConfigLabels(p: Priority, q: Priority)
    ensures p != q ==> PriorityConfigFor(p).color != PriorityConfigFor(q).color
    ensures p != q ==> PriorityConfigFor(p).labelText != PriorityConfigFor(q).labelText
  {
  }
}
