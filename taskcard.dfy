/** What a card on the board shows (components/projects/kanban/TaskCard.tsx):
    how close the due date is, the share of subtasks done, the accent colour
    that follows from the due date, the assignee's initials, and the request a
    click on a subtask sends. The current time is an input. */
module TaskCard {
  import opened Common
  import opened Types

  datatype DueKind = Overdue | DueSoon | Normal

  const HourMs: int := 3_600_000
  const DayMs: int := 24 * HourMs

  /** `getDueDateStatus`: a date before `now` is overdue, one at most 24 hours
      after it is due soon, anything later or no date at all is normal. */
  function DueStatus(due: Option<int>, now: int): DueKind {
    match due
    case None => Normal
    case Some(d) =>
      if d - now < 0 then Overdue
      else if d - now <= DayMs then DueSoon
      else Normal
  }

  /** The classification, spelled out against the clock. */
  lemma DueStatusSpec(due: Option<int>, now: int)
    ensures DueStatus(due, now) == Overdue <==> due.Some? && due.value < now
    ensures DueStatus(due, now) == DueSoon <==> due.Some? && now <= due.value <= now + DayMs
    ensures DueStatus(due, now) == Normal <==> due.None? || due.value > now + DayMs
  {
  }

  /** How urgent a kind is. */
  function Urgency(k: DueKind): nat {
    match k
    case Overdue => 2
    case DueSoon => 1
    case Normal => 0
  }

  /** A later due date is never more urgent, and as time passes a date only
      becomes more urgent. */
  lemma DueStatusMonotone(d1: int, d2: int, now1: int, now2: int)
    requires d1 <= d2 && now1 <= now2
    ensures Urgency(DueStatus(Some(d2), now1)) <= Urgency(DueStatus(Some(d1), now1))
    ensures Urgency(DueStatus(Some(d1), now1)) <= Urgency(DueStatus(Some(d1), now2))
  {
  }

  /** The number of completed subtasks. */
  function Completed(subtasks: seq<Subtask>): (n: nat)
    ensures n <= |subtasks|
  {
    Count(subtasks, (s: Subtask) => s.completed)
  }

  /** The share of subtasks that are completed, as a whole percentage
      (`Math.round(done / total * 100)`, 0 without subtasks). */
  function Progress(subtasks: seq<Subtask>): (pct: nat)
    ensures pct <= 100
  {
    if |subtasks| == 0 then 0
    else
      RoundedPercentRange(Completed(subtasks), |subtasks|);
      RoundedPercent(Completed(subtasks), |subtasks|)
  }

  /** Progress is the nearest whole percentage to the completed share: 100
      when every subtask is done, 0 when none is. */
  lemma ProgressSpec(subtasks: seq<Subtask>)
    requires |subtasks| > 0
    ensures 2 * |subtasks| * Progress(subtasks) <= 200 * Completed(subtasks) + |subtasks|
    ensures 200 * Completed(subtasks) + |subtasks| < 2 * |subtasks| * (Progress(subtasks) + 1)
    ensures (forall s :: s in subtasks ==> s.completed) ==> Progress(subtasks) == 100
    ensures (forall s :: s in subtasks ==> !s.completed) ==> Progress(subtasks) == 0
  {
    RoundedPercentRange(Completed(subtasks), |subtasks|);
    if forall s :: s in subtasks ==> s.completed {
      CountAll(subtasks, (s: Subtask) => s.completed);
    }
    if forall s :: s in subtasks ==> !s.completed {
      CountNone(subtasks, (s: Subtask) => s.completed);
    }
  }

  datatype Accent = Rose | Amber | Transparent

  function AccentOf(k: DueKind): Accent {
    match k
    case Overdue => Rose
    case DueSoon => Amber
    case Normal => Transparent
  }

  /** The accent marks exactly the cards that are overdue or due soon, and
      tells the two apart. */
  lemma AccentSpec(due: Option<int>, now: int)
    ensures AccentOf(DueStatus(due, now)) == Rose <==> due.Some? && due.value < now
    ensures AccentOf(DueStatus(due, now)) == Amber <==> due.Some? && now <= due.value <= now + DayMs
    ensures AccentOf(DueStatus(due, now)) == Transparent <==> due.None? || due.value > now + DayMs
  {
    DueStatusSpec(due, now);
  }

  /** `updateSubtaskStatus(task.id, subtaskId, !currentStatus)`. */
  datatype SubtaskStatusRequest = SubtaskStatusRequest(taskId: string, subtaskId: string, completed: bool)

  function ToggleRequest(t: Task, s: Subtask): (r: SubtaskStatusRequest)
    ensures r.taskId == t.id && r.subtaskId == s.id
    ensures r.completed != s.completed
  {
    SubtaskStatusRequest(t.id, s.id, !s.completed)
  }

  /** The card's avatar: the initials of the assignee's display name, taken
      without trimming, or "?" when the task has no assignee or the name has
      no initials. */
  function CardInitials(t: Task): (r: string)
    ensures 1 <= |r| <= 2
    ensures t.assignedTo.None? || t.assignedTo.value.displayName.None? ==> r == "?"
  {
    if t.assignedTo.Some? && t.assignedTo.value.displayName.Some? then
      Initials(t.assignedTo.value.displayName.value)
    else "?"
  }

  /** A name with two words gives their initials. */
  lemma CardInitialsTwoWords(t: Task, a: string, b: string)
    requires a != [] && b != [] && ' ' !in a && ' ' !in b
    requires t.assignedTo.Some? && t.assignedTo.value.displayName == Some(a + [' '] + b)
    ensures CardInitials(t) == [UpperChar(a[0]), UpperChar(b[0])]
  {
    assert a + [' '] + b == a + [' '] + b + [];
    InitialsTwoWords(a, b, []);
  }

  /** A leading space loses the first initial, since the untrimmed name then
      starts with an empty word. */
  lemma CardInitialsLeadingSpace(t: Task, a: string)
    requires a != [] && ' ' !in a
    requires t.assignedTo.Some? && t.assignedTo.value.displayName == Some([' '] + a)
    ensures CardInitials(t) == [UpperChar(a[0])]
  {
    assert [' '] + a == [] + [' '] + a;
    SplitFirstWord([], a);
    assert Split(a, ' ') == [a];
    var two := FirstTwo(Split([' '] + a, ' '));
    assert two == [[], a];
    assert FirstChars(two) == FirstChar([]) + FirstChars([a]);
    assert FirstChars([a]) == FirstChar(a) + FirstChars([]);
  }
}
