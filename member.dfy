/** The team member's dashboard (components/dashboards/member-dashboard.tsx):
    counters over the tasks assigned to the member, those tasks in due-date
    order, each task's subtask progress, the recent activity and the priority
    and status chips. */
module MemberDashboard {
  import opened Common
  import opened Types
  import TaskCard

  datatype Counters = Counters(total: nat, todo: nat, inProgress: nat, done: nat)

  function CountStatus(tasks: seq<Task>, s: string): nat {
    Count(tasks, (t: Task) => t.status == s)
  }

  /** The counting loop: every task adds to `total`, and to the counter of its
      status when it has one of the three. */
  method CountTasks(tasks: seq<Task>) returns (c: Counters)
    ensures c.total == |tasks|
    ensures c.todo == CountStatus(tasks, TodoStatus)
    ensures c.inProgress == CountStatus(tasks, InProgressStatus)
    ensures c.done == CountStatus(tasks, DoneStatus)
    ensures c.todo + c.inProgress + c.done <= c.total
  {
    var t, td, ip, dn := 0, 0, 0, 0;
    for i := 0 to |tasks|
      invariant t == i
      invariant td == CountStatus(tasks[..i], TodoStatus)
      invariant ip == CountStatus(tasks[..i], InProgressStatus)
      invariant dn == CountStatus(tasks[..i], DoneStatus)
      invariant td + ip + dn <= t
    {
      assert tasks[..i + 1][..i] == tasks[..i];
      t := t + 1;
      if tasks[i].status == TodoStatus {
        td := td + 1;
      } else if tasks[i].status == InProgressStatus {
        ip := ip + 1;
      } else if tasks[i].status == DoneStatus {
        dn := dn + 1;
      }
    }
    assert tasks[..|tasks|] == tasks;
    c := Counters(t, td, ip, dn);
  }

  /** Due dates in ascending order with a missing date last
      (`getTime() ?? Infinity`, compared by subtraction). */
  predicate DueLeq(a: Task, b: Task) {
    match b.dueDate
    case None => true
    case Some(y) => a.dueDate.Some? && a.dueDate.value <= y
  }

  lemma DueLeqIsTotalPreorder()
    ensures TotalPreorder(DueLeq)
  {
  }

  /** `tasksSorted`: a sorted copy; the assigned list itself is a value and
      stays as it was. */
  function TasksSorted(tasks: seq<Task>): seq<Task> {
    SortBy(tasks, DueLeq)
  }

  /** The sorted list holds the assigned tasks, each as often as before, by
      due date, and every task without a date comes after every dated one. */
  lemma TasksSortedSpec(tasks: seq<Task>)
    ensures multiset(TasksSorted(tasks)) == multiset(tasks)
    ensures SortedBy(TasksSorted(tasks), DueLeq)
    ensures forall i, j :: 0 <= i < j < |TasksSorted(tasks)| && TasksSorted(tasks)[i].dueDate.None? ==>
      TasksSorted(tasks)[j].dueDate.None?
  {
    DueLeqIsTotalPreorder();
    SortBySorted(tasks, DueLeq);
  }

  /** Tasks due at the same moment (or both undated) keep the order in
      which they were assigned. */
  lemma TasksSortedKeepsTies(tasks: seq<Task>, due: Option<int>)
    ensures Filter(TasksSorted(tasks), (t: Task) => t.dueDate == due) == Filter(tasks, (t: Task) => t.dueDate == due)
  {
    SortByStable(tasks, DueLeq, (t: Task) => t.dueDate == due);
  }

  /** The member card's progress bar is the board card's: 0 without
      subtasks, otherwise the rounded completed share. */
  function CardProgress(t: Task): (pct: nat)
    ensures pct <= 100
    ensures t.subtasks == [] ==> pct == 0
  {
    TaskCard.Progress(t.subtasks)
  }

  /** At most the six most recent entries are listed, in the order given. */
  function ShownActivity<T>(logs: seq<T>): (r: seq<T>)
    ensures |r| <= 6 && r <= logs
    ensures |logs| <= 6 ==> r == logs
  {
    if |logs| <= 6 then logs else logs[..6]
  }

  datatype PriorityTone = Rose | Amber | Sky | Muted

  /** `PriorityChip`: the lower-cased priority, in Spanish or English. */
  function PriorityToneOf(priority: Option<string>): PriorityTone {
    match Lower(priority.GetOr(""))
    case "alta" => Rose
    case "high" => Rose
    case "media" => Amber
    case "medium" => Amber
    case "baja" => Sky
    case "low" => Sky
    case _ => Muted
  }

  /** The tone does not depend on letter case. */
  lemma PriorityToneIgnoresCase(p: string, q: string)
    requires Lower(p) == Lower(q)
    ensures PriorityToneOf(Some(p)) == PriorityToneOf(Some(q))
  {
  }

  /** The English and Spanish names of a priority share a tone, in any case. */
  lemma PriorityToneHigh()
    ensures PriorityToneOf(Some("HIGH")) == PriorityToneOf(Some("alta")) == Rose
  {
    LowerOf("HIGH", "high");
    LowerOf("alta", "alta");
  }

  lemma PriorityToneMedium()
    ensures PriorityToneOf(Some("Medium")) == PriorityToneOf(Some("media")) == Amber
  {
    LowerOf("Medium", "medium");
    LowerOf("media", "media");
  }

  /** ... and a missing priority is shown muted. */
  lemma PriorityToneLow()
    ensures PriorityToneOf(Some("low")) == PriorityToneOf(Some("Baja")) == Sky
    ensures PriorityToneOf(None) == Muted
  {
    LowerOf("low", "low");
    LowerOf("Baja", "baja");
    LowerOf("", "");
  }

  lemma LowerOf(s: string, t: string)
    requires |s| == |t| && forall i :: 0 <= i < |s| ==> LowerChar(s[i]) == t[i]
    ensures Lower(s) == t
  {
  }

  /** `StatusBadge`: lower-cased, hyphens shown as spaces, "—" when empty. */
  function StatusText(status: Option<string>): (shown: string)
    ensures shown != [] && '-' !in shown
    ensures status.None? || status.value == "" ==> shown == "—"
    ensures status.Some? && status.value != "" ==> |shown| == |status.value|
    ensures status.Some? && status.value != "" ==> forall i :: 0 <= i < |shown| ==>
      shown[i] == if LowerChar(status.value[i]) == '-' then ' ' else LowerChar(status.value[i])
  {
    var s := ReplaceChar(Lower(status.GetOr("")), '-', ' ');
    if s == "" then "—" else s
  }

  datatype CardAccent = Emerald | Indigo | Violet

  function CardAccentOf(t: Task): (a: CardAccent)
    ensures a == Emerald <==> t.status == DoneStatus
    ensures a == Indigo <==> t.status == InProgressStatus
  {
    if t.status == DoneStatus then Emerald
    else if t.status == InProgressStatus then Indigo
    else Violet
  }
}
