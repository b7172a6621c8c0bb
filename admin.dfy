/** The administrator's dashboard (components/dashboards/admin-dashboard.tsx):
    per-project task totals and completion percentage, the team-wide task and
    project counters, the project status badge, member avatars and the label
    of an activity entry. */
module AdminDashboard {
  import opened Common
  import opened Types

  /** A task counts as finished when its status is "done" or "completed". */
  predicate IsFinished(t: Task) {
    t.status == DoneStatus || t.status == "completed"
  }

  /** The project's tasks: those whose `projectId` is the project's id. */
  function ProjectTasks(p: Project, tasks: seq<Task>): seq<Task> {
    Filter(tasks, (t: Task) => t.projectId == p.id)
  }

  datatype Totals = Totals(all: nat, todo: nat, progress: nat, done: nat)

  /** `totals` of a project card. `all` falls back to the stored task count
      (then to 0) when no loaded task belongs to the project. */
  function ProjectTotals(p: Project, tasks: seq<Task>): (r: Totals)
    ensures r.todo + r.progress + r.done <= |ProjectTasks(p, tasks)|
    ensures |ProjectTasks(p, tasks)| > 0 ==> r.all == |ProjectTasks(p, tasks)|
    ensures |ProjectTasks(p, tasks)| == 0 ==> r.all == p.taskCount.GetOr(0) && r.done == 0
    ensures r.done <= r.all
    ensures r.todo == |Filter(ProjectTasks(p, tasks), (t: Task) => t.status == TodoStatus)|
    ensures r.progress == |Filter(ProjectTasks(p, tasks), (t: Task) => t.status == InProgressStatus)|
    ensures r.done == |Filter(ProjectTasks(p, tasks), IsFinished)|
  {
    var pt := ProjectTasks(p, tasks);
    CountIsFilterLength(pt, (t: Task) => t.status == TodoStatus);
    CountIsFilterLength(pt, (t: Task) => t.status == InProgressStatus);
    CountIsFilterLength(pt, IsFinished);
    var todo := Count(pt, (t: Task) => t.status == TodoStatus);
    var progress := Count(pt, (t: Task) => t.status == InProgressStatus);
    var done := Count(pt, IsFinished);
    CountDisjoint(pt, (t: Task) => t.status == TodoStatus, (t: Task) => t.status == InProgressStatus);
    CountThreeDisjoint(pt);
    Totals(if |pt| > 0 then |pt| else p.taskCount.GetOr(0), todo, progress, done)
  }

  lemma {:induction false} CountThreeDisjoint(s: seq<Task>)
    ensures Count(s, (t: Task) => t.status == TodoStatus) + Count(s, (t: Task) => t.status == InProgressStatus)
            + Count(s, IsFinished) <= |s|
  {
    if s != [] {
      CountThreeDisjoint(s[..|s| - 1]);
    }
  }

  /** `percent`: 0 when there is nothing to count, otherwise the rounded
      share of finished tasks. */
  function ProjectPercent(p: Project, tasks: seq<Task>): (pct: nat)
    ensures pct <= 100
    ensures ProjectTotals(p, tasks).all == 0 ==> pct == 0
    ensures var totals := ProjectTotals(p, tasks);
      totals.all > 0 ==> 2 * totals.all * pct <= 200 * totals.done + totals.all < 2 * totals.all * (pct + 1)
  {
    var totals := ProjectTotals(p, tasks);
    if totals.all == 0 then 0
    else
      RoundedPercentRange(totals.done, totals.all);
      RoundedPercent(totals.done, totals.all)
  }

  /** A card shows 100% when every loaded task of the project is finished,
      and 0% when none is or when only the stored task count is known. */
  lemma ProjectPercentSpec(p: Project, tasks: seq<Task>)
    ensures |ProjectTasks(p, tasks)| == 0 ==> ProjectPercent(p, tasks) == 0
    ensures |ProjectTasks(p, tasks)| > 0 && (forall t :: t in ProjectTasks(p, tasks) ==> IsFinished(t)) ==>
      ProjectPercent(p, tasks) == 100
    ensures (forall t :: t in ProjectTasks(p, tasks) ==> !IsFinished(t)) ==> ProjectPercent(p, tasks) == 0
  {
    var pt := ProjectTasks(p, tasks);
    var totals := ProjectTotals(p, tasks);
    if totals.all > 0 {
      RoundedPercentRange(totals.done, totals.all);
    }
    if |pt| > 0 && forall t :: t in pt ==> IsFinished(t) {
      CountAll(pt, IsFinished);
    }
    if forall t :: t in pt ==> !IsFinished(t) {
      CountNone(pt, IsFinished);
    }
  }

  /** A task belongs to the card of the project whose id it carries, and to
      no other card. */
  lemma ProjectTasksSpec(p: Project, tasks: seq<Task>, t: Task)
    ensures t in ProjectTasks(p, tasks) <==> t in tasks && t.projectId == p.id
  {
    FilterMembership(tasks, (t: Task) => t.projectId == p.id, t);
  }

  datatype Overview = Overview(toDo: nat, inProgress: nat, done: nat, activeProjects: nat)

  /** The four counters at the top of the page. */
  function TeamOverview(tasks: seq<Task>, projects: seq<Project>): (r: Overview)
    ensures r.toDo + r.inProgress + r.done <= |tasks|
    ensures r.activeProjects <= |projects|
  {
    CountThreeDisjoint(tasks);
    Overview(
      Count(tasks, (t: Task) => t.status == TodoStatus),
      Count(tasks, (t: Task) => t.status == InProgressStatus),
      Count(tasks, IsFinished),
      Count(projects, (p: Project) => p.status == Some("active")))
  }

  /** Each counter is the number of tasks the matching filter keeps. */
  lemma TeamOverviewSpec(tasks: seq<Task>, projects: seq<Project>)
    ensures TeamOverview(tasks, projects).toDo == |Filter(tasks, (t: Task) => t.status == TodoStatus)|
    ensures TeamOverview(tasks, projects).inProgress == |Filter(tasks, (t: Task) => t.status == InProgressStatus)|
    ensures TeamOverview(tasks, projects).done == |Filter(tasks, IsFinished)|
    ensures TeamOverview(tasks, projects).activeProjects ==
      |Filter(projects, (p: Project) => p.status == Some("active"))|
  {
    CountIsFilterLength(tasks, (t: Task) => t.status == TodoStatus);
    CountIsFilterLength(tasks, (t: Task) => t.status == InProgressStatus);
    CountIsFilterLength(tasks, IsFinished);
    CountIsFilterLength(projects, (p: Project) => p.status == Some("active"));
  }

  /** `StatusBadge`: the label of a project status. */
  function StatusLabel(status: Option<string>): (shown: string)
    ensures shown in {"Activo", "Pausado", "Archivado", "Desconocido"}
  {
    match status.GetOr("")
    case "active" => "Activo"
    case "paused" => "Pausado"
    case "archived" => "Archivado"
    case _ => "Desconocido"
  }

  /** A missing status or one that is none of the three known ones shows
      "Desconocido", and only those do. */
  lemma StatusLabelSpec(status: Option<string>)
    ensures StatusLabel(status) == "Desconocido" <==>
      status.None? || status.value !in {"active", "paused", "archived"}
  {
  }

  /** `Avatar`: the initials of the trimmed name. */
  function AvatarInitials(name: Option<string>): (r: string)
    ensures 1 <= |r| <= 2
    ensures name.None? ==> r == "?"
  {
    InitialsEmpty();
    Initials(Trim(name.GetOr("")))
  }

  /** `action?.replace(/_/g, " ") ?? "actividad"`. */
  function ActivityLabel(action: Option<string>): (shown: string)
    ensures action.None? ==> shown == "actividad"
    ensures action.Some? ==> |shown| == |action.value| && '_' !in shown
    ensures action.Some? ==> forall i :: 0 <= i < |shown| ==>
      shown[i] == if action.value[i] == '_' then ' ' else action.value[i]
  {
    match action
    case None => "actividad"
    case Some(a) => ReplaceChar(a, '_', ' ')
  }
}
