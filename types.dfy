/** The documents of the board as the client sees them: users, tags, subtasks
    and tasks enriched with their assignee, subtasks and tags. Dates are
    milliseconds since the epoch; a missing or unreadable date is `None`. */
module Types {
  import opened Common

  /** The three statuses the board has columns for. A status is a plain
      string: nothing stops a document from carrying any other value. */
  const TodoStatus: string := "todo"
  const InProgressStatus: string := "in-progress"
  const DoneStatus: string := "done"

  predicate IsBoardStatus(s: string) {
    s == TodoStatus || s == InProgressStatus || s == DoneStatus
  }

  datatype User = User(uid: string, email: string, displayName: Option<string>)

  datatype Tag = Tag(id: string, teamId: string, name: string, color: string)

  datatype Subtask = Subtask(id: string, taskId: string, title: string, completed: bool)

  /** A task with its details. `tags` is `None` when the fetched record did not
      carry an array there. */
  datatype Task = Task(
    id: string,
    projectId: string,
    teamId: string,
    title: string,
    description: Option<string>,
    status: string,
    priority: string,
    assignedToId: Option<string>,
    createdBy: string,
    dueDate: Option<int>,
    assignedTo: Option<User>,
    subtasks: seq<Subtask>,
    tags: Option<seq<Tag>>)

  /** `Array.isArray(task.tags) ? task.tags : []` */
  function TagsOf(t: Task): seq<Tag> {
    if t.tags.Some? then t.tags.value else []
  }

  datatype Project = Project(
    id: string,
    teamId: string,
    name: string,
    description: Option<string>,
    status: Option<string>,
    taskCount: Option<nat>)

  /** `tasks.map(t => t.id === id ? { ...t, status } : t)`: every task with
      that id gets the new status, every other task is kept as it is. */
  function WithStatus(tasks: seq<Task>, id: string, status: string): (r: seq<Task>)
    ensures |r| == |tasks|
    ensures forall i :: 0 <= i < |tasks| ==>
      r[i] == if tasks[i].id == id then tasks[i].(status := status) else tasks[i]
  {
    seq(|tasks|, i requires 0 <= i < |tasks| =>
      if tasks[i].id == id then tasks[i].(status := status) else tasks[i])
  }

  /** Moving a task and moving it back to the status it had restores the list. */
  lemma WithStatusUndo(tasks: seq<Task>, id: string, from: string, to: string)
    requires forall t :: t in tasks && t.id == id ==> t.status == from
    ensures WithStatus(WithStatus(tasks, id, to), id, from) == tasks
  {
    var r := WithStatus(WithStatus(tasks, id, to), id, from);
    forall i | 0 <= i < |tasks| ensures r[i] == tasks[i] {
      if tasks[i].id == id {
        assert tasks[i] in tasks;
      }
    }
  }

  /** The first task with the given id (`tasks.find(t => t.id === id)`). */
  function FindTask(tasks: seq<Task>, id: string): (r: Option<Task>)
    ensures r.None? <==> forall t :: t in tasks ==> t.id != id
    ensures r.Some? ==> r.value in tasks && r.value.id == id
    ensures r.Some? ==> exists k :: 0 <= k < |tasks| && tasks[k] == r.value && forall j :: 0 <= j < k ==> tasks[j].id != id
  {
    if tasks == [] then None
    else if tasks[0].id == id then Some(tasks[0])
    else FindTask(tasks[1..], id)
  }
}
