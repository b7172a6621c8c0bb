/** The task mutation service (services/kanbanService.ts) over an in-memory
    copy of the four collections it writes: `tasks`, `subtasks`, `taskTags`
    (one document per task-tag link) and `activityLog`. Each operation writes
    its documents and then appends an entry to the activity log; a failed log
    write is swallowed. Document ids chosen by the database are drawn from a
    counter: the n-th id is a string of length n, so a new id is never a key
    already in use. Timestamps are left out. */
module KanbanStore {
  import opened Common
  import opened Types

  datatype TaskDoc = TaskDoc(
    projectId: string,
    teamId: string,
    title: string,
    description: Option<string>,
    status: string,
    priority: string,
    assignedToId: Option<string>,
    createdBy: string,
    dueDate: Option<int>)

  datatype SubtaskDoc = SubtaskDoc(taskId: string, title: string, completed: bool)

  datatype TaskTagDoc = TaskTagDoc(taskId: string, tagId: string)

  datatype Details =
    | NoDetails
    | NewStatus(status: string)
    | SubtaskRef(subtaskId: string)
    | TitleDetail(title: string)
    | UpdatedFields(fields: seq<string>)
    | NewTagIds(tagIds: seq<string>)
    | SubtaskRetitled(subtaskId: string, newTitle: string)

  datatype LogEntry = LogEntry(taskId: string, teamId: string, userId: string, action: string, details: Details)

  const StatusChange: string := "status_change"
  const SubtaskCompleted: string := "subtask_completed"
  const SubtaskUncompleted: string := "subtask_uncompleted"
  const TaskCreated: string := "task_created"
  const TaskUpdated: string := "task_updated"
  const TaskDeleted: string := "task_deleted"
  const SubtaskAdded: string := "subtask_added"
  const SubtaskRemoved: string := "subtask_removed"
  const TagsUpdated: string := "tags_updated"
  const SubtaskUpdated: string := "subtask_updated"

  /** Why an operation threw: the document to update does not exist, or the
      new subtask title is blank. */
  datatype Failure = NotFound | EmptyTitle | SubtaskStatusFailed

  datatype Outcome = Ok | Err(failure: Failure)

  /** The collections, and the counter that draws the next document id. */
  datatype Db = Db(
    tasks: map<string, TaskDoc>,
    subtasks: map<string, SubtaskDoc>,
    taskTags: map<string, TaskTagDoc>,
    activityLog: seq<LogEntry>,
    nextId: nat)

  /** The id the database hands out n-th. */
  function AutoId(n: nat): (id: string)
    ensures |id| == n
  {
    seq(n, _ => '#')
  }

  /** Every id in use was handed out before the counter's value. */
  predicate ValidDb(db: Db) {
    (forall k :: k in db.tasks ==> |k| < db.nextId) &&
    (forall k :: k in db.subtasks ==> |k| < db.nextId) &&
    (forall k :: k in db.taskTags ==> |k| < db.nextId)
  }

  /** `createActivityLog`: the entry is appended when the write succeeds; a
      failed write changes nothing and is not reported. */
  function Log(db: Db, e: LogEntry, written: bool): (r: Db)
    ensures r.tasks == db.tasks && r.subtasks == db.subtasks && r.taskTags == db.taskTags && r.nextId == db.nextId
    ensures r.activityLog == if written then db.activityLog + [e] else db.activityLog
  {
    if written then db.(activityLog := db.activityLog + [e]) else db
  }

  // ---------------------------------------------------------------------------
  // Adding documents under fresh ids
  // ---------------------------------------------------------------------------

  /** `docs` added to `m` under the ids handed out from `n` on, in order. */
  function Inserted<D>(m: map<string, D>, n: nat, docs: seq<D>): map<string, D> {
    if docs == [] then m
    else Inserted(m, n, docs[..|docs| - 1])[AutoId(n + |docs| - 1) := docs[|docs| - 1]]
  }

  /** The documents that were there keep their ids and contents; the new
      documents are under the ids `n`, `n + 1`, ... in order; there is nothing
      else. */
  lemma {:induction false} InsertedSpec<D>(m: map<string, D>, n: nat, docs: seq<D>)
    requires forall k :: k in m ==> |k| < n
    ensures forall k :: k in m ==> k in Inserted(m, n, docs) && Inserted(m, n, docs)[k] == m[k]
    ensures forall j :: n <= j < n + |docs| ==>
      AutoId(j) in Inserted(m, n, docs) && Inserted(m, n, docs)[AutoId(j)] == docs[j - n]
    ensures forall k :: k in Inserted(m, n, docs) ==> k in m || exists j :: n <= j < n + |docs| && k == AutoId(j)
  {
    if docs != [] {
      var init := docs[..|docs| - 1];
      var last := AutoId(n + |docs| - 1);
      var r := Inserted(m, n, docs);
      InsertedSpec(m, n, init);
      assert r == Inserted(m, n, init)[last := docs[|docs| - 1]];
      forall j | n <= j < n + |docs|
        ensures AutoId(j) in r && r[AutoId(j)] == docs[j - n]
      {
        if j < n + |docs| - 1 {
          assert |AutoId(j)| < |last|;
          assert init[j - n] == docs[j - n];
        }
      }
      forall k | k in r
        ensures k in m || exists j :: n <= j < n + |docs| && k == AutoId(j)
      {
        if k != last {
          assert k in Inserted(m, n, init);
        }
      }
    }
  }

  /** Adding documents under fresh ids keeps the documents that were there
      and every id below the counter. */
  lemma InsertedBelow<D>(m: map<string, D>, n: nat, docs: seq<D>, bound: nat)
    requires forall k :: k in m ==> |k| < n
    requires n + |docs| <= bound
    ensures forall k :: k in m ==> k in Inserted(m, n, docs) && Inserted(m, n, docs)[k] == m[k]
    ensures forall k :: k in Inserted(m, n, docs) ==> |k| < bound
  {
    InsertedSpec(m, n, docs);
  }

  lemma InsertedSnoc<D>(m: map<string, D>, n: nat, docs: seq<D>, d: D)
    ensures Inserted(m, n, docs + [d]) == Inserted(m, n, docs)[AutoId(n + |docs|) := d]
  {
    assert (docs + [d])[..|docs|] == docs;
  }

  function SubtaskDocs(taskId: string, titles: seq<string>): (r: seq<SubtaskDoc>)
    ensures |r| == |titles|
  {
    if titles == [] then [] else SubtaskDocs(taskId, titles[..|titles| - 1]) + [SubtaskDoc(taskId, titles[|titles| - 1], false)]
  }

  function LinkDocs(taskId: string, tagIds: seq<string>): (r: seq<TaskTagDoc>)
    ensures |r| == |tagIds|
  {
    if tagIds == [] then [] else LinkDocs(taskId, tagIds[..|tagIds| - 1]) + [TaskTagDoc(taskId, tagIds[|tagIds| - 1])]
  }

  lemma {:induction false} SubtaskDocsAt(taskId: string, titles: seq<string>)
    ensures forall i :: 0 <= i < |titles| ==> SubtaskDocs(taskId, titles)[i] == SubtaskDoc(taskId, titles[i], false)
  {
    if titles != [] {
      SubtaskDocsAt(taskId, titles[..|titles| - 1]);
    }
  }

  lemma {:induction false} LinkDocsAt(taskId: string, tagIds: seq<string>)
    ensures forall i :: 0 <= i < |tagIds| ==> LinkDocs(taskId, tagIds)[i] == TaskTagDoc(taskId, tagIds[i])
  {
    if tagIds != [] {
      LinkDocsAt(taskId, tagIds[..|tagIds| - 1]);
    }
  }

  // ---------------------------------------------------------------------------
  // The operations, on the whole database
  // ---------------------------------------------------------------------------

  /** `updateTaskStatus`: the task takes the new status (updating a missing
      document throws), then the change is logged. */
  function UpdateTaskStatus(db: Db, taskId: string, status: string, userId: string, teamId: string, logged: bool): (Db, Outcome) {
    if taskId !in db.tasks then (db, Err(NotFound))
    else
      var db1 := db.(tasks := db.tasks[taskId := db.tasks[taskId].(status := status)]);
      (Log(db1, LogEntry(taskId, teamId, userId, StatusChange, NewStatus(status)), logged), Ok)
  }

  /** The task has at least one subtask, and every one of them is completed. */
  predicate AllSubtasksDone(subtasks: map<string, SubtaskDoc>, taskId: string) {
    (exists k :: k in subtasks && subtasks[k].taskId == taskId) &&
    (forall k :: k in subtasks && subtasks[k].taskId == taskId ==> subtasks[k].completed)
  }

  /** `updateSubtaskCompletion`: sets the flag and logs it; then, when every
      subtask of `taskId` is completed, the task's status becomes "done"
      through `updateTaskStatus`, which logs a second entry. */
  function UpdateSubtaskCompletion(db: Db, subtaskId: string, taskId: string, completed: bool,
                                   userId: string, teamId: string, logged: bool, statusLogged: bool): (Db, Outcome)
  {
    if subtaskId !in db.subtasks then (db, Err(NotFound))
    else
      var db1 := db.(subtasks := db.subtasks[subtaskId := db.subtasks[subtaskId].(completed := completed)]);
      var action := if completed then SubtaskCompleted else SubtaskUncompleted;
      var db2 := Log(db1, LogEntry(taskId, teamId, userId, action, SubtaskRef(subtaskId)), logged);
      if AllSubtasksDone(db2.subtasks, taskId) then UpdateTaskStatus(db2, taskId, DoneStatus, userId, teamId, statusLogged)
      else (db2, Ok)
  }

  /** The fields `createTask` is given. `status` stands for whatever an
      untyped caller may put there: it is overwritten. */
  datatype CreateTaskData = CreateTaskData(
    projectId: string,
    teamId: string,
    title: string,
    description: Option<string>,
    priority: string,
    assignedToId: Option<string>,
    createdBy: string,
    dueDate: Option<int>,
    status: Option<string>,
    subtaskTitles: Option<seq<string>>,
    tagIds: Option<seq<string>>)

  function NewTaskDoc(data: CreateTaskData): TaskDoc {
    TaskDoc(data.projectId, data.teamId, data.title, data.description, TodoStatus, data.priority,
            data.assignedToId, data.createdBy, data.dueDate)
  }

  predicate NotBlank(title: string) {
    !IsBlank(title)
  }

  /** The subtask titles `createTask` keeps: those that are not blank, as
      given (untrimmed), in order. */
  function KeptTitles(data: CreateTaskData): seq<string> {
    Filter(data.subtaskTitles.GetOr([]), NotBlank)
  }

  /** The task document, under the id the database hands out next. */
  function WithTask(db: Db, data: CreateTaskData): Db {
    db.(tasks := db.tasks[AutoId(db.nextId) := NewTaskDoc(data)], nextId := db.nextId + 1)
  }

  /** One uncompleted subtask of `taskId` per non-blank title, in order,
      under the ids handed out next. */
  function WithSubtasks(db: Db, taskId: string, titles: seq<string>): Db {
    var kept := Filter(titles, NotBlank);
    db.(subtasks := Inserted(db.subtasks, db.nextId, SubtaskDocs(taskId, kept)), nextId := db.nextId + |kept|)
  }

  /** One link from `taskId` per tag id, in order, under the ids handed out
      next. */
  function WithLinks(db: Db, taskId: string, tagIds: seq<string>): Db {
    db.(taskTags := Inserted(db.taskTags, db.nextId, LinkDocs(taskId, tagIds)), nextId := db.nextId + |tagIds|)
  }

  /** `createTask`: one batch writes the task (status "todo"), one subtask
      per non-blank title and one link per tag id; then the creation is
      logged. The task's id, returned to the caller, is the id the database
      hands out next. */
  function CreateTask(db: Db, data: CreateTaskData, logged: bool): Db {
    var id := AutoId(db.nextId);
    var written := WithLinks(WithSubtasks(WithTask(db, data), id, data.subtaskTitles.GetOr([])), id, data.tagIds.GetOr([]));
    Log(written, LogEntry(id, data.teamId, data.createdBy, TaskCreated, TitleDetail(data.title)), logged)
  }

  /** The fields an edit changes; `None` leaves a field alone. A cleared
      assignee or due date is written as null, here `Some(None)`. */
  datatype Patch = Patch(
    title: Option<string>,
    description: Option<string>,
    assignedToId: Option<Option<string>>,
    priority: Option<string>,
    dueDate: Option<Option<int>>)

  /** `Object.keys(updates)`, in the order the edit form adds them. */
  function PatchFields(p: Patch): (r: seq<string>)
    ensures |r| <= 5
    ensures r == [] <==> p == Patch(None, None, None, None, None)
  {
    (if p.title.Some? then ["title"] else []) +
    (if p.description.Some? then ["description"] else []) +
    (if p.assignedToId.Some? then ["assignedToId"] else []) +
    (if p.priority.Some? then ["priority"] else []) +
    (if p.dueDate.Some? then ["dueDate"] else [])
  }

  /** `updateDoc(taskRef, { ...updates })`: the patched fields are replaced,
      the others kept. */
  function ApplyPatch(d: TaskDoc, p: Patch): (r: TaskDoc)
    ensures r.projectId == d.projectId && r.teamId == d.teamId && r.status == d.status && r.createdBy == d.createdBy
    ensures r.title == p.title.GetOr(d.title) && r.priority == p.priority.GetOr(d.priority)
    ensures r.description == if p.description.Some? then p.description else d.description
    ensures r.assignedToId == p.assignedToId.GetOr(d.assignedToId)
    ensures r.dueDate == p.dueDate.GetOr(d.dueDate)
  {
    d.(title := p.title.GetOr(d.title),
       description := if p.description.Some? then p.description else d.description,
       assignedToId := p.assignedToId.GetOr(d.assignedToId),
       priority := p.priority.GetOr(d.priority),
       dueDate := p.dueDate.GetOr(d.dueDate))
  }

  /** `updateTask`: applies the patch and logs the names of its fields. */
  function UpdateTask(db: Db, taskId: string, patch: Patch, userId: string, teamId: string, logged: bool): (Db, Outcome) {
    if taskId !in db.tasks then (db, Err(NotFound))
    else
      var db1 := db.(tasks := db.tasks[taskId := ApplyPatch(db.tasks[taskId], patch)]);
      (Log(db1, LogEntry(taskId, teamId, userId, TaskUpdated, UpdatedFields(PatchFields(patch))), logged), Ok)
  }

  function SubtasksWithout(m: map<string, SubtaskDoc>, taskId: string): map<string, SubtaskDoc> {
    map k | k in m && m[k].taskId != taskId :: m[k]
  }

  function LinksWithout(m: map<string, TaskTagDoc>, taskId: string): map<string, TaskTagDoc> {
    map k | k in m && m[k].taskId != taskId :: m[k]
  }

  /** `deleteTask`: one batch deletes the task, its subtasks and its tag
      links; then the deletion is logged. */
  function DeleteTask(db: Db, taskId: string, userId: string, teamId: string, logged: bool): Db {
    var db1 := db.(
      tasks := db.tasks - {taskId},
      subtasks := SubtasksWithout(db.subtasks, taskId),
      taskTags := LinksWithout(db.taskTags, taskId));
    Log(db1, LogEntry(taskId, teamId, userId, TaskDeleted, NoDetails), logged)
  }

  /** `addSubtask`: a new uncompleted subtask, whatever the title, under
      the id the database hands out next, which is returned. */
  function AddSubtask(db: Db, taskId: string, title: string, userId: string, teamId: string, logged: bool): Db {
    var id := AutoId(db.nextId);
    var db1 := db.(subtasks := db.subtasks[id := SubtaskDoc(taskId, title, false)], nextId := db.nextId + 1);
    Log(db1, LogEntry(taskId, teamId, userId, SubtaskAdded, TitleDetail(title)), logged)
  }

  /** `removeSubtask`: deleting a missing document is not an error. */
  function RemoveSubtask(db: Db, subtaskId: string, taskId: string, userId: string, teamId: string, logged: bool): Db {
    var db1 := db.(subtasks := db.subtasks - {subtaskId});
    Log(db1, LogEntry(taskId, teamId, userId, SubtaskRemoved, SubtaskRef(subtaskId)), logged)
  }

  /** `setTaskTags`: one batch deletes the task's links and adds one per
      entry of `newTagIds`; then the change is logged. */
  function SetTaskTags(db: Db, taskId: string, newTagIds: seq<string>, userId: string, teamId: string, logged: bool): Db {
    var written := WithLinks(db.(taskTags := LinksWithout(db.taskTags, taskId)), taskId, newTagIds);
    Log(written, LogEntry(taskId, teamId, userId, TagsUpdated, NewTagIds(newTagIds)), logged)
  }

  /** `updateSubtaskTitle`: a blank title throws before anything is written;
      otherwise the title is stored as given and the change logged. */
  function UpdateSubtaskTitle(db: Db, subtaskId: string, newTitle: string, userId: string, teamId: string,
                              taskId: string, logged: bool): (Db, Outcome)
  {
    if Trim(newTitle) == "" then (db, Err(EmptyTitle))
    else if subtaskId !in db.subtasks then (db, Err(NotFound))
    else
      var db1 := db.(subtasks := db.subtasks[subtaskId := db.subtasks[subtaskId].(title := newTitle)]);
      (Log(db1, LogEntry(taskId, teamId, userId, SubtaskUpdated, SubtaskRetitled(subtaskId, newTitle)), logged), Ok)
  }

  /** `updateSubtaskStatus`, used by the board's cards: one batch sets the
      flag and touches the parent task, so it fails as a whole when either is
      missing. Nothing is logged and the parent's status is not changed. */
  function UpdateSubtaskStatus(db: Db, taskId: string, subtaskId: string, completed: bool): (Db, Outcome) {
    if subtaskId !in db.subtasks || taskId !in db.tasks then (db, Err(SubtaskStatusFailed))
    else (db.(subtasks := db.subtasks[subtaskId := db.subtasks[subtaskId].(completed := completed)]), Ok)
  }

  // ---------------------------------------------------------------------------
  // What the operations promise
  // ---------------------------------------------------------------------------

  /** Writing the task document uses an id no task has and moves the
      counter past it. */
  lemma WithTaskSpec(db: Db, data: CreateTaskData)
    requires ValidDb(db)
    ensures ValidDb(WithTask(db, data))
    ensures AutoId(db.nextId) !in db.tasks
    ensures WithTask(db, data).nextId == db.nextId + 1
  {
    var after := WithTask(db, data);
    forall k | k in after.tasks
      ensures |k| < after.nextId
    {
      if k != AutoId(db.nextId) {
        assert k in db.tasks;
      }
    }
  }

  /** Writing subtasks moves the counter past their ids. */
  lemma WithSubtasksValid(db: Db, taskId: string, titles: seq<string>)
    requires ValidDb(db)
    ensures ValidDb(WithSubtasks(db, taskId, titles))
    ensures WithSubtasks(db, taskId, titles).nextId == db.nextId + |Filter(titles, NotBlank)|
  {
    var kept := Filter(titles, NotBlank);
    InsertedBelow(db.subtasks, db.nextId, SubtaskDocs(taskId, kept), db.nextId + |kept|);
  }

  /** Writing links moves the counter past their ids. */
  lemma WithLinksValid(db: Db, taskId: string, tagIds: seq<string>)
    requires ValidDb(db)
    ensures ValidDb(WithLinks(db, taskId, tagIds))
    ensures WithLinks(db, taskId, tagIds).nextId == db.nextId + |tagIds|
  {
    InsertedBelow(db.taskTags, db.nextId, LinkDocs(taskId, tagIds), db.nextId + |tagIds|);
  }

  /** The subtasks that were there stay; the new ones, one per kept title,
      are under new ids `db.nextId`, `db.nextId + 1`, ..., and there is no
      other new subtask. */
  lemma {:induction false} WithSubtasksSpec(db: Db, taskId: string, titles: seq<string>)
    requires ValidDb(db)
    ensures forall k :: k in db.subtasks ==>
      k in WithSubtasks(db, taskId, titles).subtasks && WithSubtasks(db, taskId, titles).subtasks[k] == db.subtasks[k]
    ensures forall j :: db.nextId <= j < db.nextId + |Filter(titles, NotBlank)| ==>
      AutoId(j) !in db.subtasks && AutoId(j) in WithSubtasks(db, taskId, titles).subtasks &&
      WithSubtasks(db, taskId, titles).subtasks[AutoId(j)] == SubtaskDoc(taskId, Filter(titles, NotBlank)[j - db.nextId], false)
    ensures forall k :: k in WithSubtasks(db, taskId, titles).subtasks && k !in db.subtasks ==>
      exists j :: db.nextId <= j < db.nextId + |Filter(titles, NotBlank)| && k == AutoId(j)
  {
    var kept := Filter(titles, NotBlank);
    var docs := SubtaskDocs(taskId, kept);
    InsertedSpec(db.subtasks, db.nextId, docs);
    SubtaskDocsAt(taskId, kept);
  }

  /** The same for tag links: the old links stay, one new link per tag id
      under new ids, and no other new link. */
  lemma {:induction false} WithLinksSpec(db: Db, taskId: string, tagIds: seq<string>)
    requires ValidDb(db)
    ensures forall k :: k in db.taskTags ==>
      k in WithLinks(db, taskId, tagIds).taskTags && WithLinks(db, taskId, tagIds).taskTags[k] == db.taskTags[k]
    ensures forall j :: db.nextId <= j < db.nextId + |tagIds| ==>
      AutoId(j) !in db.taskTags && AutoId(j) in WithLinks(db, taskId, tagIds).taskTags &&
      WithLinks(db, taskId, tagIds).taskTags[AutoId(j)] == TaskTagDoc(taskId, tagIds[j - db.nextId])
    ensures forall k :: k in WithLinks(db, taskId, tagIds).taskTags && k !in db.taskTags ==>
      exists j :: db.nextId <= j < db.nextId + |tagIds| && k == AutoId(j)
  {
    var docs := LinkDocs(taskId, tagIds);
    InsertedSpec(db.taskTags, db.nextId, docs);
    LinkDocsAt(taskId, tagIds);
  }

  /** A new task is always stored as "todo", whatever status the caller
      passed, under a new id that is returned; nothing that was there
      changes, every id in use stays below the counter, and the log gains
      the "task_created" entry when its write succeeds. */
  lemma CreateTaskSpec(db: Db, data: CreateTaskData, logged: bool)
    requires ValidDb(db)
    ensures ValidDb(CreateTask(db, data, logged))
    ensures AutoId(db.nextId) !in db.tasks
    ensures CreateTask(db, data, logged).tasks == db.tasks[AutoId(db.nextId) := NewTaskDoc(data)]
    ensures NewTaskDoc(data).status == TodoStatus && NewTaskDoc(data).title == data.title
    ensures forall k :: k in db.subtasks ==>
      k in CreateTask(db, data, logged).subtasks && CreateTask(db, data, logged).subtasks[k] == db.subtasks[k]
    ensures forall k :: k in db.taskTags ==>
      k in CreateTask(db, data, logged).taskTags && CreateTask(db, data, logged).taskTags[k] == db.taskTags[k]
    ensures CreateTask(db, data, logged).activityLog == db.activityLog +
      (if logged then [LogEntry(AutoId(db.nextId), data.teamId, data.createdBy, TaskCreated, TitleDetail(data.title))] else [])
  {
    var id := AutoId(db.nextId);
    var d1 := WithTask(db, data);
    WithTaskSpec(db, data);
    var d2 := WithSubtasks(d1, id, data.subtaskTitles.GetOr([]));
    WithSubtasksValid(d1, id, data.subtaskTitles.GetOr([]));
    WithSubtasksSpec(d1, id, data.subtaskTitles.GetOr([]));
    WithLinksValid(d2, id, data.tagIds.GetOr([]));
    WithLinksSpec(d2, id, data.tagIds.GetOr([]));
  }

  /** The new task gets one uncompleted subtask per non-blank title, in
      order and untrimmed, under new ids, and no other. */
  lemma CreateTaskSubtasks(db: Db, data: CreateTaskData, logged: bool)
    requires ValidDb(db)
    ensures forall j :: db.nextId + 1 <= j < db.nextId + 1 + |KeptTitles(data)| ==>
      AutoId(j) !in db.subtasks && AutoId(j) in CreateTask(db, data, logged).subtasks &&
      CreateTask(db, data, logged).subtasks[AutoId(j)] == SubtaskDoc(AutoId(db.nextId), KeptTitles(data)[j - db.nextId - 1], false)
    ensures forall k :: k in CreateTask(db, data, logged).subtasks && k !in db.subtasks ==>
      exists j :: db.nextId + 1 <= j < db.nextId + 1 + |KeptTitles(data)| && k == AutoId(j)
  {
    var id := AutoId(db.nextId);
    var d1 := WithTask(db, data);
    WithTaskSpec(db, data);
    var d2 := WithSubtasks(d1, id, data.subtaskTitles.GetOr([]));
    WithSubtasksSpec(d1, id, data.subtaskTitles.GetOr([]));
    assert CreateTask(db, data, logged).subtasks == d2.subtasks;
  }

  /** The new task gets one link per tag id, repeated ids included, under
      new ids that follow those of its subtasks, and no other. */
  lemma CreateTaskLinks(db: Db, data: CreateTaskData, logged: bool)
    requires ValidDb(db)
    ensures var base := db.nextId + 1 + |KeptTitles(data)|;
      forall j :: base <= j < base + |data.tagIds.GetOr([])| ==>
        AutoId(j) !in db.taskTags && AutoId(j) in CreateTask(db, data, logged).taskTags &&
        CreateTask(db, data, logged).taskTags[AutoId(j)] == TaskTagDoc(AutoId(db.nextId), data.tagIds.GetOr([])[j - base])
    ensures var base := db.nextId + 1 + |KeptTitles(data)|;
      forall k :: k in CreateTask(db, data, logged).taskTags && k !in db.taskTags ==>
        exists j :: base <= j < base + |data.tagIds.GetOr([])| && k == AutoId(j)
  {
    var id := AutoId(db.nextId);
    var tagIds := data.tagIds.GetOr([]);
    var d1 := WithTask(db, data);
    var d2 := WithSubtasks(d1, id, data.subtaskTitles.GetOr([]));
    assert ValidDb(d2) && d2.nextId == db.nextId + 1 + |KeptTitles(data)| && d2.taskTags == db.taskTags by {
      WithTaskSpec(db, data);
      WithSubtasksValid(d1, id, data.subtaskTitles.GetOr([]));
    }
    assert CreateTask(db, data, logged).taskTags == WithLinks(d2, id, tagIds).taskTags;
    WithLinksSpec(d2, id, tagIds);
  }

  /** The kept titles are exactly the non-blank ones, each as often as given. */
  lemma KeptTitlesSpec(data: CreateTaskData, t: string)
    ensures multiset(KeptTitles(data))[t] == if IsBlank(t) then 0 else multiset(data.subtaskTitles.GetOr([]))[t]
  {
    FilterMultiset(data.subtaskTitles.GetOr([]), NotBlank, t);
  }

  /** After a deletion no subtask and no link points at the task, the task
      is gone, and every other document is as it was. */
  lemma DeleteTaskSpec(db: Db, taskId: string, userId: string, teamId: string, logged: bool)
    ensures var after := DeleteTask(db, taskId, userId, teamId, logged);
      taskId !in after.tasks &&
      (forall k :: k in after.subtasks ==> after.subtasks[k].taskId != taskId) &&
      (forall k :: k in after.taskTags ==> after.taskTags[k].taskId != taskId) &&
      (forall k :: k in db.tasks && k != taskId ==> k in after.tasks && after.tasks[k] == db.tasks[k]) &&
      (forall k :: k in db.subtasks && db.subtasks[k].taskId != taskId ==> k in after.subtasks && after.subtasks[k] == db.subtasks[k]) &&
      (forall k :: k in db.taskTags && db.taskTags[k].taskId != taskId ==> k in after.taskTags && after.taskTags[k] == db.taskTags[k]) &&
      after.tasks.Keys <= db.tasks.Keys && after.subtasks.Keys <= db.subtasks.Keys && after.taskTags.Keys <= db.taskTags.Keys &&
      after.activityLog == db.activityLog + (if logged then [LogEntry(taskId, teamId, userId, TaskDeleted, NoDetails)] else [])
  {
  }

  /** After `setTaskTags` the task's links are one per entry of the new list,
      under new ids, and no other; the links of other tasks are untouched. */
  lemma SetTaskTagsSpec(db: Db, taskId: string, newTagIds: seq<string>, userId: string, teamId: string, logged: bool)
    requires ValidDb(db)
    ensures ValidDb(SetTaskTags(db, taskId, newTagIds, userId, teamId, logged))
    ensures forall j :: db.nextId <= j < db.nextId + |newTagIds| ==>
      AutoId(j) in SetTaskTags(db, taskId, newTagIds, userId, teamId, logged).taskTags &&
      SetTaskTags(db, taskId, newTagIds, userId, teamId, logged).taskTags[AutoId(j)] == TaskTagDoc(taskId, newTagIds[j - db.nextId])
    ensures var after := SetTaskTags(db, taskId, newTagIds, userId, teamId, logged).taskTags;
      forall k :: k in after && after[k].taskId == taskId ==>
        exists j :: db.nextId <= j < db.nextId + |newTagIds| && k == AutoId(j)
    ensures var after := SetTaskTags(db, taskId, newTagIds, userId, teamId, logged).taskTags;
      (forall k :: k in db.taskTags && db.taskTags[k].taskId != taskId ==> k in after && after[k] == db.taskTags[k]) &&
      (forall k :: k in after && after[k].taskId != taskId ==> k in db.taskTags)
    ensures var after := SetTaskTags(db, taskId, newTagIds, userId, teamId, logged);
      after.tasks == db.tasks && after.subtasks == db.subtasks &&
      after.activityLog == db.activityLog + (if logged then [LogEntry(taskId, teamId, userId, TagsUpdated, NewTagIds(newTagIds))] else [])
  {
    var cleared := db.(taskTags := LinksWithout(db.taskTags, taskId));
    assert ValidDb(cleared);
    WithLinksValid(cleared, taskId, newTagIds);
    WithLinksSpec(cleared, taskId, newTagIds);
  }

  /** Completing the last open subtask of a task (the one it belongs to)
      marks the task "done"; while a subtask stays open, or when the flag is
      cleared, the task's status is left alone. */
  lemma SubtaskCompletionSpec(db: Db, subtaskId: string, completed: bool, userId: string, teamId: string,
                              logged: bool, statusLogged: bool)
    requires subtaskId in db.subtasks
    requires db.subtasks[subtaskId].taskId in db.tasks
    ensures var taskId := db.subtasks[subtaskId].taskId;
      var (after, outcome) := UpdateSubtaskCompletion(db, subtaskId, taskId, completed, userId, teamId, logged, statusLogged);
      outcome == Ok &&
      after.subtasks == db.subtasks[subtaskId := db.subtasks[subtaskId].(completed := completed)] &&
      (!completed ==> after.tasks == db.tasks) &&
      ((completed && (forall k :: k in db.subtasks && k != subtaskId && db.subtasks[k].taskId == taskId ==> db.subtasks[k].completed))
        ==> after.tasks == db.tasks[taskId := db.tasks[taskId].(status := DoneStatus)]) &&
      ((exists k :: k in db.subtasks && k != subtaskId && db.subtasks[k].taskId == taskId && !db.subtasks[k].completed)
        ==> after.tasks == db.tasks)
    ensures var taskId := db.subtasks[subtaskId].taskId;
      var after := UpdateSubtaskCompletion(db, subtaskId, taskId, completed, userId, teamId, logged, statusLogged).0;
      var autoDone := completed &&
        forall k :: k in db.subtasks && k != subtaskId && db.subtasks[k].taskId == taskId ==> db.subtasks[k].completed;
      after.activityLog == db.activityLog +
        (if logged then [LogEntry(taskId, teamId, userId, if completed then SubtaskCompleted else SubtaskUncompleted,
                                  SubtaskRef(subtaskId))] else []) +
        (if autoDone && statusLogged then [LogEntry(taskId, teamId, userId, StatusChange, NewStatus(DoneStatus))] else [])
  {
    var taskId := db.subtasks[subtaskId].taskId;
    var subs := db.subtasks[subtaskId := db.subtasks[subtaskId].(completed := completed)];
    assert subs[subtaskId].taskId == taskId;
    if !completed {
      assert !AllSubtasksDone(subs, taskId);
    }
    if exists k :: k in db.subtasks && k != subtaskId && db.subtasks[k].taskId == taskId && !db.subtasks[k].completed {
      var k :| k in db.subtasks && k != subtaskId && db.subtasks[k].taskId == taskId && !db.subtasks[k].completed;
      assert subs[k] == db.subtasks[k];
      assert !AllSubtasksDone(subs, taskId);
    }
  }

  /** A blank title is refused and nothing is written; any other title is
      stored exactly as given, untrimmed. */
  lemma SubtaskTitleSpec(db: Db, subtaskId: string, newTitle: string, userId: string, teamId: string, taskId: string, logged: bool)
    ensures IsBlank(newTitle) ==>
      UpdateSubtaskTitle(db, subtaskId, newTitle, userId, teamId, taskId, logged) == (db, Err(EmptyTitle))
    ensures !IsBlank(newTitle) && subtaskId in db.subtasks ==>
      var (after, outcome) := UpdateSubtaskTitle(db, subtaskId, newTitle, userId, teamId, taskId, logged);
      outcome == Ok && after.subtasks == db.subtasks[subtaskId := db.subtasks[subtaskId].(title := newTitle)] &&
      after.tasks == db.tasks && after.taskTags == db.taskTags &&
      after.activityLog == db.activityLog +
        (if logged then [LogEntry(taskId, teamId, userId, SubtaskUpdated, SubtaskRetitled(subtaskId, newTitle))] else [])
  {
  }

  /** An edit changes exactly the patched fields and logs their names. */
  lemma UpdateTaskSpec(db: Db, taskId: string, patch: Patch, userId: string, teamId: string, logged: bool)
    requires taskId in db.tasks
    ensures var (after, outcome) := UpdateTask(db, taskId, patch, userId, teamId, logged);
      outcome == Ok && after.tasks.Keys == db.tasks.Keys &&
      (forall k :: k in db.tasks && k != taskId ==> after.tasks[k] == db.tasks[k]) &&
      after.tasks[taskId] == ApplyPatch(db.tasks[taskId], patch) &&
      (patch == Patch(None, None, None, None, None) ==> after.tasks == db.tasks) &&
      after.activityLog == db.activityLog +
        (if logged then [LogEntry(taskId, teamId, userId, TaskUpdated, UpdatedFields(PatchFields(patch)))] else [])
  {
    if patch == Patch(None, None, None, None, None) {
      assert ApplyPatch(db.tasks[taskId], patch) == db.tasks[taskId];
    }
  }

  /** Every operation that gets past its checks appends at most one entry,
      the one naming what it did, and only `updateSubtaskCompletion` can add
      a second, the status change of its auto-completion. A failed log write
      never makes the operation fail. */
  lemma LogEntriesSpec(db: Db, taskId: string, subtaskId: string, status: string, title: string, userId: string, teamId: string,
                       completed: bool, logged: bool, statusLogged: bool)
    requires taskId in db.tasks
    ensures UpdateTaskStatus(db, taskId, status, userId, teamId, logged).0.activityLog ==
      db.activityLog + (if logged then [LogEntry(taskId, teamId, userId, StatusChange, NewStatus(status))] else [])
    ensures UpdateTaskStatus(db, taskId, status, userId, teamId, logged).1 == Ok
    ensures RemoveSubtask(db, subtaskId, taskId, userId, teamId, logged).activityLog ==
      db.activityLog + (if logged then [LogEntry(taskId, teamId, userId, SubtaskRemoved, SubtaskRef(subtaskId))] else [])
    ensures AddSubtask(db, taskId, title, userId, teamId, logged).activityLog ==
      db.activityLog + (if logged then [LogEntry(taskId, teamId, userId, SubtaskAdded, TitleDetail(title))] else [])
    ensures subtaskId in db.subtasks ==>
      var (after, outcome) := UpdateSubtaskCompletion(db, subtaskId, taskId, completed, userId, teamId, logged, statusLogged);
      outcome == Ok &&
      after.activityLog == db.activityLog +
        (if logged then [LogEntry(taskId, teamId, userId, if completed then SubtaskCompleted else SubtaskUncompleted,
                                  SubtaskRef(subtaskId))] else []) +
        (if statusLogged && AllSubtasksDone(after.subtasks, taskId)
         then [LogEntry(taskId, teamId, userId, StatusChange, NewStatus(DoneStatus))] else [])
  {
  }

  // ---------------------------------------------------------------------------
  // The loops of the service, each on the collection it writes
  // ---------------------------------------------------------------------------

  /** The `forEach` of `createTask` over the subtask titles: a blank title
      (one that trims to nothing) is skipped, any other is written, as given,
      under the next id. */
  method InsertSubtasks(m: map<string, SubtaskDoc>, n: nat, taskId: string, titles: seq<string>)
    returns (r: map<string, SubtaskDoc>, next: nat)
    ensures r == Inserted(m, n, SubtaskDocs(taskId, Filter(titles, NotBlank)))
    ensures next == n + |Filter(titles, NotBlank)|
  {
    r, next := m, n;
    for i := 0 to |titles|
      invariant next == n + |Filter(titles[..i], NotBlank)|
      invariant r == Inserted(m, n, SubtaskDocs(taskId, Filter(titles[..i], NotBlank)))
    {
      InsertSubtasksStep(m, n, taskId, titles, i);
      if NotBlank(titles[i]) {
        r := r[AutoId(next) := SubtaskDoc(taskId, titles[i], false)];
        next := next + 1;
      }
    }
    assert titles[..|titles|] == titles;
  }

  /** One turn of that loop, on the documents it has written so far. */
  lemma InsertSubtasksStep(m: map<string, SubtaskDoc>, n: nat, taskId: string, titles: seq<string>, i: nat)
    requires i < |titles|
    ensures var kept := Filter(titles[..i], NotBlank);
      var written := Inserted(m, n, SubtaskDocs(taskId, kept));
      (NotBlank(titles[i]) ==>
        |Filter(titles[..i + 1], NotBlank)| == |kept| + 1 &&
        Inserted(m, n, SubtaskDocs(taskId, Filter(titles[..i + 1], NotBlank))) ==
          written[AutoId(n + |kept|) := SubtaskDoc(taskId, titles[i], false)]) &&
      (!NotBlank(titles[i]) ==>
        Filter(titles[..i + 1], NotBlank) == kept)
  {
    var kept := Filter(titles[..i], NotBlank);
    assert titles[..i + 1][..i] == titles[..i];
    if NotBlank(titles[i]) {
      assert Filter(titles[..i + 1], NotBlank) == kept + [titles[i]];
      SubtaskDocsSnoc(taskId, kept, titles[i]);
      InsertedSnoc(m, n, SubtaskDocs(taskId, kept), SubtaskDoc(taskId, titles[i], false));
    }
  }

  lemma SubtaskDocsSnoc(taskId: string, titles: seq<string>, t: string)
    ensures SubtaskDocs(taskId, titles + [t]) == SubtaskDocs(taskId, titles) + [SubtaskDoc(taskId, t, false)]
  {
    assert (titles + [t])[..|titles|] == titles;
  }

  lemma LinkDocsSnoc(taskId: string, tagIds: seq<string>, t: string)
    ensures LinkDocs(taskId, tagIds + [t]) == LinkDocs(taskId, tagIds) + [TaskTagDoc(taskId, t)]
  {
    assert (tagIds + [t])[..|tagIds|] == tagIds;
  }

  /** The `forEach` over tag ids of `createTask` and `setTaskTags`: one link
      per id, repeated ids included, each under the next id. */
  method InsertLinks(m: map<string, TaskTagDoc>, n: nat, taskId: string, tagIds: seq<string>)
    returns (r: map<string, TaskTagDoc>)
    ensures r == Inserted(m, n, LinkDocs(taskId, tagIds))
  {
    r := m;
    for i := 0 to |tagIds|
      invariant r == Inserted(m, n, LinkDocs(taskId, tagIds[..i]))
    {
      InsertLinksStep(m, n, taskId, tagIds, i);
      r := r[AutoId(n + i) := TaskTagDoc(taskId, tagIds[i])];
    }
    assert tagIds[..|tagIds|] == tagIds;
  }

  /** One turn of that loop. */
  lemma InsertLinksStep(m: map<string, TaskTagDoc>, n: nat, taskId: string, tagIds: seq<string>, i: nat)
    requires i < |tagIds|
    ensures Inserted(m, n, LinkDocs(taskId, tagIds[..i + 1])) ==
      Inserted(m, n, LinkDocs(taskId, tagIds[..i]))[AutoId(n + i) := TaskTagDoc(taskId, tagIds[i])]
  {
    assert tagIds[..i + 1] == tagIds[..i] + [tagIds[i]];
    LinkDocsSnoc(taskId, tagIds[..i], tagIds[i]);
    InsertedSnoc(m, n, LinkDocs(taskId, tagIds[..i]), TaskTagDoc(taskId, tagIds[i]));
  }

  /** The `forEach` over the snapshot of a task's subtasks in `deleteTask`. */
  method DeleteSubtasksOf(m: map<string, SubtaskDoc>, taskId: string) returns (r: map<string, SubtaskDoc>)
    ensures r == SubtasksWithout(m, taskId)
  {
    var doomed := set k | k in m && m[k].taskId == taskId;
    r := m;
    while doomed != {}
      invariant forall k :: k in doomed ==> k in m && m[k].taskId == taskId
      invariant forall k :: k in r <==> k in m && (m[k].taskId != taskId || k in doomed)
      invariant forall k :: k in r ==> r[k] == m[k]
      decreases |doomed|
    {
      var k :| k in doomed;
      r := r - {k};
      doomed := doomed - {k};
    }
    assert r.Keys == SubtasksWithout(m, taskId).Keys;
  }

  /** The `forEach` over the snapshot of a task's tag links, in `deleteTask`
      and `setTaskTags`. */
  method DeleteLinksOf(m: map<string, TaskTagDoc>, taskId: string) returns (r: map<string, TaskTagDoc>)
    ensures r == LinksWithout(m, taskId)
  {
    var doomed := set k | k in m && m[k].taskId == taskId;
    r := m;
    while doomed != {}
      invariant forall k :: k in doomed ==> k in m && m[k].taskId == taskId
      invariant forall k :: k in r <==> k in m && (m[k].taskId != taskId || k in doomed)
      invariant forall k :: k in r ==> r[k] == m[k]
      decreases |doomed|
    {
      var k :| k in doomed;
      r := r - {k};
      doomed := doomed - {k};
    }
    assert r.Keys == LinksWithout(m, taskId).Keys;
  }

  // ---------------------------------------------------------------------------
  // The service, acting on a store in place
  // ---------------------------------------------------------------------------

  /** The documents as the service sees them. Each method does what the
      function of the same name computes. */
  class Store {
    var tasks: map<string, TaskDoc>
    var subtasks: map<string, SubtaskDoc>
    var taskTags: map<string, TaskTagDoc>
    var activityLog: seq<LogEntry>
    var nextId: nat

    function State(): Db
      reads this
    {
      Db(tasks, subtasks, taskTags, activityLog, nextId)
    }

    predicate Valid()
      reads this
    {
      ValidDb(State())
    }

    constructor ()
      ensures Valid() && State() == Db(map[], map[], map[], [], 0)
    {
      tasks, subtasks, taskTags, activityLog, nextId := map[], map[], map[], [], 0;
    }

    /** `createActivityLog`. */
    method AppendLog(e: LogEntry, written: bool)
      modifies this
      ensures State() == Log(old(State()), e, written)
    {
      if written {
        activityLog := activityLog + [e];
      }
    }

    method UpdateTaskStatusIn(taskId: string, status: string, userId: string, teamId: string, logged: bool)
      returns (outcome: Outcome)
      requires Valid()
      modifies this
      ensures Valid()
      ensures (State(), outcome) == UpdateTaskStatus(old(State()), taskId, status, userId, teamId, logged)
    {
      if taskId !in tasks {
        return Err(NotFound);
      }
      tasks := tasks[taskId := tasks[taskId].(status := status)];
      AppendLog(LogEntry(taskId, teamId, userId, StatusChange, NewStatus(status)), logged);
      outcome := Ok;
    }

    method UpdateSubtaskCompletionIn(subtaskId: string, taskId: string, completed: bool, userId: string, teamId: string,
                                     logged: bool, statusLogged: bool) returns (outcome: Outcome)
      requires Valid()
      modifies this
      ensures Valid()
      ensures (State(), outcome) ==
        UpdateSubtaskCompletion(old(State()), subtaskId, taskId, completed, userId, teamId, logged, statusLogged)
    {
      if subtaskId !in subtasks {
        return Err(NotFound);
      }
      subtasks := subtasks[subtaskId := subtasks[subtaskId].(completed := completed)];
      AppendLog(LogEntry(taskId, teamId, userId, if completed then SubtaskCompleted else SubtaskUncompleted, SubtaskRef(subtaskId)), logged);
      if AllSubtasksDone(subtasks, taskId) {
        outcome := UpdateTaskStatusIn(taskId, DoneStatus, userId, teamId, statusLogged);
      } else {
        outcome := Ok;
      }
    }

    /** The task document of `createTask`. */
    method AddTaskDoc(data: CreateTaskData) returns (id: string)
      requires Valid()
      modifies this
      ensures Valid()
      ensures State() == WithTask(old(State()), data)
      ensures id == AutoId(old(nextId)) && id !in old(tasks)
    {
      WithTaskSpec(State(), data);
      id := AutoId(nextId);
      tasks := tasks[id := NewTaskDoc(data)];
      nextId := nextId + 1;
    }

    /** The subtask documents of `createTask`. */
    method AddSubtaskDocs(taskId: string, titles: seq<string>)
      requires Valid()
      modifies this
      ensures Valid()
      ensures State() == WithSubtasks(old(State()), taskId, titles)
    {
      WithSubtasksValid(State(), taskId, titles);
      subtasks, nextId := InsertSubtasks(subtasks, nextId, taskId, titles);
    }

    /** The tag links of `createTask` and `setTaskTags`. */
    method AddLinkDocs(taskId: string, tagIds: seq<string>)
      requires Valid()
      modifies this
      ensures Valid()
      ensures State() == WithLinks(old(State()), taskId, tagIds)
    {
      WithLinksValid(State(), taskId, tagIds);
      taskTags := InsertLinks(taskTags, nextId, taskId, tagIds);
      nextId := nextId + |tagIds|;
    }

    method CreateTaskIn(data: CreateTaskData, logged: bool) returns (id: string)
      requires Valid()
      modifies this
      ensures Valid()
      ensures State() == CreateTask(old(State()), data, logged)
      ensures id == AutoId(old(nextId)) && id !in old(tasks)
    {
      id := AddTaskDoc(data);
      AddSubtaskDocs(id, data.subtaskTitles.GetOr([]));
      AddLinkDocs(id, data.tagIds.GetOr([]));
      AppendLog(LogEntry(id, data.teamId, data.createdBy, TaskCreated, TitleDetail(data.title)), logged);
    }

    method UpdateTaskIn(taskId: string, patch: Patch, userId: string, teamId: string, logged: bool) returns (outcome: Outcome)
      requires Valid()
      modifies this
      ensures Valid()
      ensures (State(), outcome) == UpdateTask(old(State()), taskId, patch, userId, teamId, logged)
    {
      if taskId !in tasks {
        return Err(NotFound);
      }
      tasks := tasks[taskId := ApplyPatch(tasks[taskId], patch)];
      AppendLog(LogEntry(taskId, teamId, userId, TaskUpdated, UpdatedFields(PatchFields(patch))), logged);
      outcome := Ok;
    }

    method DeleteTaskIn(taskId: string, userId: string, teamId: string, logged: bool)
      requires Valid()
      modifies this
      ensures Valid()
      ensures State() == DeleteTask(old(State()), taskId, userId, teamId, logged)
    {
      tasks := tasks - {taskId};
      subtasks := DeleteSubtasksOf(subtasks, taskId);
      taskTags := DeleteLinksOf(taskTags, taskId);
      AppendLog(LogEntry(taskId, teamId, userId, TaskDeleted, NoDetails), logged);
    }

    method AddSubtaskIn(taskId: string, title: string, userId: string, teamId: string, logged: bool) returns (id: string)
      requires Valid()
      modifies this
      ensures Valid()
      ensures State() == AddSubtask(old(State()), taskId, title, userId, teamId, logged)
      ensures id == AutoId(old(nextId)) && id !in old(subtasks)
    {
      id := AutoId(nextId);
      subtasks := subtasks[id := SubtaskDoc(taskId, title, false)];
      nextId := nextId + 1;
      AppendLog(LogEntry(taskId, teamId, userId, SubtaskAdded, TitleDetail(title)), logged);
    }

    method RemoveSubtaskIn(subtaskId: string, taskId: string, userId: string, teamId: string, logged: bool)
      requires Valid()
      modifies this
      ensures Valid()
      ensures State() == RemoveSubtask(old(State()), subtaskId, taskId, userId, teamId, logged)
    {
      subtasks := subtasks - {subtaskId};
      AppendLog(LogEntry(taskId, teamId, userId, SubtaskRemoved, SubtaskRef(subtaskId)), logged);
    }

    method SetTaskTagsIn(taskId: string, newTagIds: seq<string>, userId: string, teamId: string, logged: bool)
      requires Valid()
      modifies this
      ensures Valid()
      ensures State() == SetTaskTags(old(State()), taskId, newTagIds, userId, teamId, logged)
    {
      taskTags := DeleteLinksOf(taskTags, taskId);
      AddLinkDocs(taskId, newTagIds);
      AppendLog(LogEntry(taskId, teamId, userId, TagsUpdated, NewTagIds(newTagIds)), logged);
    }

    method UpdateSubtaskTitleIn(subtaskId: string, newTitle: string, userId: string, teamId: string, taskId: string, logged: bool)
      returns (outcome: Outcome)
      requires Valid()
      modifies this
      ensures Valid()
      ensures (State(), outcome) == UpdateSubtaskTitle(old(State()), subtaskId, newTitle, userId, teamId, taskId, logged)
    {
      if Trim(newTitle) == "" {
        return Err(EmptyTitle);
      }
      if subtaskId !in subtasks {
        return Err(NotFound);
      }
      subtasks := subtasks[subtaskId := subtasks[subtaskId].(title := newTitle)];
      AppendLog(LogEntry(taskId, teamId, userId, SubtaskUpdated, SubtaskRetitled(subtaskId, newTitle)), logged);
      outcome := Ok;
    }

    method UpdateSubtaskStatusIn(taskId: string, subtaskId: string, completed: bool) returns (outcome: Outcome)
      requires Valid()
      modifies this
      ensures Valid()
      ensures (State(), outcome) == UpdateSubtaskStatus(old(State()), taskId, subtaskId, completed)
    {
      if subtaskId !in subtasks || taskId !in tasks {
        return Err(SubtaskStatusFailed);
      }
      subtasks := subtasks[subtaskId := subtasks[subtaskId].(completed := completed)];
      outcome := Ok;
    }
  }
}
