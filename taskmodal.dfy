/** The task form of the board: what it shows when opened, what the user can
    change locally, and the list of service calls a submission turns into. */
module TaskModal {
  import opened Common
  import opened Types
  import KanbanStore
  import ProjectHeader

  const TitleRequired: string := "El título es obligatorio."
  const SaveFailed: string := "No se pudo guardar la tarea. Inténtalo de nuevo."
  const DeleteFailed: string := "No se pudo eliminar la tarea."
  const AdminRole: string := "admin"
  const DefaultPriority: string := "medium"

  /** Milliseconds in a day. */
  const DayMs: int := 86400000

  // ---------------------------------------------------------------------------
  // The form's values
  // ---------------------------------------------------------------------------

  /** A subtask row of the form. `id` is "" for a row added in the form,
      which has no document yet. */
  datatype Draft = Draft(id: string, title: string, completed: bool)

  function DraftOf(s: Subtask): Draft {
    Draft(s.id, s.title, s.completed)
  }

  function DraftsOf(subs: seq<Subtask>): (r: seq<Draft>)
    ensures |r| == |subs|
    ensures forall i :: 0 <= i < |subs| ==> r[i] == DraftOf(subs[i])
  {
    seq(|subs|, i requires 0 <= i < |subs| => DraftOf(subs[i]))
  }

  /** The fields of the form. The due date is the value of the date input,
      as the UTC midnight it parses to, or `None` when the input is empty. */
  datatype Form = Form(
    title: string,
    description: string,
    assignedToId: Option<string>,
    priority: string,
    dueDate: Option<int>,
    tagIds: seq<string>)

  /** The form of a new task. */
  const EmptyForm: Form := Form("", "", None, DefaultPriority, None, [])

  /** The UTC midnight that starts the day of `ms`: the date the input shows
      (`toISOString().substring(0, 10)`) read back as a date. */
  function DayOf(ms: int): (r: int)
    ensures r % DayMs == 0
    ensures r <= ms < r + DayMs
  {
    ms - ms % DayMs
  }

  function TagIds(tags: seq<Tag>): (r: seq<string>)
    ensures |r| == |tags|
    ensures forall i :: 0 <= i < |tags| ==> r[i] == tags[i].id
  {
    seq(|tags|, i requires 0 <= i < |tags| => tags[i].id)
  }

  /** The form of an existing task: a missing description shows as "", the
      due date as its day. */
  function PopulatedForm(t: Task): Form {
    Form(t.title, t.description.GetOr(""), t.assignedToId, t.priority,
         if t.dueDate.Some? then Some(DayOf(t.dueDate.value)) else None,
         TagIds(TagsOf(t)))
  }

  /** The task document behind an enriched task. */
  function DocOf(t: Task): KanbanStore.TaskDoc {
    KanbanStore.TaskDoc(t.projectId, t.teamId, t.title, t.description, t.status, t.priority,
                        t.assignedToId, t.createdBy, t.dueDate)
  }

  // ---------------------------------------------------------------------------
  // The edit of the task's own fields
  // ---------------------------------------------------------------------------

  /** `assignedToId || null`: an empty selection is written as null. */
  function Assignee(a: Option<string>): (r: Option<string>)
    ensures r.GetOr("") == a.GetOr("")
    ensures r.Some? ==> r.value != ""
  {
    if a.Some? && a.value != "" then a else None
  }

  /** The fields of the edit that differ from the task: the title, the
      description (against "" when the task has none), the assignee, the
      priority and the due date (compared by time value). */
  function EditPatch(t: Task, f: Form): KanbanStore.Patch {
    KanbanStore.Patch(
      if f.title != t.title then Some(f.title) else None,
      if f.description != t.description.GetOr("") then Some(f.description) else None,
      if f.assignedToId != t.assignedToId then Some(Assignee(f.assignedToId)) else None,
      if f.priority != t.priority then Some(f.priority) else None,
      if f.dueDate != t.dueDate then Some(f.dueDate) else None)
  }

  /** A field is in the patch exactly when the form changed it. */
  lemma EditPatchFields(t: Task, f: Form)
    ensures EditPatch(t, f).title.Some? <==> f.title != t.title
    ensures EditPatch(t, f).description.Some? <==> f.description != t.description.GetOr("")
    ensures EditPatch(t, f).assignedToId.Some? <==> f.assignedToId != t.assignedToId
    ensures EditPatch(t, f).priority.Some? <==> f.priority != t.priority
    ensures EditPatch(t, f).dueDate.Some? <==> f.dueDate != t.dueDate
    ensures KanbanStore.PatchFields(EditPatch(t, f)) == [] <==>
      f.title == t.title && f.description == t.description.GetOr("") && f.assignedToId == t.assignedToId &&
      f.priority == t.priority && f.dueDate == t.dueDate
  {
  }

  /** Applying the patch to the stored task gives a task the form shows
      exactly as it was submitted (an assignee read by its truthiness); the
      task's status, project, team and author are kept. */
  lemma EditPatchApplied(t: Task, f: Form)
    ensures var d := KanbanStore.ApplyPatch(DocOf(t), EditPatch(t, f));
      d.title == f.title && d.description.GetOr("") == f.description &&
      d.assignedToId.GetOr("") == f.assignedToId.GetOr("") && d.priority == f.priority && d.dueDate == f.dueDate
    ensures var d := KanbanStore.ApplyPatch(DocOf(t), EditPatch(t, f));
      d.status == t.status && d.projectId == t.projectId && d.teamId == t.teamId && d.createdBy == t.createdBy
  {
  }

  // ---------------------------------------------------------------------------
  // Tags
  // ---------------------------------------------------------------------------

  /** `JSON.stringify([...tagIds].sort()) !== JSON.stringify([...original].sort())`. */
  predicate TagsChanged(current: seq<string>, original: seq<string>) {
    SortBy(current, StringLeq) != SortBy(original, StringLeq)
  }

  /** The tags count as changed exactly when the two lists are not
      permutations of each other: reordering alone writes nothing. */
  lemma TagsChangedSpec(current: seq<string>, original: seq<string>)
    ensures TagsChanged(current, original) <==> multiset(current) != multiset(original)
  {
    if multiset(current) == multiset(original) {
      StringLeqIsTotalPreorder();
      SortBySorted(current, StringLeq);
      SortBySorted(original, StringLeq);
      forall x, y | StringLeq(x, y) && StringLeq(y, x) ensures x == y {
        StringLeqAntisymmetric(x, y);
      }
      SortedUnique(SortBy(current, StringLeq), SortBy(original, StringLeq), StringLeq);
    }
  }

  // ---------------------------------------------------------------------------
  // Subtasks
  // ---------------------------------------------------------------------------

  /** A call to the service that a submission makes. */
  datatype Mutation =
    | UpdateTaskCall(taskId: string, patch: KanbanStore.Patch)
    | SetTagsCall(taskId: string, tagIds: seq<string>)
    | RemoveSubtaskCall(subtaskId: string, taskId: string)
    | RetitleSubtaskCall(subtaskId: string, title: string, taskId: string)
    | AddSubtaskCall(taskId: string, title: string)
    | DeleteTaskCall(taskId: string)

  /** The ids of the rows that have one. */
  function CurrentIds(current: seq<Draft>): set<string> {
    set d | d in current && d.id != "" :: d.id
  }

  function OriginalIds(originals: seq<Draft>): set<string> {
    set d | d in originals :: d.id
  }

  /** `originals.find(x => x.id === id)`. */
  function FindOriginal(originals: seq<Draft>, id: string): (r: Option<Draft>)
    ensures r.Some? <==> id in OriginalIds(originals)
    ensures r.Some? ==> r.value in originals && r.value.id == id
  {
    if originals == [] then None
    else if originals[0].id == id then Some(originals[0])
    else
      var r := FindOriginal(originals[1..], id);
      assert forall d :: d in originals[1..] ==> d in originals;
      assert id !in OriginalIds(originals[1..]) ==> id !in OriginalIds(originals);
      r
  }

  /** How many of the original rows carry `id`. */
  function IdCount(originals: seq<Draft>, id: string): (n: nat)
    ensures n <= |originals|
  {
    if originals == [] then 0
    else IdCount(originals[..|originals| - 1], id) + (if originals[|originals| - 1].id == id then 1 else 0)
  }

  /** One removal per original row whose id is not kept, in order. */
  function Removals(originals: seq<Draft>, keep: set<string>, taskId: string): (r: seq<Mutation>)
    ensures |r| <= |originals|
    ensures forall m :: m in r ==> m.RemoveSubtaskCall? && m.subtaskId !in keep && m.taskId == taskId
  {
    if originals == [] then []
    else
      var last := originals[|originals| - 1];
      Removals(originals[..|originals| - 1], keep, taskId) +
      (if last.id !in keep then [RemoveSubtaskCall(last.id, taskId)] else [])
  }

  /** Every original row whose id is gone from the form is removed, once
      per row carrying that id; a kept id is never removed. */
  lemma {:induction false} RemovalsCount(originals: seq<Draft>, keep: set<string>, taskId: string, id: string)
    ensures multiset(Removals(originals, keep, taskId))[RemoveSubtaskCall(id, taskId)] ==
      if id in keep then 0 else IdCount(originals, id)
  {
    if originals != [] {
      RemovalsCount(originals[..|originals| - 1], keep, taskId, id);
    }
  }

  /** With distinct original ids, each vanished subtask is removed exactly
      once. */
  lemma RemovedOnce(originals: seq<Draft>, current: seq<Draft>, taskId: string, i: nat)
    requires i < |originals|
    requires forall a, b :: 0 <= a < b < |originals| ==> originals[a].id != originals[b].id
    requires originals[i].id !in CurrentIds(current)
    ensures multiset(Removals(originals, CurrentIds(current), taskId))[RemoveSubtaskCall(originals[i].id, taskId)] == 1
  {
    RemovalsCount(originals, CurrentIds(current), taskId, originals[i].id);
    IdCountDistinct(originals, i);
  }

  lemma {:induction false} IdCountDistinct(originals: seq<Draft>, i: nat)
    requires i < |originals|
    requires forall a, b :: 0 <= a < b < |originals| ==> originals[a].id != originals[b].id
    ensures IdCount(originals, originals[i].id) == 1
  {
    var init := originals[..|originals| - 1];
    if i < |originals| - 1 {
      IdCountDistinct(init, i);
      assert originals[|originals| - 1].id != originals[i].id;
    } else {
      IdCountAbsent(init, originals[i].id);
    }
  }

  lemma {:induction false} IdCountAbsent(originals: seq<Draft>, id: string)
    requires forall a :: 0 <= a < |originals| ==> originals[a].id != id
    ensures IdCount(originals, id) == 0
  {
    if originals != [] {
      IdCountAbsent(originals[..|originals| - 1], id);
    }
  }

  /** What one row of the form asks for: a row with an original id is
      retitled when its title differs from the original's; a row without an
      id is added, trimmed, unless its title is blank. */
  function Upsert(c: Draft, originals: seq<Draft>, taskId: string): (r: seq<Mutation>)
    ensures |r| <= 1
  {
    if c.id != "" then
      var orig := FindOriginal(originals, c.id);
      if orig.Some? && orig.value.title != c.title then [RetitleSubtaskCall(c.id, c.title, taskId)] else []
    else if Trim(c.title) != "" then [AddSubtaskCall(taskId, Trim(c.title))]
    else []
  }

  function Upserts(current: seq<Draft>, originals: seq<Draft>, taskId: string): (r: seq<Mutation>)
    ensures |r| <= |current|
  {
    if current == [] then []
    else Upserts(current[..|current| - 1], originals, taskId) + Upsert(current[|current| - 1], originals, taskId)
  }

  /** Every call of the retitles and adds is the call of one of the rows,
      and every row's call is among them. */
  lemma {:induction false} UpsertsSpec(current: seq<Draft>, originals: seq<Draft>, taskId: string, m: Mutation)
    ensures m in Upserts(current, originals, taskId) <==> exists c :: c in current && m in Upsert(c, originals, taskId)
  {
    if current != [] {
      var init := current[..|current| - 1];
      var last := current[|current| - 1];
      assert current == init + [last];
      UpsertsSpec(init, originals, taskId, m);
      if m in Upserts(current, originals, taskId) {
        if m in Upserts(init, originals, taskId) {
          var c :| c in init && m in Upsert(c, originals, taskId);
          assert c in current;
        } else {
          assert m in Upsert(last, originals, taskId);
        }
      } else {
        forall c | c in current ensures m !in Upsert(c, originals, taskId) {
          if c != last {
            assert c in init;
          }
        }
      }
    }
  }

  /** The retitles and adds, one by one. */
  lemma UpsertCases(c: Draft, originals: seq<Draft>, taskId: string)
    ensures Upsert(c, originals, taskId) != [] && Upsert(c, originals, taskId)[0].RetitleSubtaskCall? <==>
      c.id != "" && c.id in OriginalIds(originals) && FindOriginal(originals, c.id).value.title != c.title
    ensures Upsert(c, originals, taskId) != [] && Upsert(c, originals, taskId)[0].RetitleSubtaskCall? ==>
      Upsert(c, originals, taskId)[0] == RetitleSubtaskCall(c.id, c.title, taskId)
    ensures Upsert(c, originals, taskId) != [] && Upsert(c, originals, taskId)[0].AddSubtaskCall? <==>
      c.id == "" && !IsBlank(c.title)
    ensures Upsert(c, originals, taskId) != [] && Upsert(c, originals, taskId)[0].AddSubtaskCall? ==>
      Upsert(c, originals, taskId)[0] == AddSubtaskCall(taskId, Trim(c.title))
  {
  }

  // ---------------------------------------------------------------------------
  // A submission
  // ---------------------------------------------------------------------------

  /** The edit of an existing task: the patch when it has a field, the tags
      when they changed, then the removals and the retitles and adds. */
  function EditPlan(t: Task, f: Form, current: seq<Draft>, originals: seq<Draft>, originalTagIds: seq<string>): seq<Mutation> {
    FieldCalls(t, f, originalTagIds) + (Removals(originals, CurrentIds(current), t.id) + Upserts(current, originals, t.id))
  }

  /** The calls for the task's own fields and for its tags. */
  function FieldCalls(t: Task, f: Form, originalTagIds: seq<string>): seq<Mutation> {
    var patch := EditPatch(t, f);
    (if KanbanStore.PatchFields(patch) != [] then [UpdateTaskCall(t.id, patch)] else []) +
    (if TagsChanged(f.tagIds, originalTagIds) then [SetTagsCall(t.id, f.tagIds)] else [])
  }

  /** `subtasks.map(s => s.title || "").map(t => t.trim())`. */
  function TrimmedTitles(current: seq<Draft>): (r: seq<string>)
    ensures |r| == |current|
    ensures forall i :: 0 <= i < |current| ==> r[i] == Trim(current[i].title)
  {
    seq(|current|, i requires 0 <= i < |current| => Trim(current[i].title))
  }

  predicate NonEmpty(s: string) {
    s != ""
  }

  /** `.filter(Boolean)` of those. */
  function PayloadTitles(current: seq<Draft>): seq<string> {
    Filter(TrimmedTitles(current), NonEmpty)
  }

  /** The titles of the payload are the trimmed titles of the non-blank
      rows, in the rows' order, and none of them is blank. */
  lemma PayloadTitlesSpec(current: seq<Draft>, t: string)
    ensures t in PayloadTitles(current) <==> exists i :: 0 <= i < |current| && !IsBlank(current[i].title) && t == Trim(current[i].title)
    ensures t in PayloadTitles(current) ==> !IsBlank(t)
    ensures Subsequence(PayloadTitles(current), TrimmedTitles(current))
  {
    FilterMembership(TrimmedTitles(current), NonEmpty, t);
    FilterSubsequence(TrimmedTitles(current), NonEmpty);
    if t in PayloadTitles(current) {
      var i :| 0 <= i < |current| && TrimmedTitles(current)[i] == t;
      assert !IsBlank(current[i].title);
    }
  }

  /** The fields the form hands to `createTask`. The assignee is included
      only when one is selected; the status is left to the service. */
  datatype Props = Props(projectId: string, teamId: string, userId: string, userRole: Option<string>)

  function CreatePayload(props: Props, f: Form, current: seq<Draft>): KanbanStore.CreateTaskData {
    KanbanStore.CreateTaskData(props.projectId, props.teamId, f.title, Some(f.description), f.priority,
                               Assignee(f.assignedToId), props.userId, f.dueDate, None,
                               Some(PayloadTitles(current)), Some(f.tagIds))
  }

  /** The service writes every subtask title of the payload, and the new task
      is "todo" with the form's title, whatever the form. */
  lemma CreatePayloadStored(props: Props, f: Form, current: seq<Draft>, db: KanbanStore.Db)
    requires KanbanStore.ValidDb(db)
    ensures KanbanStore.KeptTitles(CreatePayload(props, f, current)) == PayloadTitles(current)
    ensures var after := KanbanStore.CreateTask(db, CreatePayload(props, f, current), true);
      var id := KanbanStore.AutoId(db.nextId);
      id in after.tasks && after.tasks[id].status == TodoStatus && after.tasks[id].title == f.title &&
      after.tasks[id].createdBy == props.userId && after.tasks[id].assignedToId.GetOr("") == f.assignedToId.GetOr("")
  {
    var titles := PayloadTitles(current);
    forall t | t in titles ensures KanbanStore.NotBlank(t) {
      PayloadTitlesSpec(current, t);
    }
    FilterAll(titles, KanbanStore.NotBlank);
    KanbanStore.CreateTaskSpec(db, CreatePayload(props, f, current), true);
  }

  datatype Submission =
    | Rejected(message: string)
    | Edit(mutations: seq<Mutation>)
    | Create(payload: KanbanStore.CreateTaskData)

  /** `handleSubmit`: a blank title is refused with a message; otherwise an
      open task is edited and a new one created. */
  function SubmitPlan(props: Props, editing: Option<Task>, f: Form, current: seq<Draft>, originals: seq<Draft>,
                      originalTagIds: seq<string>): Submission
  {
    if IsBlank(f.title) then Rejected(TitleRequired)
    else if editing.Some? then Edit(EditPlan(editing.value, f, current, originals, originalTagIds))
    else Create(CreatePayload(props, f, current))
  }

  /** Opening a task and saving it untouched sends nothing, provided its due
      date (if any) is a UTC midnight, its subtask ids are distinct and not
      empty, and its title is not blank. */
  lemma UntouchedFormPlansNothing(props: Props, t: Task)
    requires t.dueDate.Some? ==> t.dueDate.value % DayMs == 0
    requires forall s :: s in t.subtasks ==> s.id != ""
    requires forall a, b :: 0 <= a < b < |t.subtasks| ==> t.subtasks[a].id != t.subtasks[b].id
    requires !IsBlank(t.title)
    ensures SubmitPlan(props, Some(t), PopulatedForm(t), DraftsOf(t.subtasks), DraftsOf(t.subtasks),
                       TagIds(TagsOf(t))) == Edit([])
  {
    var f := PopulatedForm(t);
    var ds := DraftsOf(t.subtasks);
    if t.dueDate.Some? {
      assert DayOf(t.dueDate.value) == t.dueDate.value;
    }
    assert f.dueDate == t.dueDate;
    assert KanbanStore.PatchFields(EditPatch(t, f)) == [];
    TagsChangedSpec(f.tagIds, f.tagIds);
    NothingRemoved(ds, ds, t.id);
    NothingUpserted(ds, ds, t.id);
  }

  /** A due date that is not a UTC midnight shows as its day, so saving the
      opened task untouched writes that midnight back as the due date. */
  lemma OffMidnightDueDateRewritten(t: Task)
    requires t.dueDate.Some? && t.dueDate.value % DayMs != 0
    ensures EditPatch(t, PopulatedForm(t)).dueDate == Some(Some(DayOf(t.dueDate.value)))
    ensures DayOf(t.dueDate.value) < t.dueDate.value
  {
  }

  lemma {:induction false} NothingRemoved(originals: seq<Draft>, current: seq<Draft>, taskId: string)
    requires forall d :: d in originals ==> d in current && d.id != ""
    ensures Removals(originals, CurrentIds(current), taskId) == []
  {
    if originals != [] {
      var init := originals[..|originals| - 1];
      assert forall d :: d in init ==> d in originals;
      NothingRemoved(init, current, taskId);
      assert originals[|originals| - 1].id in CurrentIds(current);
    }
  }

  /** Rows that are the originals themselves ask for nothing. */
  lemma {:induction false} NothingUpserted(current: seq<Draft>, originals: seq<Draft>, taskId: string)
    requires forall d :: d in current ==> d in originals && d.id != ""
    requires forall a, b :: 0 <= a < b < |originals| ==> originals[a].id != originals[b].id
    ensures Upserts(current, originals, taskId) == []
  {
    if current != [] {
      var init := current[..|current| - 1];
      var last := current[|current| - 1];
      assert forall d :: d in init ==> d in current;
      NothingUpserted(init, originals, taskId);
      FindDistinct(originals, last);
    }
  }

  /** With distinct ids, looking up an original's id finds that original. */
  lemma {:induction false} FindDistinct(originals: seq<Draft>, d: Draft)
    requires d in originals
    requires forall a, b :: 0 <= a < b < |originals| ==> originals[a].id != originals[b].id
    ensures FindOriginal(originals, d.id) == Some(d)
  {
    if originals[0] != d {
      assert d in originals[1..];
      var k :| 0 <= k < |originals[1..]| && originals[1..][k] == d;
      assert originals[0].id != originals[k + 1].id;
      FindDistinct(originals[1..], d);
    }
  }

  /** `handleDelete`: only an admin, editing a task, who confirms, deletes it. */
  function DeleteRequest(editing: Option<Task>, userRole: Option<string>, confirmed: bool): (r: Option<Mutation>)
    ensures r.Some? <==> editing.Some? && userRole == Some(AdminRole) && confirmed
    ensures r.Some? ==> r.value == DeleteTaskCall(editing.value.id)
  {
    if editing.None? || userRole != Some(AdminRole) then None
    else if !confirmed then None
    else Some(DeleteTaskCall(editing.value.id))
  }

  // ---------------------------------------------------------------------------
  // The rows, edited locally
  // ---------------------------------------------------------------------------

  /** `s.filter((_, i) => i !== index)`. */
  function RemoveAt<T>(s: seq<T>, index: int): (r: seq<T>)
    ensures 0 <= index < |s| ==> |r| == |s| - 1 && multiset(r) == multiset(s) - multiset{s[index]}
    ensures 0 <= index < |s| ==> forall i :: 0 <= i < |r| ==> r[i] == if i < index then s[i] else s[i + 1]
    ensures !(0 <= index < |s|) ==> r == s
  {
    if 0 <= index < |s| then
      assert s == s[..index] + [s[index]] + s[index + 1..];
      s[..index] + s[index + 1..]
    else s
  }

  /** Removing the row just added restores the rows. */
  lemma AddThenRemove<T>(s: seq<T>, d: T)
    ensures RemoveAt(s + [d], |s|) == s
  {
  }

  /** The row `handleAddSubtaskLocal` appends. */
  const NewRow: Draft := Draft("", "", false)

  // ---------------------------------------------------------------------------
  // The loops of `handleSubmit`
  // ---------------------------------------------------------------------------

  /** The subtask part of an edit: the set of ids still in the form, then
      the removals, then the retitles and adds. */
  method PlanSubtasks(current: seq<Draft>, originals: seq<Draft>, taskId: string) returns (r: seq<Mutation>)
    ensures r == Removals(originals, CurrentIds(current), taskId) + Upserts(current, originals, taskId)
  {
    var keep := CollectIds(current);
    var removals := PlanRemovals(originals, keep, taskId);
    var upserts := PlanUpserts(current, originals, taskId);
    r := removals + upserts;
  }

  /** The ids of the rows still in the form. */
  method CollectIds(current: seq<Draft>) returns (keep: set<string>)
    ensures keep == CurrentIds(current)
  {
    keep := {};
    for i := 0 to |current|
      invariant keep == CurrentIds(current[..i])
    {
      assert current[..i + 1] == current[..i] + [current[i]];
      if current[i].id != "" {
        keep := keep + {current[i].id};
      }
    }
    assert current[..|current|] == current;
  }

  /** One removal per original row whose id is no longer kept. */
  method PlanRemovals(originals: seq<Draft>, keep: set<string>, taskId: string) returns (removals: seq<Mutation>)
    ensures removals == Removals(originals, keep, taskId)
  {
    removals := [];
    for i := 0 to |originals|
      invariant removals == Removals(originals[..i], keep, taskId)
    {
      assert originals[..i + 1][..i] == originals[..i];
      if originals[i].id !in keep {
        removals := removals + [RemoveSubtaskCall(originals[i].id, taskId)];
      }
    }
    assert originals[..|originals|] == originals;
  }

  /** The retitles and adds, row by row. */
  method PlanUpserts(current: seq<Draft>, originals: seq<Draft>, taskId: string) returns (upserts: seq<Mutation>)
    ensures upserts == Upserts(current, originals, taskId)
  {
    upserts := [];
    var originalIds := OriginalIds(originals);
    for i := 0 to |current|
      invariant upserts == Upserts(current[..i], originals, taskId)
    {
      assert current[..i + 1][..i] == current[..i];
      var cs := current[i];
      if cs.id != "" {
        if cs.id in originalIds {
          var orig := FindOriginal(originals, cs.id).value;
          if orig.title != cs.title {
            upserts := upserts + [RetitleSubtaskCall(cs.id, cs.title, taskId)];
          }
        }
      } else if Trim(cs.title) != "" {
        upserts := upserts + [AddSubtaskCall(taskId, Trim(cs.title))];
      }
    }
    assert current[..|current|] == current;
  }

  /** The decisions of `handleSubmit`, the edit's subtask part by its loops. */
  method PlanSubmission(props: Props, editing: Option<Task>, f: Form, current: seq<Draft>, originals: seq<Draft>,
                        originalTagIds: seq<string>) returns (s: Submission)
    ensures s == SubmitPlan(props, editing, f, current, originals, originalTagIds)
  {
    if Trim(f.title) == "" {
      return Rejected(TitleRequired);
    }
    if editing.Some? {
      var t := editing.value;
      var rest := PlanSubtasks(current, originals, t.id);
      s := Edit(FieldCalls(t, f, originalTagIds) + rest);
    } else {
      s := Create(CreatePayload(props, f, current));
    }
  }

  // ---------------------------------------------------------------------------
  // The form, as state
  // ---------------------------------------------------------------------------

  /** The form's state in its intended, un-aliased form: each row is a value
      and `originalSubtasks` keeps the rows as they were when the form opened,
      so an edited title is seen as changed. The component as written shares
      its row objects with the task being edited; `SharedRows` below models
      that, and the finding recorded about it. */
  class TaskForm {
    var form: Form
    var subtasks: seq<Draft>
    var originalSubtasks: seq<Draft>
    var originalTagIds: seq<string>
    var isSubmitting: bool
    var error: Option<string>

    constructor ()
      ensures form == EmptyForm && subtasks == [] && originalSubtasks == [] && originalTagIds == []
      ensures !isSubmitting && error == None
    {
      form, subtasks, originalSubtasks, originalTagIds := EmptyForm, [], [], [];
      isSubmitting, error := false, None;
    }

    /** The effect run when the form opens: an existing task fills it, a new
      task empties it; the error is cleared either way. */
    method Open(taskToEdit: Option<Task>)
      modifies this
      ensures taskToEdit.Some? ==>
        form == PopulatedForm(taskToEdit.value) &&
        subtasks == DraftsOf(taskToEdit.value.subtasks) && originalSubtasks == subtasks &&
        originalTagIds == form.tagIds
      ensures taskToEdit.None? ==> form == EmptyForm && subtasks == [] && originalSubtasks == [] && originalTagIds == []
      ensures error == None && isSubmitting == old(isSubmitting)
    {
      if taskToEdit.Some? {
        var t := taskToEdit.value;
        form := PopulatedForm(t);
        subtasks := DraftsOf(t.subtasks);
        originalSubtasks := subtasks;
        originalTagIds := form.tagIds;
      } else {
        form := EmptyForm;
        subtasks, originalSubtasks, originalTagIds := [], [], [];
      }
      error := None;
    }

    /** A tag chip: a selected tag is dropped, any other appended. */
    method ToggleTag(id: string)
      modifies this
      ensures form == old(form).(tagIds := ProjectHeader.Toggle(old(form).tagIds, id))
      ensures subtasks == old(subtasks) && originalSubtasks == old(originalSubtasks) && originalTagIds == old(originalTagIds)
      ensures error == old(error) && isSubmitting == old(isSubmitting)
    {
      form := form.(tagIds := ProjectHeader.Toggle(form.tagIds, id));
    }

    /** `handleSubtaskChange`: the row at `index` takes the new title; the
      originals are untouched. */
    method ChangeSubtaskTitle(index: nat, title: string)
      requires index < |subtasks|
      modifies this
      ensures subtasks == old(subtasks)[index := old(subtasks)[index].(title := title)]
      ensures form == old(form) && originalSubtasks == old(originalSubtasks) && originalTagIds == old(originalTagIds)
      ensures error == old(error) && isSubmitting == old(isSubmitting)
    {
      subtasks := subtasks[index := subtasks[index].(title := title)];
    }

    method AddSubtaskLocal()
      modifies this
      ensures subtasks == old(subtasks) + [NewRow]
      ensures form == old(form) && originalSubtasks == old(originalSubtasks) && originalTagIds == old(originalTagIds)
      ensures error == old(error) && isSubmitting == old(isSubmitting)
    {
      subtasks := subtasks + [NewRow];
    }

    method RemoveSubtaskLocal(index: int)
      modifies this
      ensures subtasks == RemoveAt(old(subtasks), index)
      ensures form == old(form) && originalSubtasks == old(originalSubtasks) && originalTagIds == old(originalTagIds)
      ensures error == old(error) && isSubmitting == old(isSubmitting)
    {
      subtasks := RemoveAt(subtasks, index);
    }

    /** `handleSubmit`, up to the calls it makes: a blank title sets the
      error; otherwise the form is marked as submitting and the calls are
      planned, the edit's subtask part by its loops. */
    method Submit(props: Props, taskToEdit: Option<Task>) returns (s: Submission)
      modifies this
      ensures s == SubmitPlan(props, taskToEdit, old(form), old(subtasks), old(originalSubtasks), old(originalTagIds))
      ensures s.Rejected? ==> error == Some(TitleRequired) && isSubmitting == old(isSubmitting)
      ensures !s.Rejected? ==> error == None && isSubmitting
      ensures form == old(form) && subtasks == old(subtasks) && originalSubtasks == old(originalSubtasks)
      ensures originalTagIds == old(originalTagIds)
    {
      s := PlanSubmission(props, taskToEdit, form, subtasks, originalSubtasks, originalTagIds);
      if s.Rejected? {
        error := Some(TitleRequired);
      } else {
        isSubmitting, error := true, None;
      }
    }

    /** `handleDelete`: the deletion is asked for only by an admin editing a
      task who confirms it; the form is then marked as submitting. */
    method Delete(taskToEdit: Option<Task>, userRole: Option<string>, confirmed: bool) returns (r: Option<Mutation>)
      modifies this
      ensures r == DeleteRequest(taskToEdit, userRole, confirmed)
      ensures r.Some? ==> isSubmitting && error == None
      ensures r.None? ==> isSubmitting == old(isSubmitting) && error == old(error)
      ensures form == old(form) && subtasks == old(subtasks) && originalSubtasks == old(originalSubtasks)
      ensures originalTagIds == old(originalTagIds)
    {
      r := DeleteRequest(taskToEdit, userRole, confirmed);
      if r.Some? {
        isSubmitting, error := true, None;
      }
    }

    /** The deletion failed: its message is shown and the form is usable
      again. */
    method DeleteFailedShown()
      modifies this
      ensures error == Some(DeleteFailed) && !isSubmitting
      ensures form == old(form) && subtasks == old(subtasks) && originalSubtasks == old(originalSubtasks)
      ensures originalTagIds == old(originalTagIds)
    {
      error, isSubmitting := Some(DeleteFailed), false;
    }

    /** A call of the submission failed: the message is shown and the form
      can be submitted again. */
    method SubmitFailed()
      modifies this
      ensures error == Some(SaveFailed) && !isSubmitting
      ensures form == old(form) && subtasks == old(subtasks) && originalSubtasks == old(originalSubtasks)
      ensures originalTagIds == old(originalTagIds)
    {
      error, isSubmitting := Some(SaveFailed), false;
    }
  }

  // ---------------------------------------------------------------------------
  // The rows as the component keeps them: shared objects
  // ---------------------------------------------------------------------------

  /** A row as an object: the component stores the very same row objects as
      its current and its original subtasks, and a title edit assigns the
      object's field. */
  class SharedRow {
    const id: string
    var title: string
    const completed: bool

    constructor (id: string, title: string, completed: bool)
      ensures this.id == id && this.title == title && this.completed == completed
    {
      this.id, this.title, this.completed := id, title, completed;
    }
  }

  function Values(rows: seq<SharedRow>): (r: seq<Draft>)
    reads set i | 0 <= i < |rows| :: rows[i]
    ensures |r| == |rows|
    ensures forall i :: 0 <= i < |rows| ==> r[i] == Draft(rows[i].id, rows[i].title, rows[i].completed)
  {
    seq(|rows|, i requires 0 <= i < |rows| reads set j | 0 <= j < |rows| :: rows[j] =>
      Draft(rows[i].id, rows[i].title, rows[i].completed))
  }

  /** The subtask rows of the form as the component keeps them. */
  class SharedRows {
    var subtasks: seq<SharedRow>
    var originalSubtasks: seq<SharedRow>

    /** Every row with an id is itself one of the originals, and the
        originals' ids are distinct. */
    ghost predicate Valid()
      reads this
    {
      (forall i :: 0 <= i < |subtasks| && subtasks[i].id != "" ==> subtasks[i] in originalSubtasks) &&
      (forall a, b :: 0 <= a < b < |originalSubtasks| ==> originalSubtasks[a].id != originalSubtasks[b].id)
    }

    /** Opening a task: the task's own subtask objects, the ones the board
        holds, are stored as both lists, without a copy. */
    constructor (taskRows: seq<SharedRow>)
      requires forall a, b :: 0 <= a < b < |taskRows| ==> taskRows[a].id != taskRows[b].id
      ensures Valid()
      ensures subtasks == taskRows && originalSubtasks == taskRows
    {
      subtasks := taskRows;
      originalSubtasks := taskRows;
    }

    /** `copy[index].title = newTitle`: the object is shared, so the original
      row changes with it. */
    method ChangeSubtaskTitle(index: nat, title: string)
      requires Valid() && index < |subtasks|
      modifies subtasks[index]
      ensures Valid()
      ensures subtasks[index].title == title
    {
      subtasks[index].title := title;
    }

    method AddSubtaskLocal()
      requires Valid()
      modifies this
      ensures Valid()
      ensures |subtasks| == |old(subtasks)| + 1 && subtasks[..|old(subtasks)|] == old(subtasks)
      ensures fresh(subtasks[|old(subtasks)|]) && originalSubtasks == old(originalSubtasks)
    {
      var row := new SharedRow("", "", false);
      subtasks := subtasks + [row];
    }

    method RemoveSubtaskLocal(index: int)
      requires Valid()
      modifies this
      ensures Valid()
      ensures subtasks == RemoveAt(old(subtasks), index) && originalSubtasks == old(originalSubtasks)
    {
      subtasks := RemoveAt(subtasks, index);
    }
  }

  /** In the component as written, no row ever asks for a retitle: each row
      with an id is the very object its original is, so their titles agree
      whatever was typed. */
  lemma SharedRowsNeverRetitle(rows: SharedRows, taskId: string, m: Mutation)
    requires rows.Valid()
    ensures m in Upserts(Values(rows.subtasks), Values(rows.originalSubtasks), taskId) ==> !m.RetitleSubtaskCall?
  {
    var current := Values(rows.subtasks);
    var originals := Values(rows.originalSubtasks);
    forall c | c in current && c.id != "" ensures FindOriginal(originals, c.id) == Some(c) {
      SharedRowFound(rows, c);
    }
    FoundRowsNeverRetitle(current, originals, taskId, m);
  }

  /** Rows that are found among the originals exactly as they are ask for
      no retitle. */
  lemma FoundRowsNeverRetitle(current: seq<Draft>, originals: seq<Draft>, taskId: string, m: Mutation)
    requires forall c :: c in current && c.id != "" ==> FindOriginal(originals, c.id) == Some(c)
    ensures m in Upserts(current, originals, taskId) ==> !m.RetitleSubtaskCall?
  {
    UpsertsSpec(current, originals, taskId, m);
    if m in Upserts(current, originals, taskId) {
      var c :| c in current && m in Upsert(c, originals, taskId);
      FoundRowNoRetitle(c, originals, taskId, m);
    }
  }

  /** One such row: its call, if any, is an add. */
  lemma FoundRowNoRetitle(c: Draft, originals: seq<Draft>, taskId: string, m: Mutation)
    requires c.id != "" ==> FindOriginal(originals, c.id) == Some(c)
    ensures m in Upsert(c, originals, taskId) ==> !m.RetitleSubtaskCall?
  {
    if c.id != "" {
      assert Upsert(c, originals, taskId) == [];
    } else {
      var title := Trim(c.title);
      assert Upsert(c, originals, taskId) == (if title != "" then [AddSubtaskCall(taskId, title)] else []);
    }
  }

  /** A row with an id is found among the originals as itself. */
  lemma SharedRowFound(rows: SharedRows, c: Draft)
    requires rows.Valid()
    requires c in Values(rows.subtasks) && c.id != ""
    ensures FindOriginal(Values(rows.originalSubtasks), c.id) == Some(c)
  {
    var current := Values(rows.subtasks);
    var originals := Values(rows.originalSubtasks);
    var i :| 0 <= i < |current| && current[i] == c;
    assert rows.subtasks[i] in rows.originalSubtasks;
    var j :| 0 <= j < |rows.originalSubtasks| && rows.originalSubtasks[j] == rows.subtasks[i];
    assert originals[j] == c;
    FindDistinct(originals, c);
  }

  /** A task with one subtask "a" titled "old", opened, and the row's title
      edited to "new": the component as written asks for nothing, and the
      subtask object the board shows already reads "new", saved or not. */
  method SharedRowsExample() returns (calls: seq<Mutation>, boardTitle: string)
    ensures calls == [] && boardTitle == "new"
  {
    var boardRow := new SharedRow("a", "old", false);
    var rows := new SharedRows([boardRow]);
    rows.ChangeSubtaskTitle(0, "new");
    var row := Draft("a", "new", false);
    assert Values(rows.subtasks) == [row] == Values(rows.originalSubtasks);
    assert CurrentIds([row]) == {"a"};
    assert [row][..0] == [];
    calls := PlanSubtasks([row], [row], "t");
    boardTitle := boardRow.title;
  }

  /** The same edit in the form that keeps its originals: one retitle. */
  method TaskFormExample() returns (calls: seq<Mutation>)
    ensures calls == [RetitleSubtaskCall("a", "new", "t")]
  {
    var form := new TaskForm();
    form.Open(Some(Task("t", "p", "team", "x", None, TodoStatus, DefaultPriority, None, "u", None, None,
                        [Subtask("a", "t", "old", false)], Some([]))));
    form.ChangeSubtaskTitle(0, "new");
    var current, original := Draft("a", "new", false), Draft("a", "old", false);
    assert form.subtasks == [current] && form.originalSubtasks == [original];
    assert CurrentIds([current]) == {"a"};
    assert [current][..0] == [];
    calls := PlanSubtasks(form.subtasks, form.originalSubtasks, "t");
  }

  /** In the form that keeps its originals, any edit of a saved subtask's
      title is sent as a retitle of that subtask with the new title. */
  lemma EditedTitleRetitled(subs: seq<Subtask>, index: nat, title: string, taskId: string)
    requires index < |subs| && subs[index].id != ""
    requires forall a, b :: 0 <= a < b < |subs| ==> subs[a].id != subs[b].id
    requires title != subs[index].title
    ensures RetitleSubtaskCall(subs[index].id, title, taskId) in
      Upserts(DraftsOf(subs)[index := DraftsOf(subs)[index].(title := title)], DraftsOf(subs), taskId)
  {
    var originals := DraftsOf(subs);
    var current := originals[index := originals[index].(title := title)];
    var c := current[index];
    FindDistinct(originals, originals[index]);
    assert Upsert(c, originals, taskId) == [RetitleSubtaskCall(c.id, title, taskId)];
    UpsertsSpec(current, originals, taskId, RetitleSubtaskCall(c.id, title, taskId));
  }
}
