/** The board of one project page (hooks/useKanbanBoard.ts): the fetched
    tasks are narrowed by a title search, an assignee filter and a tag filter,
    bucketed into the three status columns and sorted by due date then title;
    a drop on another column changes the task's status at once and puts it
    back if the remote update fails; a counter discards responses to all but
    the latest fetch. */
module Board {
  import opened Common
  import opened Types

  // ---------------------------------------------------------------------------
  // Filters
  // ---------------------------------------------------------------------------

  /** The query as it is matched: trimmed, then lower-cased. */
  function SearchKey(query: string): string {
    Lower(Trim(query))
  }

  predicate MatchesSearch(t: Task, query: string) {
    SearchKey(query) == [] || Contains(Lower(t.title), SearchKey(query))
  }

  /** `assignedToId || assignedTo?.uid || ""`: an empty id counts as missing. */
  function AssigneeKey(t: Task): string {
    if t.assignedToId.Some? && t.assignedToId.value != "" then t.assignedToId.value
    else if t.assignedTo.Some? then t.assignedTo.value.uid
    else ""
  }

  predicate MatchesUser(t: Task, users: seq<string>) {
    |users| == 0 || AssigneeKey(t) in users
  }

  /** Tags are OR-ed: one selected tag on the task is enough. */
  predicate MatchesTags(t: Task, tagIds: seq<string>) {
    |tagIds| == 0 || exists tag :: tag in TagsOf(t) && tag.id in tagIds
  }

  predicate PassesFilters(t: Task, query: string, users: seq<string>, tagIds: seq<string>) {
    MatchesSearch(t, query) && MatchesUser(t, users) && MatchesTags(t, tagIds)
  }

  function FilteredTasks(tasks: seq<Task>, query: string, users: seq<string>, tagIds: seq<string>): seq<Task> {
    Filter(tasks, t => PassesFilters(t, query, users, tagIds))
  }

  lemma FilteredTasksMembership(tasks: seq<Task>, query: string, users: seq<string>, tagIds: seq<string>, t: Task)
    ensures t in FilteredTasks(tasks, query, users, tagIds) <==>
      t in tasks && MatchesSearch(t, query) && MatchesUser(t, users) && MatchesTags(t, tagIds)
  {
    FilterMembership(tasks, t => PassesFilters(t, query, users, tagIds), t);
  }

  /** An empty or whitespace-only query matches every task. */
  lemma BlankQueryMatchesAll(t: Task, query: string)
    requires IsBlank(query)
    ensures MatchesSearch(t, query)
  {
  }

  /** A task whose title contains the trimmed query, in any case, matches. */
  lemma TitleContainingQueryMatches(t: Task, query: string)
    requires Contains(t.title, Trim(query))
    ensures MatchesSearch(t, query)
  {
    LowerContains(t.title, Trim(query));
  }

  /** With no query and no filter the board shows every task, in order. */
  lemma NoFiltersKeepsAll(tasks: seq<Task>, query: string)
    requires IsBlank(query)
    ensures FilteredTasks(tasks, query, [], []) == tasks
  {
    FilterAll(tasks, t => PassesFilters(t, query, [], []));
  }

  // ---------------------------------------------------------------------------
  // Columns
  // ---------------------------------------------------------------------------

  /** Due dates in ascending order, a missing date after every present one. */
  predicate DueBefore(a: Option<int>, b: Option<int>) {
    match a
    case None => false
    case Some(x) => b.None? || x < b.value
  }

  /** `sortByDueDateThenTitle` as an order: by due date, then by title. */
  predicate DueThenTitle(a: Task, b: Task) {
    if a.dueDate == b.dueDate then StringLeq(a.title, b.title) else DueBefore(a.dueDate, b.dueDate)
  }

  lemma DueThenTitleIsTotalPreorder()
    ensures TotalPreorder(DueThenTitle)
  {
    forall a, b ensures DueThenTitle(a, b) || DueThenTitle(b, a) {
      StringLeqTotal(a.title, b.title);
    }
    forall a, b, c | DueThenTitle(a, b) && DueThenTitle(b, c) ensures DueThenTitle(a, c) {
      if a.dueDate == b.dueDate == c.dueDate {
        StringLeqTransitive(a.title, b.title, c.title);
      }
    }
  }

  function HasStatus(s: string): Task -> bool {
    (t: Task) => t.status == s
  }

  /** The column of status `s`: the tasks with that status, sorted. */
  function Column(filtered: seq<Task>, s: string): seq<Task> {
    SortBy(Filter(filtered, HasStatus(s)), DueThenTitle)
  }

  datatype Columns = Columns(todo: seq<Task>, inProgress: seq<Task>, done: seq<Task>)

  /** The `columns` memo: one pass pushes each task into the bucket of its
      status (a task with another status goes nowhere), then every bucket is
      sorted. */
  method BuildColumns(filtered: seq<Task>) returns (c: Columns)
    ensures c.todo == Column(filtered, TodoStatus)
    ensures c.inProgress == Column(filtered, InProgressStatus)
    ensures c.done == Column(filtered, DoneStatus)
  {
    var todo: seq<Task>, inProgress: seq<Task>, done: seq<Task> := [], [], [];
    for i := 0 to |filtered|
      invariant todo == Filter(filtered[..i], HasStatus(TodoStatus))
      invariant inProgress == Filter(filtered[..i], HasStatus(InProgressStatus))
      invariant done == Filter(filtered[..i], HasStatus(DoneStatus))
    {
      var t := filtered[i];
      assert filtered[..i + 1][..i] == filtered[..i];
      if t.status == TodoStatus {
        todo := todo + [t];
      } else if t.status == InProgressStatus {
        inProgress := inProgress + [t];
      } else if t.status == DoneStatus {
        done := done + [t];
      }
    }
    assert filtered[..|filtered|] == filtered;
    c := Columns(SortBy(todo, DueThenTitle), SortBy(inProgress, DueThenTitle), SortBy(done, DueThenTitle));
  }

  /** A column holds exactly the tasks of its status, each as often as in the
      input, ordered by due date (missing last) and then by title. */
  lemma ColumnIsSortedPermutation(filtered: seq<Task>, s: string)
    ensures multiset(Column(filtered, s)) == multiset(Filter(filtered, HasStatus(s)))
    ensures SortedBy(Column(filtered, s), DueThenTitle)
    ensures forall t :: t in Column(filtered, s) <==> t in filtered && t.status == s
  {
    DueThenTitleIsTotalPreorder();
    SortBySorted(Filter(filtered, HasStatus(s)), DueThenTitle);
    forall t ensures t in Column(filtered, s) <==> t in filtered && t.status == s {
      SortByMembership(Filter(filtered, HasStatus(s)), DueThenTitle, t);
      FilterMembership(filtered, HasStatus(s), t);
    }
  }

  /** The tasks with one due date and one title. */
  function SameKey(due: Option<int>, title: string): Task -> bool {
    (t: Task) => t.dueDate == due && t.title == title
  }

  /** The sort is stable: tasks with the same due date and title stay in a
      column in the order in which they were fetched. */
  lemma ColumnKeepsTiesInOrder(filtered: seq<Task>, s: string, due: Option<int>, title: string)
    ensures Filter(Column(filtered, s), SameKey(due, title)) == Filter(Filter(filtered, HasStatus(s)), SameKey(due, title))
  {
    StringLeqTotal(title, title);
    SortByStable(Filter(filtered, HasStatus(s)), DueThenTitle, SameKey(due, title));
  }

  /** A task shows in column `s` exactly when it passes all three filters and
      its status is `s`. */
  lemma BoardColumnMembership(tasks: seq<Task>, query: string, users: seq<string>, tagIds: seq<string>, s: string, t: Task)
    ensures t in Column(FilteredTasks(tasks, query, users, tagIds), s) <==>
      t in tasks && PassesFilters(t, query, users, tagIds) && t.status == s
  {
    ColumnIsSortedPermutation(FilteredTasks(tasks, query, users, tagIds), s);
    FilteredTasksMembership(tasks, query, users, tagIds, t);
  }

  /** A task whose status is none of the three is on no column. */
  lemma OtherStatusOnNoColumn(filtered: seq<Task>, t: Task)
    requires !IsBoardStatus(t.status)
    ensures t !in Column(filtered, TodoStatus)
    ensures t !in Column(filtered, InProgressStatus)
    ensures t !in Column(filtered, DoneStatus)
  {
    ColumnIsSortedPermutation(filtered, TodoStatus);
    ColumnIsSortedPermutation(filtered, InProgressStatus);
    ColumnIsSortedPermutation(filtered, DoneStatus);
  }

  // ---------------------------------------------------------------------------
  // Fetching
  // ---------------------------------------------------------------------------

  /** A fetched task whose `tags` is not an array gets the empty list. */
  function Normalized(t: Task): Task {
    t.(tags := Some(TagsOf(t)))
  }

  /** The validation pass over the fetched tasks. */
  method NormalizeTasks(fetched: seq<Task>) returns (r: seq<Task>)
    ensures |r| == |fetched|
    ensures forall i :: 0 <= i < |r| ==> r[i] == Normalized(fetched[i])
  {
    r := [];
    for i := 0 to |fetched|
      invariant |r| == i
      invariant forall k :: 0 <= k < i ==> r[k] == Normalized(fetched[k])
    {
      r := r + [Normalized(fetched[i])];
    }
  }

  /** Normalising gives every task a tag list and changes nothing a filter or
      a column looks at. */
  lemma NormalizedKeepsBoard(t: Task, query: string, users: seq<string>, tagIds: seq<string>)
    ensures Normalized(t).tags.Some?
    ensures Normalized(t).(tags := t.tags) == t
    ensures PassesFilters(Normalized(t), query, users, tagIds) == PassesFilters(t, query, users, tagIds)
  {
  }

  datatype FetchResponse = Loaded(tasks: seq<Task>, members: seq<User>, tags: seq<Tag>) | FetchFailed

  datatype Location = Location(droppableId: string, index: int)

  datatype DropResult = DropResult(draggableId: string, source: Location, destination: Option<Location>)

  /** The remote status change a drop issues, with the column it came from. */
  datatype StatusUpdate = StatusUpdate(taskId: string, from: string, to: string)

  const FetchFailedMessage: string := "Failed to fetch project data."
  const UpdateFailedMessage: string := "Failed to update task. Please try again."

  /** The hook's state. */
  class BoardHook {
    var tasks: seq<Task>
    var teamMembers: seq<User>
    var availableTags: seq<Tag>
    var isLoading: bool
    var error: Option<string>
    var searchQuery: string
    var assignedUserFilter: seq<string>
    var tagFilter: seq<string>
    /** `fetchIdRef.current`: the number of the latest fetch. */
    var fetchId: nat

    constructor ()
      ensures tasks == [] && teamMembers == [] && availableTags == []
      ensures isLoading && error == None && fetchId == 0
      ensures searchQuery == "" && assignedUserFilter == [] && tagFilter == []
    {
      tasks, teamMembers, availableTags := [], [], [];
      isLoading, error, fetchId := true, None, 0;
      searchQuery, assignedUserFilter, tagFilter := "", [], [];
    }

    function Filtered(): seq<Task>
      reads this
    {
      FilteredTasks(tasks, searchQuery, assignedUserFilter, tagFilter)
    }

    /** The first half of `fetchData`, up to the request. Without a project or
        a team id the lists are emptied and loading ends, with no error and no
        request. Otherwise a new fetch number is taken and returned. */
    method StartFetch(projectId: string, teamId: string) returns (request: Option<nat>)
      modifies this
      ensures searchQuery == old(searchQuery) && assignedUserFilter == old(assignedUserFilter)
      ensures tagFilter == old(tagFilter)
      ensures projectId == "" || teamId == "" ==>
        request == None && tasks == [] && teamMembers == [] && availableTags == [] &&
        !isLoading && error == old(error) && fetchId == old(fetchId)
      ensures projectId != "" && teamId != "" ==>
        request == Some(fetchId) && fetchId == old(fetchId) + 1 && isLoading && error == None &&
        tasks == old(tasks) && teamMembers == old(teamMembers) && availableTags == old(availableTags)
    {
      if projectId == "" || teamId == "" {
        tasks, teamMembers, availableTags := [], [], [];
        isLoading := false;
        request := None;
        return;
      }
      fetchId := fetchId + 1;
      request := Some(fetchId);
      isLoading := true;
      error := None;
    }

    /** The second half of `fetchData`, when the response to fetch number
        `request` arrives. A successful response to an older fetch is dropped
        and leaves loading on; a current one replaces the lists (tasks
        normalised) and ends loading. A failure sets the error whatever its
        number, and ends loading only when it is current. */
    method CompleteFetch(request: nat, response: FetchResponse)
      modifies this
      ensures fetchId == old(fetchId)
      ensures searchQuery == old(searchQuery) && assignedUserFilter == old(assignedUserFilter)
      ensures tagFilter == old(tagFilter)
      ensures isLoading == (old(isLoading) && request != fetchId)
      ensures response.FetchFailed? ==>
        error == Some(FetchFailedMessage) && tasks == old(tasks) &&
        teamMembers == old(teamMembers) && availableTags == old(availableTags)
      ensures response.Loaded? && request != fetchId ==>
        error == old(error) && tasks == old(tasks) &&
        teamMembers == old(teamMembers) && availableTags == old(availableTags)
      ensures response.Loaded? && request == fetchId ==>
        error == old(error) && |tasks| == |response.tasks| &&
        (forall i :: 0 <= i < |tasks| ==> tasks[i] == Normalized(response.tasks[i])) &&
        teamMembers == response.members && availableTags == response.tags
    {
      match response {
        case FetchFailed =>
          error := Some(FetchFailedMessage);
        case Loaded(fetched, members, tags) =>
          if request != fetchId {
            return;
          }
          var normalized := NormalizeTasks(fetched);
          tasks, teamMembers, availableTags := normalized, members, tags;
      }
      if request == fetchId {
        isLoading := false;
      }
    }

    /** `handleDragEnd`: no destination, no signed-in user or a drop in the
        same column does nothing. Otherwise every task with the dragged id gets
        the destination's status and the remote update is returned. */
    method HandleDragEnd(drop: DropResult, signedIn: bool) returns (update: Option<StatusUpdate>)
      modifies this
      ensures error == old(error) && isLoading == old(isLoading) && fetchId == old(fetchId)
      ensures searchQuery == old(searchQuery) && assignedUserFilter == old(assignedUserFilter)
      ensures tagFilter == old(tagFilter)
      ensures teamMembers == old(teamMembers) && availableTags == old(availableTags)
      ensures drop.destination.None? || !signedIn ||
              drop.destination.value.droppableId == drop.source.droppableId ==>
        update == None && tasks == old(tasks)
      ensures drop.destination.Some? && signedIn &&
              drop.destination.value.droppableId != drop.source.droppableId ==>
        update == Some(StatusUpdate(drop.draggableId, drop.source.droppableId, drop.destination.value.droppableId)) &&
        tasks == WithStatus(old(tasks), drop.draggableId, drop.destination.value.droppableId)
    {
      if drop.destination.None? || !signedIn {
        return None;
      }
      var from := drop.source.droppableId;
      var to := drop.destination.value.droppableId;
      if from == to && drop.destination.value.index == drop.source.index {
        return None;
      }
      if from == to {
        return None;
      }
      tasks := WithStatus(tasks, drop.draggableId, to);
      update := Some(StatusUpdate(drop.draggableId, from, to));
    }

    /** The rejection handler of the remote update: the error is set and the
        task is put back in the column it was dragged from. */
    method StatusUpdateFailed(update: StatusUpdate)
      modifies this
      ensures error == Some(UpdateFailedMessage)
      ensures tasks == WithStatus(old(tasks), update.taskId, update.from)
      ensures isLoading == old(isLoading) && fetchId == old(fetchId)
      ensures searchQuery == old(searchQuery) && assignedUserFilter == old(assignedUserFilter)
      ensures tagFilter == old(tagFilter)
      ensures teamMembers == old(teamMembers) && availableTags == old(availableTags)
    {
      error := Some(UpdateFailedMessage);
      tasks := WithStatus(tasks, update.taskId, update.from);
    }

    /** `clearFilters`: empty query, no assignee and no tag selected. */
    method ClearFilters()
      modifies this
      ensures searchQuery == "" && assignedUserFilter == [] && tagFilter == []
      ensures Filtered() == tasks
      ensures tasks == old(tasks) && error == old(error) && isLoading == old(isLoading)
      ensures fetchId == old(fetchId)
      ensures teamMembers == old(teamMembers) && availableTags == old(availableTags)
    {
      searchQuery, assignedUserFilter, tagFilter := "", [], [];
      NoFiltersKeepsAll(tasks, "");
    }
  }

  /** A drop that the remote side rejects, or that asks for nothing, leaves
      the board as it was, when the dragged task had the status of the column
      it was dragged from. */
  method DropRejectedRestoresBoard(hook: BoardHook, drop: DropResult)
    requires forall t :: t in hook.tasks && t.id == drop.draggableId ==> t.status == drop.source.droppableId
    modifies hook
    ensures hook.tasks == old(hook.tasks)
  {
    var update := hook.HandleDragEnd(drop, true);
    if update.Some? {
      WithStatusUndo(old(hook.tasks), drop.draggableId, drop.source.droppableId, drop.destination.value.droppableId);
      hook.StatusUpdateFailed(update.value);
    }
  }
}
