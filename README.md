# QuantifyFlow board logic in Dafny

QuantifyFlow is a multi-team Kanban application: teams own projects, projects
own tasks, tasks carry subtasks and tags, and every change to a task leaves an
entry in the team's activity log. This project models the logic around the task
board and proves what it promises:

- **Board** (`hooks/useKanbanBoard.ts`): the title search, the assignee and tag
  filters, the three status columns sorted by due date then title, the
  optimistic drag-and-drop with its rollback, and the fetch counter that
  discards stale responses. The hook's state is the class `Board.BoardHook`.
- **BoardView** (`components/kanban-board.tsx`): the status buckets and the
  drag handlers over the optimistic copy of the tasks, as the class
  `BoardView.KanbanBoard`.
- **TaskModal** (`components/projects/kanban/TaskModal.tsx`): the task form.
  The submission is planned as a list of calls (`Mutation`): a patch of the
  changed fields, a tag replacement, subtask removals, retitles and additions,
  or the payload of a new task. The class `TaskModal.TaskForm` is the form's
  state in its intended form, with the original rows kept apart from the
  edited ones. The component as written stores the task's own subtask objects
  as both row lists; that is the classes `TaskModal.SharedRow` and
  `TaskModal.SharedRows`, and a finding below.
- **KanbanStore** (`services/kanbanService.ts`): the `tasks`, `subtasks`,
  `taskTags` and `activityLog` collections as maps in a `Db` value, each
  service operation as a function on it, and the class `KanbanStore.Store`
  whose methods carry out the same operations with the source's loops.
- **TaskCard**, **ProjectHeader**, **AdminDashboard** and **MemberDashboard**:
  - due-date classification and subtask progress;
  - filter toggles and chips;
  - initials;
  - per-project and per-status counts and percentages;
  - the member dashboard's counting loop and due-date sort;
  - badge, chip and label mappings.
- **Projects** (`hooks/useProjects.ts`): the case-insensitive project name
  filter and the fetch guard.
- **Middleware** (`middleware.ts`): the redirect decision.
- **Types** and **Common**: the task records, and the JavaScript built-ins the
  code relies on:
  - `filter`;
  - a stable sort;
  - `trim` over the ECMAScript white space and line terminators;
  - `toLowerCase`, `split` and `replace`;
  - `Math.round` on a percentage.

Dates are milliseconds since the epoch, `Option<int>` where the source allows a
missing date. The current time is a parameter. Database ids are handed out by a
counter in `Db` (`KanbanStore.AutoId`).

## Model

| member | source | states |
|---|---|---|
| Types.WithStatus | hooks/useKanbanBoard.ts:200-202 | every task with the given id gets the new status; every other task, and the length, are kept |
| Types.WithStatusUndo | hooks/useKanbanBoard.ts:200-210 | moving a task and moving it back to the status all its copies had restores the list |
| Types.FindTask | components/kanban-board.tsx:70-71 | `Array.find`: `None` exactly when no task has the id; otherwise the first task of the list with that id |
| Board.FilteredTasksMembership | hooks/useKanbanBoard.ts:148-166 | a task is kept exactly when it is in the list and passes the search, the assignee filter and the tag filter |
| Board.BlankQueryMatchesAll | hooks/useKanbanBoard.ts:149-155 | an empty or whitespace-only query matches every task |
| Board.TitleContainingQueryMatches | hooks/useKanbanBoard.ts:149-155 | a title containing the trimmed query as typed matches, whatever its letters' case |
| Board.NoFiltersKeepsAll | hooks/useKanbanBoard.ts:150-163 | with a blank query and no assignee or tag selected, the filtered list is the whole list, in order |
| Board.DueThenTitleIsTotalPreorder | hooks/useKanbanBoard.ts:35-40 | the comparator is total and transitive: due date ascending, a missing date last, then title |
| Board.BuildColumns | hooks/useKanbanBoard.ts:169-186 | the bucketing loop gives each column the tasks of its status, in input order, then sorted |
| Board.ColumnIsSortedPermutation | hooks/useKanbanBoard.ts:176-183 | a column is a permutation of the tasks of its status, sorted by due date then title |
| Board.ColumnKeepsTiesInOrder | hooks/useKanbanBoard.ts:181-183 | tasks of a column with the same due date and the same title keep the order they had in the filtered list |
| Board.BoardColumnMembership | hooks/useKanbanBoard.ts:153-178 | a task is in column `s` exactly when it passes all three filters and its status is `s` |
| Board.OtherStatusOnNoColumn | hooks/useKanbanBoard.ts:177 | a task whose status is not one of the three is in no column |
| Board.NormalizeTasks | hooks/useKanbanBoard.ts:119-128 | each fetched task is kept in place, with `tags` set to the empty list when it was not an array |
| Board.NormalizedKeepsBoard | hooks/useKanbanBoard.ts:125-160 | normalising gives every task a tag list, changes nothing else and keeps each filter's verdict |
| Board.BoardHook.constructor | hooks/useKanbanBoard.ts:68-80 | empty lists and filters, loading, no error, fetch counter 0 |
| Board.BoardHook.StartFetch | hooks/useKanbanBoard.ts:82-94 | a missing project or team id empties the lists and ends loading, with no request and no new error; otherwise the counter goes up, loading starts and the error is cleared |
| Board.BoardHook.CompleteFetch | hooks/useKanbanBoard.ts:96-140 | a stale success changes nothing; a current one replaces the lists with the tasks normalised; a failure sets the error even when stale; loading ends only for the latest fetch |
| Board.BoardHook.HandleDragEnd | hooks/useKanbanBoard.ts:188-203 | no destination, no user or the same column: nothing changes and nothing is sent; otherwise only the dragged task's status becomes the destination and the remote update is returned |
| Board.BoardHook.StatusUpdateFailed | hooks/useKanbanBoard.ts:204-211 | a rejected update sets the error and puts the task back to the source status, nothing else changing |
| Board.BoardHook.ClearFilters | hooks/useKanbanBoard.ts:216-220 | query and both filters emptied, so every task passes; nothing else changes |
| Board.DropRejectedRestoresBoard | hooks/useKanbanBoard.ts:188-211 | a drop followed by its rejection, or a drop that asks for nothing, leaves the task list as it was |
| Middleware.RootRedirects | middleware.ts:8-10 | "/" redirects to /dashboard with a session cookie and to /login without |
| Middleware.NoTokenDecision | middleware.ts:8-22 | without a session: a redirect to /login exactly for "/" and for paths starting with /dashboard, /projects or /team; every other path passes |
| Middleware.TokenDecision | middleware.ts:8-22 | with a session: a redirect to /dashboard exactly for "/", "/login" and "/register"; every other path passes |
| Middleware.NeverWrongWay | middleware.ts:8-22 | a session is never sent to /login, a visitor without one never to /dashboard, and there is no other target |
| Middleware.PrefixExamples | middleware.ts:13-22 | "/teams" and "/dashboardx" are protected by the prefix test; "/settings" passes without a session |
| Projects.EmptyTermKeepsAll | hooks/useProjects.ts:39 | an empty term returns the list unchanged |
| Projects.FilteredProjectsSpec | hooks/useProjects.ts:40-43 | a non-empty term keeps exactly the projects whose lower-cased name contains the lower-cased, untrimmed term, each as often as before, in order |
| Projects.ProjectFoundByName | hooks/useProjects.ts:41-43 | every project is found by its own name, also when typed in upper case; an empty name is the empty term, which keeps every project |
| Projects.ProjectsHook.constructor | hooks/useProjects.ts:10-13 | no projects, loading, no error, empty term |
| Projects.ProjectsHook.StartFetch | hooks/useProjects.ts:15-22 | without a team no request is made and loading ends; otherwise loading starts and the error is cleared |
| Projects.ProjectsHook.CompleteFetch | hooks/useProjects.ts:23-31 | the fetched list replaces the old one, or the error is set; loading ends either way |
| BoardView.BucketSpec | components/kanban-board.tsx:42-46 | a task is in the bucket of status `s` exactly when it is in the list with that status; a task with another status is in none of the three |
| BoardView.DragOverSpec | components/kanban-board.tsx:52-63 | hovering keeps the length and every other task, changes only the dragged task's status, and changes something only when the hovered column has a status other than the task's |
| BoardView.HoverThenDropLosesMove | components/kanban-board.tsx:52-83 | as written, a drop after hovering over the same column never asks for a move |
| BoardView.MoveOnDropAsWritten | components/kanban-board.tsx:65-78 | as written: no drop target or a task missing from the optimistic copy asks for nothing; otherwise the drop column's status, or the task's own status when the target is a card, is asked for exactly when it differs from the task's status in the optimistic copy |
| BoardView.MoveOnDrop | components/kanban-board.tsx:65-78 | the corrected comparison: the same drop status is asked for exactly when it differs from the task's status in the saved tasks |
| BoardView.HoverThenDropMoves | components/kanban-board.tsx:52-78 | compared with the saved status, a drop on another column asks for exactly that move and a drop back on its own column asks for none |
| BoardView.KanbanBoard.constructor | components/kanban-board.tsx:26-27 | the optimistic copy starts as the given tasks; nothing is dragged |
| BoardView.KanbanBoard.Receive | components/kanban-board.tsx:29-31 | a new `tasks` prop replaces the optimistic copy |
| BoardView.KanbanBoard.DragStart | components/kanban-board.tsx:48-50 | the dragged id is recorded; the lists are kept |
| BoardView.KanbanBoard.DragOver | components/kanban-board.tsx:52-63 | the optimistic copy becomes the hover result; nothing else changes |
| BoardView.KanbanBoard.DragEnd | components/kanban-board.tsx:65-78 | as written: the dragged id is cleared, the lists are kept, and the move asked for is the one the drop status and the optimistic copy decide |
| BoardView.KanbanBoard.DragEndAgainstSaved | components/kanban-board.tsx:65-78 | the corrected handler: the move asked for is the one the drop status and the saved tasks decide |
| BoardView.KanbanBoard.MoveRejected | components/kanban-board.tsx:79-81 | a rejected move resets the optimistic copy to the given tasks |
| BoardView.DragAcross | components/kanban-board.tsx:48-78 | as written: a whole drag of a card onto a column asks for no move, although the optimistic copy already shows the card in that column |
| BoardView.DragAcrossAgainstSaved | components/kanban-board.tsx:48-78 | with the corrected handler, a whole drag of a saved card onto another column asks for exactly that move |
| TaskCard.DueStatusSpec | components/projects/kanban/TaskCard.tsx:31-38 | overdue exactly for a date before now; due soon exactly for a date from now to 24 hours after; normal for later dates and for a missing date |
| TaskCard.DueStatusMonotone | components/projects/kanban/TaskCard.tsx:34-37 | a later due date is never more urgent, and a date only grows more urgent as time passes |
| TaskCard.Completed | components/projects/kanban/TaskCard.tsx:52 | the completed count is at most the number of subtasks |
| TaskCard.Progress | components/projects/kanban/TaskCard.tsx:53 | the progress is a whole percentage between 0 and 100 |
| TaskCard.ProgressSpec | components/projects/kanban/TaskCard.tsx:51-53 | progress is the completed share rounded half up to a whole percentage: 100 when all subtasks are done, 0 when none is |
| TaskCard.AccentSpec | components/projects/kanban/TaskCard.tsx:55-60 | rose exactly for overdue, amber exactly for due soon, transparent otherwise, each stated against the clock |
| TaskCard.ToggleRequest | components/projects/kanban/TaskCard.tsx:62-70 | the request names the card's task and the clicked subtask and asks for the opposite of its completion |
| TaskCard.CardInitials | components/projects/kanban/TaskCard.tsx:79-85 | one or two characters; "?" when there is no assignee or no display name |
| TaskCard.CardInitialsTwoWords | components/projects/kanban/TaskCard.tsx:79-85 | a two-word name gives the upper-cased first letters of both words |
| TaskCard.CardInitialsLeadingSpace | components/projects/kanban/TaskCard.tsx:79-85 | the name is split without trimming, so a leading space yields only the first word's initial |
| ProjectHeader.Toggle | components/projects/kanban/ProjectHeader.tsx:59-66 | a selected id is removed, every occurrence of it; an absent id is appended; no other id's membership changes |
| ProjectHeader.ToggleTwice | components/projects/kanban/ProjectHeader.tsx:59-66 | toggling twice restores membership, and restores the very list when the id was absent |
| ProjectHeader.SelectedUsersSpec | components/projects/kanban/ProjectHeader.tsx:50-53 | the member chips are exactly the members whose uid is selected, in team order; a selected id that is no member shows nothing |
| ProjectHeader.SelectedTagsSpec | components/projects/kanban/ProjectHeader.tsx:54-57 | the tag chips are exactly the tags whose id is selected, in tag order |
| ProjectHeader.ClearedSelection | components/projects/kanban/ProjectHeader.tsx:185-193 | clearing hands back the empty list: no chip is shown and the board's assignee and tag filters pass every task |
| ProjectHeader.MemberInitials | components/projects/kanban/ProjectHeader.tsx:68-75 | one or two characters |
| ProjectHeader.MemberInitialsSpec | components/projects/kanban/ProjectHeader.tsx:68-75 | a missing, empty or whitespace name gives "?"; a trimmed two-word name gives the upper-cased first letters of both words |
| AdminDashboard.ProjectTotals | components/dashboards/admin-dashboard.tsx:105-110 | `todo`, `progress` and `done` are the numbers of the project's tasks that are "todo", "in-progress", and "done" or "completed"; together they fit in the project's tasks; `all` is the number of its tasks, or else the stored task count, or else 0; `done` never exceeds `all` |
| AdminDashboard.ProjectPercent | components/dashboards/admin-dashboard.tsx:112 | a whole percentage in 0..100: 0 when `all` is 0, otherwise `done / all * 100` rounded to the nearest whole number, halves up |
| AdminDashboard.ProjectPercentSpec | components/dashboards/admin-dashboard.tsx:100-112 | 0% for a project with no loaded task or none finished; 100% when every loaded task is "done" or "completed" |
| AdminDashboard.ProjectTasksSpec | components/dashboards/admin-dashboard.tsx:100-103 | a task is on a project's card exactly when its `projectId` is the project's id |
| AdminDashboard.TeamOverview | components/dashboards/admin-dashboard.tsx:233-236 | the three task counters together never exceed the number of tasks; active projects never exceed the projects |
| AdminDashboard.TeamOverviewSpec | components/dashboards/admin-dashboard.tsx:233-236 | each of the four counters (to do, in progress, done or completed, active projects) is the length of the matching filter |
| AdminDashboard.StatusLabel | components/dashboards/admin-dashboard.tsx:82-91 | the label is one of the four known labels |
| AdminDashboard.StatusLabelSpec | components/dashboards/admin-dashboard.tsx:82-91 | "Desconocido" exactly for a missing status or one outside active, paused and archived |
| AdminDashboard.AvatarInitials | components/dashboards/admin-dashboard.tsx:153-161 | one or two characters, "?" without a name |
| AdminDashboard.ActivityLabel | components/dashboards/admin-dashboard.tsx:196 | "actividad" without an action; otherwise the action with every underscore replaced by a space and every other character kept |
| MemberDashboard.CountTasks | components/dashboards/member-dashboard.tsx:205-217 | the counting loop gives `total` the number of tasks and each status counter the number of tasks with that status, so the three sum to at most `total` |
| MemberDashboard.DueLeqIsTotalPreorder | components/dashboards/member-dashboard.tsx:220-226 | the due-date comparison is a total preorder with missing dates last |
| MemberDashboard.TasksSortedSpec | components/dashboards/member-dashboard.tsx:220-226 | the sorted copy is a permutation of the assigned tasks, ordered by due date, with every undated task after every dated one |
| MemberDashboard.TasksSortedKeepsTies | components/dashboards/member-dashboard.tsx:220-226 | tasks with the same due date, or all undated tasks, keep their order among the assigned tasks |
| MemberDashboard.CardProgress | components/dashboards/member-dashboard.tsx:106-108 | a whole percentage in 0..100, 0 without subtasks |
| MemberDashboard.ShownActivity | components/dashboards/member-dashboard.tsx:291 | at most six entries, a prefix of the log, the whole log when it has six or fewer |
| MemberDashboard.PriorityToneIgnoresCase | components/dashboards/member-dashboard.tsx:80-90 | two priorities equal up to case get the same tone |
| MemberDashboard.PriorityToneHigh | components/dashboards/member-dashboard.tsx:81-84 | "HIGH" and "alta" are both rose |
| MemberDashboard.PriorityToneMedium | components/dashboards/member-dashboard.tsx:81-86 | "Medium" and "media" are both amber |
| MemberDashboard.PriorityToneLow | components/dashboards/member-dashboard.tsx:81-90 | "low" and "Baja" are both sky; a missing priority is muted |
| MemberDashboard.StatusText | components/dashboards/member-dashboard.tsx:94-96 | never empty and without hyphens; "—" for a missing or empty status; otherwise the status lower-cased, character by character, with each hyphen shown as a space |
| MemberDashboard.CardAccentOf | components/dashboards/member-dashboard.tsx:110-115 | emerald exactly for "done", indigo exactly for "in-progress" |
| KanbanStore.AutoId | services/kanbanService.ts:156-174 | the n-th id the database hands out has length n, so it differs from every id handed out before |
| KanbanStore.Log | services/kanbanService.ts:18-27 | a successful log write appends the entry and a failed one changes nothing; no collection other than the log changes |
| KanbanStore.InsertedSpec | services/kanbanService.ts:165-174 | documents written under fresh ids keep every old document, sit under ids `n`, `n + 1`, ... in order, and add nothing else |
| KanbanStore.InsertedBelow | services/kanbanService.ts:165-174 | writing under fresh ids keeps the old documents and every id below the counter |
| KanbanStore.SubtaskDocs | services/kanbanService.ts:165-169 | one subtask document per title |
| KanbanStore.LinkDocs | services/kanbanService.ts:171-174 | one link document per tag id |
| KanbanStore.SubtaskDocsAt | services/kanbanService.ts:168 | the i-th subtask document belongs to the task, carries the i-th title and is not completed |
| KanbanStore.LinkDocsAt | services/kanbanService.ts:173 | the i-th link joins the task to the i-th tag id |
| KanbanStore.PatchFields | services/kanbanService.ts:204 | at most five field names, and none exactly when the patch is empty |
| KanbanStore.ApplyPatch | services/kanbanService.ts:196-197 | the patched fields take their new values; project, team, status and author are kept |
| KanbanStore.WithTaskSpec | services/kanbanService.ts:156-163 | the task document goes under an id no task has, and the counter moves past it |
| KanbanStore.WithSubtasksValid | services/kanbanService.ts:165-169 | writing the subtasks moves the counter past their ids |
| KanbanStore.WithLinksValid | services/kanbanService.ts:171-174 | writing the links moves the counter past their ids |
| KanbanStore.WithSubtasksSpec | services/kanbanService.ts:165-169 | old subtasks stay; one uncompleted subtask per non-blank title is written under new ids, in order; nothing else is added |
| KanbanStore.WithLinksSpec | services/kanbanService.ts:171-174 | old links stay; one link per tag id is written under new ids, in order; nothing else is added |
| KanbanStore.CreateTaskSpec | services/kanbanService.ts:154-187 | the task is stored as "todo" whatever the caller passed, under a new id, with every other document kept, every id below the counter and a "task_created" entry when the log write succeeds |
| KanbanStore.CreateTaskSubtasks | services/kanbanService.ts:165-169 | the new task gets one uncompleted subtask per non-blank title, untrimmed and in order, and no other new subtask exists |
| KanbanStore.CreateTaskLinks | services/kanbanService.ts:171-174 | the new task gets one link per tag id, repeated ids included, and no other new link exists |
| KanbanStore.KeptTitlesSpec | services/kanbanService.ts:165-166 | a title is kept exactly as often as it was given when it is not blank, and never when it is |
| KanbanStore.DeleteTaskSpec | services/kanbanService.ts:208-230 | the task, its subtasks and its links are gone; every other document is as it was; a "task_deleted" entry is logged when the write succeeds |
| KanbanStore.SetTaskTagsSpec | services/kanbanService.ts:264-285 | the task's links are exactly one per entry of the new list; other tasks' links, tasks and subtasks are untouched; a "tags_updated" entry is logged |
| KanbanStore.SubtaskCompletionSpec | services/kanbanService.ts:103-132 | the flag is set; completing the last open subtask of the task makes it "done"; un-completing, or leaving another subtask open, keeps every task as it was; the log gains exactly the completed or uncompleted entry when its write succeeds, then the "done" status change when the task was completed and that write succeeds |
| KanbanStore.SubtaskTitleSpec | services/kanbanService.ts:286-306 | a blank title fails with nothing written; any other is stored as given, untrimmed, and logged |
| KanbanStore.UpdateTaskSpec | services/kanbanService.ts:190-206 | only the edited task changes, by the patch; an empty patch changes no task; the entry lists the patched field names |
| KanbanStore.LogEntriesSpec | services/kanbanService.ts:83-262 | a status change, a removal and an addition each append exactly their one entry when the write succeeds; a completion appends exactly its completed or uncompleted entry, then the "done" status change when every subtask of the task is done; a failed log write never fails the operation |
| KanbanStore.InsertSubtasks | services/kanbanService.ts:165-169 | the loop writes exactly the documents of the non-blank titles under consecutive new ids and returns the advanced counter |
| KanbanStore.InsertSubtasksStep | services/kanbanService.ts:165-169 | one turn of that loop adds one document for a non-blank title and none for a blank one |
| KanbanStore.InsertLinks | services/kanbanService.ts:171-174 | the loop writes exactly one link per tag id under consecutive new ids |
| KanbanStore.InsertLinksStep | services/kanbanService.ts:171-174 | one turn of that loop adds the next link under the next id |
| KanbanStore.DeleteSubtasksOf | services/kanbanService.ts:214-216 | the loop over the snapshot deletes exactly the task's subtasks |
| KanbanStore.DeleteLinksOf | services/kanbanService.ts:218-220 | the loop over the snapshot deletes exactly the task's links |
| KanbanStore.Store.constructor | services/kanbanService.ts:1-15 | empty collections and counter, consistent |
| KanbanStore.Store.AppendLog | services/kanbanService.ts:18-27 | the store is as `Log` says |
| KanbanStore.Store.UpdateTaskStatusIn | services/kanbanService.ts:84-100 | a missing task fails with nothing written; otherwise its status is set and the change logged, as `UpdateTaskStatus` says |
| KanbanStore.Store.UpdateSubtaskCompletionIn | services/kanbanService.ts:104-132 | the store is as `UpdateSubtaskCompletion` says |
| KanbanStore.Store.AddTaskDoc | services/kanbanService.ts:155-163 | the task document is written under a fresh id, which is returned |
| KanbanStore.Store.AddSubtaskDocs | services/kanbanService.ts:165-169 | the subtask documents are written as `WithSubtasks` says |
| KanbanStore.Store.AddLinkDocs | services/kanbanService.ts:171-174 | the link documents are written as `WithLinks` says |
| KanbanStore.Store.CreateTaskIn | services/kanbanService.ts:154-187 | the store is as `CreateTask` says, and the returned id is fresh |
| KanbanStore.Store.UpdateTaskIn | services/kanbanService.ts:190-206 | the store is as `UpdateTask` says |
| KanbanStore.Store.DeleteTaskIn | services/kanbanService.ts:208-230 | the store is as `DeleteTask` says |
| KanbanStore.Store.AddSubtaskIn | services/kanbanService.ts:233-250 | the store is as `AddSubtask` says, and the returned id is fresh |
| KanbanStore.Store.RemoveSubtaskIn | services/kanbanService.ts:252-262 | the store is as `RemoveSubtask` says |
| KanbanStore.Store.SetTaskTagsIn | services/kanbanService.ts:264-285 | the store is as `SetTaskTags` says |
| KanbanStore.Store.UpdateSubtaskTitleIn | services/kanbanService.ts:286-306 | the store is as `UpdateSubtaskTitle` says |
| KanbanStore.Store.UpdateSubtaskStatusIn | services/kanbanService.ts:307-336 | a missing subtask or task fails the batch with nothing written; otherwise only the flag changes, with no log entry |
| TaskModal.DraftsOf | components/projects/kanban/TaskModal.tsx:93-95 | one row per subtask of the task, in order, with its id, title and flag |
| TaskModal.DayOf | components/projects/kanban/TaskModal.tsx:82-87 | the due date shown is the UTC midnight that starts the date's day: day-aligned, at most the date, less than a day before it |
| TaskModal.TagIds | components/projects/kanban/TaskModal.tsx:89 | the ids of the task's tags, in order |
| TaskModal.Assignee | components/projects/kanban/TaskModal.tsx:138-143 | an empty selection becomes null and any other is kept, so the value read back is the one chosen |
| TaskModal.EditPatchFields | components/projects/kanban/TaskModal.tsx:138-159 | each field is in the patch exactly when the form changed it (the description against "" for a task without one, the due date by time value); the patch is empty exactly when nothing changed |
| TaskModal.EditPatchApplied | components/projects/kanban/TaskModal.tsx:138-158 | applying the patch to the stored task gives a task the form shows as submitted; status, project, team and author are kept |
| TaskModal.TagsChangedSpec | components/projects/kanban/TaskModal.tsx:162-164 | the tags are written exactly when the two lists are not permutations of each other, so reordering alone writes nothing |
| TaskModal.FindOriginal | components/projects/kanban/TaskModal.tsx:180-181 | a row is found exactly when its id is among the originals, and what is found is an original with that id |
| TaskModal.IdCount | components/projects/kanban/TaskModal.tsx:171-175 | at most as many as there are original rows |
| TaskModal.Removals | components/projects/kanban/TaskModal.tsx:167-175 | at most one removal per original, each for an id absent from the form and for the edited task |
| TaskModal.RemovalsCount | components/projects/kanban/TaskModal.tsx:167-175 | an id still in the form is never removed; a vanished id is removed once per original row carrying it |
| TaskModal.RemovedOnce | components/projects/kanban/TaskModal.tsx:167-175 | with distinct original ids, every vanished subtask is removed exactly once |
| TaskModal.IdCountDistinct | components/projects/kanban/TaskModal.tsx:167 | with distinct ids, each original's id occurs once |
| TaskModal.IdCountAbsent | components/projects/kanban/TaskModal.tsx:167 | an id no original carries occurs zero times |
| TaskModal.Upsert | components/projects/kanban/TaskModal.tsx:178-191 | one row asks for at most one call |
| TaskModal.Upserts | components/projects/kanban/TaskModal.tsx:178-191 | no more calls than rows |
| TaskModal.UpsertsSpec | components/projects/kanban/TaskModal.tsx:178-191 | a call is among the retitles and adds exactly when some row asks for it |
| TaskModal.UpsertCases | components/projects/kanban/TaskModal.tsx:179-190 | a row asks for a retitle exactly when it has an original id and its title differs from the original's, and for an add, with the trimmed title, exactly when it has no id and its title is not blank |
| TaskModal.TrimmedTitles | components/projects/kanban/TaskModal.tsx:205-207 | one trimmed title per row, in order |
| TaskModal.PayloadTitlesSpec | components/projects/kanban/TaskModal.tsx:205-208 | the payload's titles are the trimmed titles of the non-blank rows, in row order, and none is blank |
| TaskModal.CreatePayloadStored | components/projects/kanban/TaskModal.tsx:196-211 | the service keeps every title of the payload, and the new task is "todo" with the form's title, creator and assignee |
| TaskModal.UntouchedFormPlansNothing | components/projects/kanban/TaskModal.tsx:75-193 | opening a task and saving it untouched sends no call, when its due date is a UTC midnight, its subtask ids are distinct and its title is not blank |
| TaskModal.OffMidnightDueDateRewritten | components/projects/kanban/TaskModal.tsx:87-155 | a due date that is not a UTC midnight is put in the patch as the start of its day |
| TaskModal.NothingRemoved | components/projects/kanban/TaskModal.tsx:167-175 | when every original is still in the form, nothing is removed |
| TaskModal.NothingUpserted | components/projects/kanban/TaskModal.tsx:178-191 | rows that are the originals themselves ask for nothing |
| TaskModal.FindDistinct | components/projects/kanban/TaskModal.tsx:181 | with distinct ids, an original is found by its own id |
| TaskModal.DeleteRequest | components/projects/kanban/TaskModal.tsx:226-233 | the deletion is requested exactly when a task is being edited, the role is admin and the user confirms, and then for that task |
| TaskModal.RemoveAt | components/projects/kanban/TaskModal.tsx:120-121 | removing row `index` drops exactly that row and shifts the rest; an index out of range changes nothing |
| TaskModal.AddThenRemove | components/projects/kanban/TaskModal.tsx:119-121 | removing the row just added restores the rows |
| TaskModal.PlanSubtasks | components/projects/kanban/TaskModal.tsx:166-191 | the loops give the removals followed by the retitles and adds |
| TaskModal.CollectIds | components/projects/kanban/TaskModal.tsx:168 | the loop collects exactly the ids of the rows that have one |
| TaskModal.PlanRemovals | components/projects/kanban/TaskModal.tsx:170-175 | the loop gives exactly the removals |
| TaskModal.PlanUpserts | components/projects/kanban/TaskModal.tsx:177-191 | the loop gives exactly the retitles and adds |
| TaskModal.PlanSubmission | components/projects/kanban/TaskModal.tsx:124-212 | the submission is refused for a blank title, else is the edit's calls or the create payload |
| TaskModal.TaskForm.constructor | components/projects/kanban/TaskModal.tsx:43-55 | intended form: an empty form, priority "medium", no rows, not submitting, no error |
| TaskModal.TaskForm.Open | components/projects/kanban/TaskModal.tsx:75-110 | intended form: an existing task fills the form and both row lists; a new task empties it; the error is cleared |
| TaskModal.TaskForm.ToggleTag | components/projects/kanban/TaskModal.tsx:391-394 | intended form: the tag is toggled in the form's tag list; nothing else changes |
| TaskModal.TaskForm.ChangeSubtaskTitle | components/projects/kanban/TaskModal.tsx:113-117 | intended form: only the row at `index` takes the new title; the originals are kept |
| TaskModal.TaskForm.AddSubtaskLocal | components/projects/kanban/TaskModal.tsx:119 | intended form: an empty, uncompleted row without an id is appended |
| TaskModal.TaskForm.RemoveSubtaskLocal | components/projects/kanban/TaskModal.tsx:120-121 | intended form: the row at `index` is removed |
| TaskModal.TaskForm.Submit | components/projects/kanban/TaskModal.tsx:124-131 | intended form: a blank title sets the message and plans nothing; otherwise the form is submitting with no error, and the planned calls are returned |
| TaskModal.TaskForm.Delete | components/projects/kanban/TaskModal.tsx:226-233 | intended form: the deletion is asked for only as `DeleteRequest` allows, and then the form is submitting |
| TaskModal.TaskForm.DeleteFailedShown | components/projects/kanban/TaskModal.tsx:236-239 | intended form: a failed deletion shows its message and ends submitting |
| TaskModal.TaskForm.SubmitFailed | components/projects/kanban/TaskModal.tsx:216-219 | intended form: a failed call shows the message and ends submitting |
| TaskModal.Values | components/projects/kanban/TaskModal.tsx:49-52 | the rows' current contents, one per object, in order |
| TaskModal.SharedRows.constructor | components/projects/kanban/TaskModal.tsx:93-95 | the task's own subtask objects, not copies, are stored as both the current and the original rows |
| TaskModal.SharedRows.ChangeSubtaskTitle | components/projects/kanban/TaskModal.tsx:113-117 | the shared object's title is assigned; every row with an id remains one of the originals |
| TaskModal.SharedRows.AddSubtaskLocal | components/projects/kanban/TaskModal.tsx:119 | a new object is appended, the other rows kept |
| TaskModal.SharedRows.RemoveSubtaskLocal | components/projects/kanban/TaskModal.tsx:120-121 | the row at `index` is removed, the originals kept |
| TaskModal.SharedRowsNeverRetitle | components/projects/kanban/TaskModal.tsx:93-186 | as written, no submission ever asks for a retitle |
| TaskModal.FoundRowsNeverRetitle | components/projects/kanban/TaskModal.tsx:178-186 | rows found among the originals exactly as they are ask for no retitle |
| TaskModal.FoundRowNoRetitle | components/projects/kanban/TaskModal.tsx:179-190 | such a row asks at most for an add |
| TaskModal.SharedRowFound | components/projects/kanban/TaskModal.tsx:178-186 | a shared row with an id is found among the originals as itself |
| TaskModal.SharedRowsExample | components/projects/kanban/TaskModal.tsx:93-191 | as written, editing the title of subtask "a" from "old" to "new" asks for nothing, and the task object the board holds already reads "new" |
| TaskModal.TaskFormExample | components/projects/kanban/TaskModal.tsx:113-191 | with the originals kept apart, the same edit asks for exactly one retitle |
| TaskModal.EditedTitleRetitled | components/projects/kanban/TaskModal.tsx:93-186 | with the originals kept apart, changing the title of a saved subtask always sends a retitle of that subtask with the new title |
| Common.Filter | components/kanban-board.tsx:43-45 | `Array.filter`: keeps only elements that pass, never more than there were |
| Common.FilterMembership | components/kanban-board.tsx:43-45 | an element is kept exactly when it is in the input and passes |
| Common.FilterMultiset | components/kanban-board.tsx:43-45 | each passing element is kept as often as it occurs, the others never |
| Common.FilterAppend | components/kanban-board.tsx:43-45 | filtering a concatenation is concatenating the filtered parts |
| Common.FilterSubsequence | components/kanban-board.tsx:43-45 | the kept elements keep their order |
| Common.Count | components/dashboards/admin-dashboard.tsx:107-109 | `filter(..).length`: at most the length |
| Common.CountIsFilterLength | components/dashboards/admin-dashboard.tsx:107-109 | the count is the length of the filtered list |
| Common.CountDisjoint | components/dashboards/admin-dashboard.tsx:107-109 | counts of two exclusive conditions add up to at most the length |
| Common.SortBy | hooks/useKanbanBoard.ts:181-183 | `Array.sort`: the result is a permutation of the input; its stability is `Common.SortByStable` |
| Common.SortBySorted | hooks/useKanbanBoard.ts:181-183 | with a total preorder the result is ordered |
| Common.SortByMembership | hooks/useKanbanBoard.ts:181-183 | sorting keeps exactly the same elements |
| Common.InsertFilter | hooks/useKanbanBoard.ts:181-183 | inserting an element among elements that all compare equal to it puts it before them; since each head is inserted into its sorted tail, the elements of such a class keep their input order |
| Common.SortByStable | hooks/useKanbanBoard.ts:181-183 | `Array.sort` is stable: the elements that compare equal to each other come out in their input order |
| Common.SortedUnique | hooks/useKanbanBoard.ts:35-40 | for an antisymmetric order, two ordered permutations of one list are equal: the order decides the result |
| Common.StringLeqIsTotalPreorder | hooks/useKanbanBoard.ts:39 | the title comparison is total and transitive |
| Common.StringLeqAntisymmetric | hooks/useKanbanBoard.ts:39 | titles comparing equal are equal |
| Common.Trim | components/projects/kanban/TaskModal.tsx:126 | `String.trim`: the result is a piece of the input with no ECMAScript white space or line terminator at either end, and it is empty exactly when the input is blank |
| Common.Lower | hooks/useKanbanBoard.ts:149-154 | `toLowerCase`: each character lowered, length kept |
| Common.LowerIdempotent | hooks/useKanbanBoard.ts:149-154 | lowering twice is lowering once |
| Common.LowerContains | hooks/useProjects.ts:41-42 | a piece of a string stays a piece after lowering both |
| Common.ReplaceChar | components/dashboards/admin-dashboard.tsx:196 | `replace(/_/g, " ")`: every occurrence replaced, every other character kept |
| Common.Split | components/projects/kanban/ProjectHeader.tsx:71 | `split(" ")`: at least one piece, none holds the separator, the first is a prefix |
| Common.JoinSplit | components/projects/kanban/ProjectHeader.tsx:71 | joining the pieces with the separator gives back the string |
| Common.Initials | components/projects/kanban/ProjectHeader.tsx:68-75 | one or two characters |
| Common.InitialsEmpty | components/projects/kanban/ProjectHeader.tsx:75 | an empty name shows "?" |
| Common.InitialsOneWord | components/projects/kanban/ProjectHeader.tsx:68-75 | one word shows its first letter in upper case |
| Common.InitialsTwoWords | components/projects/kanban/ProjectHeader.tsx:68-75 | two or more words show the first letters of the first two, in upper case |
| Common.RoundedPercent | components/projects/kanban/TaskCard.tsx:53 | `Math.round(part / whole * 100)`: the nearest whole percent, halves rounded up |
| Common.RoundedPercentRange | components/projects/kanban/TaskCard.tsx:53 | between 0 and 100, 0 for no part and 100 for the whole |
| Common.CountAll | components/projects/kanban/TaskCard.tsx:52-53 | when every element passes, the count is the length |
| Common.CountNone | components/projects/kanban/TaskCard.tsx:52-53 | when no element passes, the count is zero |

## Left out

- Reading from the database is not modelled. This covers `getProjectTasks`, `getCurrentUserTasks`, `enrichTaskWithDetails` and the other services. The board receives the fetched tasks as a parameter of `Board.BoardHook.CompleteFetch`.
- Authentication is not modelled. The middleware takes "has a session cookie" as a boolean. It reads the cookie `__session`, while the login route sets `session`; which cookie is present is not modelled.
- Network calls are not performed. Their outcome is a parameter: the "log write succeeded" flags of the store, and the `...Failed` / `...Rejected` methods of the classes.
- `Promise.all` in `handleSubmit` is not modelled. The calls form a sequence, and the order in which they finish, or a partial failure, is not modelled.
- Document ids are not random strings. `KanbanStore.AutoId` hands out ids that differ from every id handed out before; nothing depends on their exact form.
- Parsing and formatting of dates is not modelled. The form's due date is the UTC midnight the date input parses to, and `toLocaleDateString` text is not modelled.
- `null` and `undefined` are both `None`.
- `Math.round` on a floating-point ratio is not modelled. `Common.RoundedPercent` rounds the exact ratio half up, so a float that lands just below a half is not modelled.
- `toLowerCase`, `toUpperCase` and `localeCompare` act on ASCII letters only; `trim` covers the full ECMAScript white space. Titles compare by code unit, the default order of `sort`. Locale collation is not modelled.
- The debounce timer of the search box, keyboard listeners, `window.confirm`, the spinner of a card being updated, and all rendering are not modelled. A confirmation is a boolean parameter of `TaskModal.TaskForm.Delete`.
- Mutations carry the task and subtask ids they act on. The user and team ids the source passes along for logging are left out of `TaskModal.Mutation`.
- Localised messages are constant strings.
- TaskModal.SharedRows.constructor: requires the task's subtask ids to be distinct. This holds for database document ids.
- TaskModal.SharedRows.ChangeSubtaskTitle: the edited row is the task's own subtask object, so the board's task shows the new title until the next fetch, saved or not. The model shows this on one object (`TaskModal.SharedRowsExample`), but the board's task list (`Board.BoardHook.tasks`) holds values, so that change of the board's list is not modelled.
- Board.OtherStatusOnNoColumn: a status that names an `Object.prototype` member (such as "constructor" or "toString") is not modelled. The source then finds a function in `base[t.status]` and throws on `.tasks.push` instead of leaving the task out.
- AdminDashboard.StatusLabel: a status that names an `Object.prototype` member is not modelled. The source's lookup finds the inherited function and shows no label instead of "Desconocido".
- AdminDashboard.StatusLabelSpec: the same `Object.prototype` statuses are not modelled, for the same reason.
- MemberDashboard.PriorityToneOf: a priority that names an `Object.prototype` member is not modelled. The source's `map[p]` finds the inherited function and uses it as the class name instead of the muted tone.
- KanbanStore.CreateTaskSpec: the `subtaskTitles` and `tagIds` fields that `createTask` also writes into the task document are not modelled. `TaskDoc` holds the fields the rest of the code reads; the subtasks and tags are stored as their own documents.
- TaskModal.UntouchedFormPlansNothing: needs a due date that is a UTC midnight. Any other due date is rewritten to its day by an untouched save, as `TaskModal.OffMidnightDueDateRewritten` shows.
- KanbanStore.SubtaskCompletionSpec: assumes the caller passes the subtask's own task id, as every caller in the repository does.
- KanbanStore.UpdateSubtaskCompletion: appends a second, "status_change" entry when it completes the task. The code does this, although "one entry per operation" would suggest otherwise; the model follows the code.
- Board.BoardHook.CompleteFetch: a failed fetch sets the error even when a newer fetch has started. The source's catch has no staleness check, and the model follows the code.

## Findings

| source | as written | input that shows it | evidently intended | confidence | as-written member | corrected member |
|---|---|---|---|---|---|---|
| components/kanban-board.tsx:52-78 | `handleDragOver` already gives the dragged card the hovered column's status in `optimisticTasks`; `handleDragEnd` then compares the drop status with that same list, finds no change and never calls `onTaskMove` | drag a "todo" card over the "done" column and drop it there | the drop is compared with the status the task had before the drag, so the move is saved | high, not executed | BoardView.HoverThenDropLosesMove | BoardView.HoverThenDropMoves |
| components/projects/kanban/TaskModal.tsx:93-186 | the same row objects are stored as `subtasks` and `originalSubtasks`, and `handleSubtaskChange` assigns the title on the shared object, so a current row never differs from its original and no retitle is sent | open a task with subtask "a" titled "old", change the title to "new", save | the edited title is saved with `updateSubtaskTitle` | high, not executed | TaskModal.SharedRowsNeverRetitle | TaskModal.EditedTitleRetitled |
