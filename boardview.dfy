/** The drag-and-drop board component (components/kanban-board.tsx): it keeps
    an optimistic copy of the tasks it is given, splits it into the three
    status columns, moves the dragged card while it hovers over a column, and
    on drop asks its parent to persist the move, going back to the given
    tasks if that fails. */
module BoardView {
  import opened Common
  import opened Types

  /** What the pointer is over: a column carries its status in its data; a
      missing or empty status counts as none. */
  datatype Over = Over(status: Option<string>)

  function HoverStatus(over: Over): Option<string> {
    if over.status.Some? && over.status.value != "" then over.status else None
  }

  /** A call of `onTaskMove(taskId, newStatus)`. */
  datatype Move = Move(taskId: string, newStatus: string)

  /** `tasksByStatus`: the tasks of one status, in list order. */
  function Bucket(tasks: seq<Task>, s: string): seq<Task> {
    Filter(tasks, (t: Task) => t.status == s)
  }

  /** A task is in the bucket of its own status and in no other; a task
      whose status is none of the three is in none of the buckets. */
  lemma BucketSpec(tasks: seq<Task>, s: string, t: Task)
    ensures t in Bucket(tasks, s) <==> t in tasks && t.status == s
    ensures !IsBoardStatus(t.status) ==>
      t !in Bucket(tasks, TodoStatus) && t !in Bucket(tasks, InProgressStatus) && t !in Bucket(tasks, DoneStatus)
  {
    FilterMembership(tasks, (t: Task) => t.status == s, t);
    FilterMembership(tasks, (t: Task) => t.status == TodoStatus, t);
    FilterMembership(tasks, (t: Task) => t.status == InProgressStatus, t);
    FilterMembership(tasks, (t: Task) => t.status == DoneStatus, t);
  }

  /** `handleDragOver`: over a column whose status differs from the dragged
      task's, every task with the dragged id takes that status. */
  function DragOverResult(tasks: seq<Task>, activeId: string, over: Option<Over>): seq<Task> {
    if over.None? then tasks
    else
      match FindTask(tasks, activeId)
      case None => tasks
      case Some(active) =>
        var s := HoverStatus(over.value);
        if s.Some? && active.status != s.value then WithStatus(tasks, activeId, s.value) else tasks
  }

  /** Hovering changes nothing but the status of the dragged task, and only
      when the hovered column has a status other than the task's. */
  lemma DragOverSpec(tasks: seq<Task>, activeId: string, over: Option<Over>)
    ensures |DragOverResult(tasks, activeId, over)| == |tasks|
    ensures forall i :: 0 <= i < |tasks| && tasks[i].id != activeId ==> DragOverResult(tasks, activeId, over)[i] == tasks[i]
    ensures forall i :: 0 <= i < |tasks| ==> DragOverResult(tasks, activeId, over)[i].(status := tasks[i].status) == tasks[i]
    ensures DragOverResult(tasks, activeId, over) != tasks ==>
      over.Some? && HoverStatus(over.value).Some? &&
      (exists t :: t in tasks && t.id == activeId && t.status != HoverStatus(over.value).value)
  {
  }

  /** `handleDragEnd` as written: the drop status (the column's, or else the
      task's own) is compared with the task's status in the optimistic list. */
  function MoveOnDropAsWritten(optimistic: seq<Task>, activeId: string, over: Option<Over>): (m: Option<Move>)
    ensures over.None? || FindTask(optimistic, activeId).None? ==> m == None
    ensures over.Some? && FindTask(optimistic, activeId).Some? ==>
      var drop := HoverStatus(over.value).GetOr(FindTask(optimistic, activeId).value.status);
      (m.Some? <==> drop != FindTask(optimistic, activeId).value.status) &&
      (m.Some? ==> m.value == Move(activeId, drop))
  {
    if over.None? then None
    else
      match FindTask(optimistic, activeId)
      case None => None
      case Some(active) =>
        var newStatus := HoverStatus(over.value).GetOr(active.status);
        if newStatus != active.status then Some(Move(active.id, newStatus)) else None
  }

  /** A drag always passes over the column it ends on, and hovering has
      already given the card that column's status; so the as-written drop
      never asks for the move, and the card's new column is never saved. */
  lemma HoverThenDropLosesMove(tasks: seq<Task>, activeId: string, over: Over)
    ensures MoveOnDropAsWritten(DragOverResult(tasks, activeId, Some(over)), activeId, Some(over)) == None
  {
    var hovered := DragOverResult(tasks, activeId, Some(over));
    match FindTask(tasks, activeId)
    case None =>
    case Some(active) =>
      var s := HoverStatus(over);
      if s.Some? && active.status != s.value {
        var moved := FindTask(hovered, activeId);
        assert moved.Some?;
        var k :| 0 <= k < |hovered| && hovered[k] == moved.value;
        assert hovered[k].status == s.value;
      }
  }

  /** The drop with the comparison made against the status the task has in
      the given (saved) tasks, the status it had before the drag began. */
  function MoveOnDrop(saved: seq<Task>, optimistic: seq<Task>, activeId: string, over: Option<Over>): (m: Option<Move>)
    ensures over.None? || FindTask(optimistic, activeId).None? ==> m == None
    ensures over.Some? && FindTask(optimistic, activeId).Some? ==>
      var active := FindTask(optimistic, activeId).value;
      var drop := HoverStatus(over.value).GetOr(active.status);
      (m.Some? <==> drop != FindTask(saved, activeId).GetOr(active).status) &&
      (m.Some? ==> m.value == Move(activeId, drop))
  {
    if over.None? then None
    else
      match FindTask(optimistic, activeId)
      case None => None
      case Some(active) =>
        var before := FindTask(saved, activeId).GetOr(active).status;
        var newStatus := HoverStatus(over.value).GetOr(active.status);
        if newStatus != before then Some(Move(active.id, newStatus)) else None
  }

  /** Dragging a saved task over another column and dropping it there asks
      for exactly that move; dropping it back on its own column asks for
      nothing. */
  lemma HoverThenDropMoves(tasks: seq<Task>, activeId: string, over: Over, t: Task)
    requires FindTask(tasks, activeId) == Some(t)
    requires HoverStatus(over).Some?
    ensures HoverStatus(over).value != t.status ==>
      MoveOnDrop(tasks, DragOverResult(tasks, activeId, Some(over)), activeId, Some(over)) ==
        Some(Move(activeId, HoverStatus(over).value))
    ensures HoverStatus(over).value == t.status ==>
      MoveOnDrop(tasks, DragOverResult(tasks, activeId, Some(over)), activeId, Some(over)) == None
  {
    var hovered := DragOverResult(tasks, activeId, Some(over));
    var moved := FindTask(hovered, activeId);
    assert t in tasks;
    var k :| 0 <= k < |tasks| && tasks[k] == t;
    assert hovered[k].id == activeId;
    assert moved.Some?;
  }

  /** The component's state: the tasks it was given, its optimistic copy and
      the card being dragged. */
  class KanbanBoard {
    var tasks: seq<Task>
    var optimisticTasks: seq<Task>
    var activeId: Option<string>

    constructor (given: seq<Task>)
      ensures tasks == given && optimisticTasks == given && activeId == None
    {
      tasks, optimisticTasks, activeId := given, given, None;
    }

    /** A new `tasks` prop replaces the optimistic copy. */
    method Receive(given: seq<Task>)
      modifies this
      ensures tasks == given && optimisticTasks == given && activeId == old(activeId)
    {
      tasks, optimisticTasks := given, given;
    }

    method DragStart(id: string)
      modifies this
      ensures activeId == Some(id)
      ensures tasks == old(tasks) && optimisticTasks == old(optimisticTasks)
    {
      activeId := Some(id);
    }

    method DragOver(id: string, over: Option<Over>)
      modifies this
      ensures optimisticTasks == DragOverResult(old(optimisticTasks), id, over)
      ensures tasks == old(tasks) && activeId == old(activeId)
    {
      optimisticTasks := DragOverResult(optimisticTasks, id, over);
    }

    /** `handleDragEnd`: the dragged card is released, and the move to
        persist, if any, is returned; the drop status is compared with the
        card's status in the optimistic copy, as the component does. */
    method DragEnd(id: string, over: Option<Over>) returns (move: Option<Move>)
      modifies this
      ensures activeId == None
      ensures tasks == old(tasks) && optimisticTasks == old(optimisticTasks)
      ensures move == MoveOnDropAsWritten(optimisticTasks, id, over)
    {
      activeId := None;
      move := MoveOnDropAsWritten(optimisticTasks, id, over);
    }

    /** The drop as evidently intended: the drop status is compared with the
        card's status in the given (saved) tasks. */
    method DragEndAgainstSaved(id: string, over: Option<Over>) returns (move: Option<Move>)
      modifies this
      ensures activeId == None
      ensures tasks == old(tasks) && optimisticTasks == old(optimisticTasks)
      ensures move == MoveOnDrop(tasks, optimisticTasks, id, over)
    {
      activeId := None;
      move := MoveOnDrop(tasks, optimisticTasks, id, over);
    }

    /** `onTaskMove` rejected: the optimistic copy goes back to the given
        tasks. */
    method MoveRejected()
      modifies this
      ensures optimisticTasks == tasks
      ensures tasks == old(tasks) && activeId == old(activeId)
    {
      optimisticTasks := tasks;
    }
  }

  /** A whole drag of a card onto another column, start to drop, as the
      component is written: the card shows in the new column, but the drop
      asks for no move, so nothing is saved. */
  method DragAcross(board: KanbanBoard, id: string, over: Over) returns (move: Option<Move>)
    modifies board
    ensures move == None
    ensures board.optimisticTasks == DragOverResult(old(board.optimisticTasks), id, Some(over))
    ensures board.tasks == old(board.tasks) && board.activeId == None
  {
    board.DragStart(id);
    board.DragOver(id, Some(over));
    move := board.DragEnd(id, Some(over));
    HoverThenDropLosesMove(old(board.optimisticTasks), id, over);
  }

  /** The same drag of a saved card with the intended drop: it asks for
      exactly that move and leaves the given tasks alone. */
  method DragAcrossAgainstSaved(board: KanbanBoard, id: string, over: Over) returns (move: Option<Move>)
    requires board.optimisticTasks == board.tasks
    requires FindTask(board.tasks, id).Some? && HoverStatus(over).Some?
    requires HoverStatus(over).value != FindTask(board.tasks, id).value.status
    modifies board
    ensures move == Some(Move(id, HoverStatus(over).value))
    ensures board.tasks == old(board.tasks) && board.activeId == None
  {
    board.DragStart(id);
    board.DragOver(id, Some(over));
    move := board.DragEndAgainstSaved(id, Some(over));
    HoverThenDropMoves(board.tasks, id, over, FindTask(board.tasks, id).value);
  }
}
