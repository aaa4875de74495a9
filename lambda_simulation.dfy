/**
 * The simulated scheduled Lambda: given an event naming a task, it marks
 * the task "overdue" when its due date has passed and it is not completed.
 *
 * The Task record declares no due date, so as written the attribute access
 * fails for every task that exists (`AsWrittenStatusCode`). `LambdaHandler`
 * models the evident intent, with each task's due date supplied as a map
 * (a missing entry is a task without a due date).
 */
module Simulation {
  import opened Wrappers
  import opened PyValues
  import opened Models
  import opened Store
  import Serializers
  import Notify

  const Overdue := "overdue"

  /** How `Task.objects.get(id=task_id)` reads the event's `task_id`. */
  datatype Lookup =
    | NoId            // missing or falsy: answered 400 before any lookup
    | Key(id: int)    // an integer key (True counts as 1)
    | BadKey          // a string that is not a number: the lookup raises ValueError

  function LookupKey(v: Value): (r: Lookup)
    ensures r.NoId? <==> !Truthy(v)
    ensures r.BadKey? <==> Truthy(v) && v.VStr? && ParseNat(v.s).None?
    ensures v.VStr? && Truthy(v) && ParseNat(v.s).Some? ==> r == Key(ParseNat(v.s).value)
    ensures v.VInt? && v.i != 0 ==> r == Key(v.i)
    ensures v == VBool(true) ==> r == Key(1)
  {
    if !Truthy(v) then NoId
    else match v
      case VInt(i) => Key(i)
      case VBool(_) => Key(1)
      case VStr(s) => (match ParseNat(s) case Some(n) => Key(n) case None => BadKey)
      case VNone => NoId
  }

  /** The row the event names, if it exists. */
  function Target(tasks: map<TaskId, Task>, event: map<string, Value>): (r: Option<TaskId>)
    ensures r.Some? ==> r.value in tasks && LookupKey(Get(event, "task_id")) == Key(r.value)
    ensures r.None? && LookupKey(Get(event, "task_id")).Key? ==>
      var i := LookupKey(Get(event, "task_id")).id; i < 0 || i as TaskId !in tasks
  {
    match LookupKey(Get(event, "task_id"))
    case Key(i) => if 0 <= i && i as TaskId in tasks then Some(i as TaskId) else None
    case _ => None
  }

  /** The overdue rule: a due date exists, lies strictly before now, and the task is not completed. */
  predicate IsOverdue(due: Option<int>, now: int, status: string) {
    due.Some? && due.value < now && status != Completed
  }

  function DueDate(dueDates: map<TaskId, int>, id: TaskId): Option<int> {
    if id in dueDates then Some(dueDates[id]) else None
  }

  /**
   * The status code of the handler as written, against the Task record as
   * declared: every task that is found reaches `task.due_date`, raises
   * AttributeError and is answered 500; nothing is ever written.
   */
  function AsWrittenStatusCode(tasks: map<TaskId, Task>, event: map<string, Value>): (code: int)
    ensures code == 400 <==> !Truthy(Get(event, "task_id"))
    ensures code == 404 <==> LookupKey(Get(event, "task_id")).Key? && Target(tasks, event).None?
    ensures code == 500 <==> code != 400 && code != 404
  {
    match LookupKey(Get(event, "task_id"))
    case NoId => 400
    case BadKey => 500
    case Key(i) =>
      if 0 <= i && i as TaskId in tasks then 500  // AttributeError: 'Task' object has no attribute 'due_date'
      else 404
  }

  /** As written, the handler never succeeds, and fails with 500 on every stored task. */
  lemma AsWrittenNeverSucceeds(tasks: map<TaskId, Task>, event: map<string, Value>, id: TaskId)
    requires 0 < id && id in tasks
    ensures AsWrittenStatusCode(tasks, event) != 200
    ensures AsWrittenStatusCode(tasks, map["task_id" := VInt(id)]) == 500
    ensures AsWrittenStatusCode(tasks, map["task_id" := VStr(NatToString(id))]) == 500
  {
    ParseNatToString(id);
    assert Get(map["task_id" := VInt(id)], "task_id") == VInt(id);
    assert Get(map["task_id" := VStr(NatToString(id))], "task_id") == VStr(NatToString(id));
  }

  /** "overdue" is not one of the status choices: the rule stores a value the serializer rejects. */
  lemma OverdueIsNotAChoice()
    ensures Serializers.ValidateStatus(Overdue).Err?
  {
  }

  /**
   * `lambda_handler(event)` with due dates: 400 for a missing id, 500 for an
   * id that is not a number, 404 for an unknown id, otherwise the overdue
   * rule runs and the answer is 200. Only an overdue task is written (status
   * and `updated_at`); the save's hook emits nothing, since the status is not
   * "completed".
   */
  method LambdaHandler(table: TaskTable, event: map<string, Value>, dueDates: map<TaskId, int>, now: int)
    returns (r: Notify.Reply)
    requires table.Valid()
    modifies table
    ensures table.Valid()
    ensures table.nextId == old(table.nextId) && table.notifications == old(table.notifications)
    ensures !Truthy(Get(event, "task_id")) ==>
      r == Notify.Reply(400, Notify.Error("Task ID is required"), None) && table.tasks == old(table.tasks)
    ensures LookupKey(Get(event, "task_id")).BadKey? ==>
      r == Notify.Reply(500, Notify.Error("Internal server error"), None) && table.tasks == old(table.tasks)
    ensures LookupKey(Get(event, "task_id")).Key? && Target(old(table.tasks), event).None? ==>
      r == Notify.Reply(404, Notify.Error("Task not found"), None) && table.tasks == old(table.tasks)
    ensures Target(old(table.tasks), event).Some? ==>
      var id := Target(old(table.tasks), event).value;
      var t := old(table.tasks)[id];
      && r == Notify.Reply(200, Notify.Message("Task processed successfully"), None)
      && table.tasks == old(table.tasks)[id := if IsOverdue(DueDate(dueDates, id), now, t.status)
                                               then t.(status := Overdue, updatedAt := now)
                                               else t]
    ensures Target(old(table.tasks), event).Some? ==>
      var id := Target(old(table.tasks), event).value;
      old(table.tasks)[id].status == Completed || id !in dueDates || dueDates[id] >= now ==>
        table.tasks == old(table.tasks)
  {
    var taskId := Get(event, "task_id");
    var key := LookupKey(taskId);
    if key.NoId? {
      return Notify.Reply(400, Notify.Error("Task ID is required"), None);
    }
    if key.BadKey? {
      return Notify.Reply(500, Notify.Error("Internal server error"), None);
    }
    var target := Target(table.tasks, event);
    if target.None? {
      return Notify.Reply(404, Notify.Error("Task not found"), None);
    }
    var id := target.value;
    var task := table.tasks[id];
    if IsOverdue(DueDate(dueDates, id), now, task.status) {
      var saved := table.Save(task.(status := Overdue), now);
    }
    r := Notify.Reply(200, Notify.Message("Task processed successfully"), None);
  }
}
