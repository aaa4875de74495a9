/**
 * The post-save receiver `task_completed`: after every save of a Task that
 * was not a creation and whose status is exactly "completed", it builds a
 * three-field event and calls the notification handler once, synchronously.
 */
module Signals {
  import opened Wrappers
  import opened PyValues
  import opened Models
  import Notify

  /** The event dictionary handed to the notification handler. */
  type Event = map<string, Value>

  /** `{"task_id": str(id), "title": title, "status": status}` from the saved row. */
  function CompletionEvent(t: Task): Event {
    map["task_id" := VStr(NatToString(t.id)), "title" := VStr(t.title), "status" := VStr(t.status)]
  }

  /**
   * The guard and the event it emits for one save: `created` is Django's flag
   * for the first save of a row. The comparison with "completed" is case-sensitive.
   */
  function OnPostSave(t: Task, created: bool): (r: Option<Event>)
    ensures r.Some? <==> t.status == "completed" && !created
    ensures r.Some? ==>
      && Get(r.value, "task_id").VStr? && ParseNat(Get(r.value, "task_id").s) == Some(t.id)
      && Get(r.value, "title") == VStr(t.title)
      && Get(r.value, "status") == VStr(Completed)
  {
    if t.status == Completed && !created then
      ParseNatToString(t.id);
      Some(CompletionEvent(t))
    else
      None
  }

  /** The handler calls made by one save: none or exactly one. */
  function HandlerCalls(t: Task, created: bool): (r: seq<Event>)
    ensures |r| <= 1
    ensures |r| == 1 <==> t.status == "completed" && !created
  {
    match OnPostSave(t, created)
    case Some(e) => [e]
    case None => []
  }

  /** A creation never notifies, whatever the initial status. */
  lemma CreationNeverNotifies(t: Task)
    ensures HandlerCalls(t, true) == []
  {
  }

  /**
   * A case variant such as "Completed" does not pass the guard, although the
   * handler itself would treat it as completed.
   */
  lemma GuardIsCaseSensitive(t: Task)
    requires t.status == "Completed" && t.title != ""
    ensures HandlerCalls(t, false) == []
    ensures Notify.Handle(CompletionEvent(t), false, Notify.Delivered).body == Notify.Message(Notify.Processed)
  {
  }

  /**
   * Every event the hook emits for a task with a title reaches the handler's
   * completed branch: the reply is 200 whatever the channel does, and when a
   * topic is configured it publishes the task's title and id once.
   */
  lemma EmittedEventIsProcessed(t: Task, configured: bool, outcome: Notify.PublishOutcome)
    requires t.status == "completed" && t.title != ""
    ensures OnPostSave(t, false).Some?
    ensures Notify.Handle(OnPostSave(t, false).value, configured, outcome)
         == Notify.Reply(200, Notify.Message(Notify.Processed),
                         if configured then Some(Notify.Publish(Notify.Subject, Notify.CompletionMessage(t.title, NatToString(t.id))))
                         else None)
  {
  }
}
