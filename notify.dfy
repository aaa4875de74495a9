/**
 * The completion-notification handler the post-save hook calls: it checks
 * the event's three fields, recognises "completed" in any letter case,
 * builds the notification text and, when a topic is configured, publishes
 * it once. A publish failure is absorbed; the reply is 200 either way.
 */
module Notify {
  import opened Wrappers
  import opened PyValues

  /** The subject of every notification either handler publishes. */
  const Subject := "Task Completed Notification"

  /** One call of the notification channel's `publish`. */
  datatype Publish = Publish(subject: string, message: string)

  /** What the channel did with a publish call. */
  datatype PublishOutcome = Delivered | ChannelError(error: string)

  /** The JSON body of a reply: `{"message": …}` or `{"error": …}`. */
  datatype Body = Message(text: string) | Error(text: string)

  /** A handler's reply, and the publish call it made, if any. */
  datatype Reply = Reply(statusCode: int, body: Body, attempt: Option<Publish>)

  const MissingDetails := "Missing task details (task_id, title, status)."
  const Processed := "Notification processed successfully."
  const NoAction := "No action needed."

  /** The notification text for a task title and id. */
  function CompletionMessage(title: string, id: string): (m: string)
    ensures |m| == |title| + |id| + 44
    ensures m[..6] == "Task '" && m[6..6 + |title|] == title
    ensures m[6 + |title|..13 + |title|] == "' (ID: "
    ensures m[13 + |title|..13 + |title| + |id|] == id
    ensures m[13 + |title| + |id|..] == ") has been marked as completed."
  {
    "Task '" + title + "' (ID: " + id + ") has been marked as completed."
  }

  /** The status field counts as completed when it lowers to "completed". */
  predicate IsCompleted(status: string) {
    Lower(status) == "completed"
  }

  /**
   * `lambda_handler(event)`. `configured` says whether both the SNS client and
   * the topic are set (both follow from the topic variable); `outcome` is what
   * the channel would do with a publish call.
   */
  function Handle(event: map<string, Value>, configured: bool, outcome: PublishOutcome): (r: Reply)
    ensures r.statusCode == 400 <==>
      !(Truthy(Get(event, "task_id")) && Truthy(Get(event, "title")) && Truthy(Get(event, "status")))
    ensures r.statusCode == 400 ==> r.body == Message(MissingDetails)
    ensures r.statusCode == 500 <==> r.statusCode != 400 && !Get(event, "status").VStr?
    ensures r.statusCode == 500 ==> r.body == Error("Internal error: " + NoLowerError(Get(event, "status")))
    ensures r.statusCode == 200 <==>
      r.statusCode != 400 && Get(event, "status").VStr?
    ensures r.statusCode == 200 ==>
      r.body == (if IsCompleted(Get(event, "status").s) then Message(Processed) else Message(NoAction))
    ensures r.attempt.Some? <==> r.statusCode == 200 && configured && IsCompleted(Get(event, "status").s)
    ensures r.attempt.Some? ==>
      r.attempt.value == Publish(Subject, CompletionMessage(Str(Get(event, "title")), Str(Get(event, "task_id"))))
  {
    var taskId, taskTitle, taskStatus := Get(event, "task_id"), Get(event, "title"), Get(event, "status");
    if !(Truthy(taskId) && Truthy(taskTitle) && Truthy(taskStatus)) then
      Reply(400, Message(MissingDetails), None)
    else if !taskStatus.VStr? then
      Reply(500, Error("Internal error: " + NoLowerError(taskStatus)), None)
    else if IsCompleted(taskStatus.s) then
      var message := CompletionMessage(Str(taskTitle), Str(taskId));
      var attempt := if configured then Some(Publish(Subject, message)) else None;
      // a failed publish is logged and swallowed: `outcome` cannot change the reply
      Reply(200, Message(Processed), attempt)
    else
      Reply(200, Message(NoAction), None)
  }

  /** The channel's answer never changes the reply: failures are absorbed. */
  lemma PublishFailureAbsorbed(event: map<string, Value>, configured: bool, o1: PublishOutcome, o2: PublishOutcome)
    ensures Handle(event, configured, o1) == Handle(event, configured, o2)
  {
  }

  /** Publishing happens at most once, always under the fixed subject, and only when configured. */
  lemma AtMostOnePublish(event: map<string, Value>, outcome: PublishOutcome)
    ensures Handle(event, false, outcome).attempt == None
    ensures Handle(event, true, outcome).attempt.Some? ==> Handle(event, true, outcome).attempt.value.subject == Subject
    ensures Handle(event, true, outcome).statusCode == Handle(event, false, outcome).statusCode
  {
  }

  /** "COMPLETED" is handled exactly as "completed". */
  lemma UpperCaseCompleted(id: string, title: string, configured: bool, outcome: PublishOutcome)
    requires id != "" && title != ""
    ensures Handle(map["task_id" := VStr(id), "title" := VStr(title), "status" := VStr("COMPLETED")], configured, outcome)
         == Handle(map["task_id" := VStr(id), "title" := VStr(title), "status" := VStr("completed")], configured, outcome)
  {
  }
}
