/**
 * The stand-alone Lambda variant of the notification handler. It reads the
 * fields `task_id`, `task_name` and `task_status` from the request's JSON
 * body, publishes without checking the configuration, and lets a publish
 * failure through as a 500 reply.
 */
module NotifyVariant {
  import opened Wrappers
  import opened PyValues
  import opened Notify

  /** The result of `json.loads` on the event's body. */
  datatype ParsedBody =
    | Object(fields: map<string, Value>)   // a JSON object
    | NonObject(typeName: string)          // valid JSON that is not an object
    | Malformed(error: string)             // json.loads raised, with this message

  const Sent := "Notification sent successfully."
  const MissingTaskDetails := "Missing task details."

  /** `json.loads(event.get('body', '{}'))`: an absent body reads as the empty object. */
  function BodyOf(body: Option<ParsedBody>): (b: ParsedBody)
    ensures body.None? ==> b == Object(map[])
    ensures body.Some? ==> b == body.value
  {
    body.GetOr(Object(map[]))
  }

  /**
   * `lambda_handler(event, context)`, where `body` is the parsed body (None when
   * the event has no body) and `outcome` is what the channel does with the
   * publish call.
   */
  function HandleVariant(body: Option<ParsedBody>, outcome: PublishOutcome): (r: Reply)
    ensures body.None? ==> r == Reply(400, Message(MissingTaskDetails), None)
    ensures BodyOf(body).Malformed? ==> r == Reply(500, Error(BodyOf(body).error), None)
    ensures BodyOf(body).NonObject? ==>
      r == Reply(500, Error("'" + BodyOf(body).typeName + "' object has no attribute 'get'"), None)
    ensures BodyOf(body).Object? ==>
      var fields := BodyOf(body).fields;
      && (r.statusCode == 400 <==>
            !(Truthy(Get(fields, "task_id")) && Truthy(Get(fields, "task_name")) && Truthy(Get(fields, "task_status"))))
      && (r.statusCode == 400 ==> r == Reply(400, Message(MissingTaskDetails), None))
      && (r.statusCode != 400 && !Get(fields, "task_status").VStr? ==>
            r == Reply(500, Error(NoLowerError(Get(fields, "task_status"))), None))
      && (r.statusCode != 400 && Get(fields, "task_status").VStr? && !IsCompleted(Get(fields, "task_status").s) ==>
            r == Reply(200, Message(NoAction), None))
      && (r.attempt.Some? <==> r.statusCode != 400 && Get(fields, "task_status").VStr? && IsCompleted(Get(fields, "task_status").s))
      && (r.attempt.Some? ==>
            r.attempt.value == Publish(Subject, CompletionMessage(Str(Get(fields, "task_name")), Str(Get(fields, "task_id"))))
            && r == Reply(if outcome.Delivered? then 200 else 500,
                          if outcome.Delivered? then Message(Sent) else Error(outcome.error),
                          r.attempt))
    ensures r.statusCode in {200, 400, 500}
  {
    match BodyOf(body)
    case Malformed(e) => Reply(500, Error(e), None)
    case NonObject(tn) => Reply(500, Error("'" + tn + "' object has no attribute 'get'"), None)
    case Object(taskData) =>
      var taskId, taskName, taskStatus := Get(taskData, "task_id"), Get(taskData, "task_name"), Get(taskData, "task_status");
      if !Truthy(taskId) || !Truthy(taskName) || !Truthy(taskStatus) then
        Reply(400, Message(MissingTaskDetails), None)
      else if !taskStatus.VStr? then
        Reply(500, Error(NoLowerError(taskStatus)), None)
      else if IsCompleted(taskStatus.s) then
        var message := CompletionMessage(Str(taskName), Str(taskId));
        var attempt := Some(Publish(Subject, message));
        match outcome
        case Delivered => Reply(200, Message(Sent), attempt)
        case ChannelError(e) => Reply(500, Error(e), attempt)
      else
        Reply(200, Message(NoAction), None)
  }

  /** The event the module's own local test builds. */
  const SampleFields: map<string, Value> :=
    map["task_id" := VStr("123"), "task_name" := VStr("Complete Report"), "task_status" := VStr("completed")]

  /** The text the sample event's notification carries. */
  lemma SampleMessage()
    ensures CompletionMessage("Complete Report", "123")
         == "Task 'Complete Report' (ID: 123) has been marked as completed."
  {
    assert "Task '" + "Complete Report" == "Task 'Complete Report";
    assert "Task 'Complete Report" + "' (ID: " == "Task 'Complete Report' (ID: ";
    assert "Task 'Complete Report' (ID: " + "123" == "Task 'Complete Report' (ID: 123";
    assert "Task 'Complete Report' (ID: 123" + ") has been marked as completed."
        == "Task 'Complete Report' (ID: 123) has been marked as completed.";
  }

  /** On the sample event a delivered publish carries the expected text and the reply is 200. */
  lemma SampleEvent()
    ensures HandleVariant(Some(Object(SampleFields)), Delivered)
         == Reply(200, Message(Sent),
                  Some(Publish("Task Completed Notification",
                               "Task 'Complete Report' (ID: 123) has been marked as completed.")))
  {
    CompletedInAnyCase("completed");
    assert Get(SampleFields, "task_status") == VStr("completed");
    assert Get(SampleFields, "task_id") == VStr("123");
    assert Get(SampleFields, "task_name") == VStr("Complete Report");
    SampleMessage();
  }

  /**
   * The two handlers compared on the same three fields (the variant's
   * `task_name`/`task_status` are the other's `title`/`status`), with the
   * topic configured: they make the same publish call, and give the same
   * status code except when that call fails, where the variant answers 500
   * and the other still 200.
   */
  lemma HandlersCompared(id: Value, title: Value, status: Value, outcome: PublishOutcome)
    ensures var event := map["task_id" := id, "title" := title, "status" := status];
      var fields := map["task_id" := id, "task_name" := title, "task_status" := status];
      var a := Handle(event, true, outcome);
      var b := HandleVariant(Some(Object(fields)), outcome);
      && a.attempt == b.attempt
      && (a.statusCode == b.statusCode <==> !(a.attempt.Some? && outcome.ChannelError?))
      && (a.attempt.Some? && outcome.ChannelError? ==> a.statusCode == 200 && b.statusCode == 500)
  {
  }
}
