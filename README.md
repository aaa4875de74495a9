# Task tracker core, modelled in Dafny

This project models the logic at the centre of a small Django/DRF task-tracking API:

- the task table and its owner-scoped REST actions (list, create, retrieve, partial update, destroy, `mark_completed`, and the `rate_limited_tasks` listing);
- the serializer's field rules and `validate_status`;
- the post-save hook that emits a completion event;
- the two completion-notification Lambda handlers;
- the simulated Lambda that marks tasks overdue.

Every action answers with an HTTP status code (200, 201, 204, 400, 404 or 500). The proofs cover several things: scoping; "nothing else changes"; the validation rules; the fixed message format; and how each handler treats a publish failure.

Modules, one per source file, plus two shared helpers:

| module | file | models |
|---|---|---|
| `Wrappers` | wrappers.dfy | `Option`, `Result` |
| `PyValues` | py_values.dfy | Python scalars as a decoded event holds them: truthiness, `str()`, `str.lower()`, `int()` on digits |
| `Models` | models.dfy | `tasks/models.py`: the `Task` record, status choices, limits, `__str__`, ordering |
| `Serializers` | serializers.dfy | `tasks/serializers.py`: `validate_status`, `is_valid()` on a body, `save()` on create and update, `serializer.data` |
| `Notify` | notify.dfy | `tasks/lambda_function.py` |
| `NotifyVariant` | notify_variant.dfy | `lambda_function/lambda_function.py` |
| `Signals` | signals.dfy | `tasks/signals.py` |
| `Store` | store.dfy | the table behind `Task.objects`: auto-increment key, `auto_now_add`/`auto_now`, the post-save hook after each save |
| `Views` | views.dfy | `tasks/views.py` |
| `Simulation` | lambda_simulation.dfy | `tasks/lambda_simulation.py` |

Modelling choices:

- **Task table.** The table is a class, `Store.TaskTable`, with these fields:
  - a `map` from id to `Task`;
  - the next key;
  - the user table (id to username);
  - `notifications`, the log of every event the post-save hook passed to the notification handler.

  The view actions and the overdue handler are methods that change the table. Each states the whole new table in terms of the old one. The parts that only compute are functions with lemmas beside them: the scoped set, validation, serialization, the hook's guard and both handlers.
- **Listing.** A listing is a sequence of keys. As a multiset it equals the scoped set, so it holds each scoped task exactly once (`Views.ListingIsExact`). It is ordered newest `created_at` first. Ties are left in any order, as the database leaves them.
- **Publishing.** The SNS `publish` call is a parameter, `PublishOutcome` (`Delivered` or `ChannelError(text)`). `Notify.Handle` also takes a `configured` flag. A reply records the publish call it made, if any.
- **Timestamps.** Timestamps are integers, and the clock is a `now` parameter.
- **Decoded events.** A decoded event is a `map<string, Value>`. The variant handler receives its `body` already parsed, or None when the event has none.

Two behaviours of the code that a reader might not expect:

- **Notification on every save.** The hook notifies on every save of an existing task whose status is exactly "completed", whatever the status was before. So repeating `mark_completed` notifies again (`Views.RepeatMarkCompleted`).
- **Publish failures.** `lambda_function/lambda_function.py` surfaces a publish failure as a 500 reply; `tasks/lambda_function.py` absorbs it and still answers 200 (`NotifyVariant.HandlersCompared`).

Other observations about the code:

- **404 replies.** `get_object()` raises `Http404`, not `ObjectDoesNotExist`. So the views' `except ObjectDoesNotExist` branches never run, and a task outside the caller's scope gets DRF's default 404 reply. The model answers `Response(404, NotFound)` without committing to the body's text.
- **Hook wiring.** `tasks/apps.py` never imports `tasks/signals.py`: `TasksConfig` has no `ready()`, and `MyAppConfig` imports a module `myapp.signals`. So whether the post-save hook is registered at all is not settled by the code shown. The model runs the hook explicitly after every save.
- **Status lookups.** `get_object()` goes through `get_queryset()`. So a `status` query parameter also narrows retrieve, update, destroy and `mark_completed`: a task whose status differs answers 404. The model keeps this.
- **Status errors.** `status` is a choice field. DRF's choice check rejects a value outside `STATUS_CHOICES` before `validate_status` runs, with its own message. Both reject exactly the same values, and the answer is 400 either way. `Serializers.ValidateStatus` models the method itself, message included.
- **Overdue status.** The overdue rule stores "overdue", which is not one of the choices (`Simulation.OverdueIsNotAChoice`). A task in that state no longer survives its own serialized form being sent back as an update (`Serializers.SerializeRoundTrip` needs the status to be a choice).

## Model

| member | source | states |
|---|---|---|
| `Models.ChoiceKeysAre` | tasks/models.py:5-8 | the recognised statuses are exactly "pending" and "completed", in that order |
| `Models.ChoicesFitColumn` | tasks/models.py:12-16 | every recognised status is non-empty and fits the 20-character status column |
| `Models.Display` | tasks/models.py:34-35 | the display string is the title, then " (", the status, then ")"; its length is their total plus 3 |
| `Serializers.ValidateStatus` | tasks/serializers.py:33-37 | a status is accepted iff it is "pending" or "completed", and then returned unchanged; any other value gets the error listing `['pending', 'completed']` |
| `Serializers.RejectedStatuses` | tasks/serializers.py:33-37 | "overdue", "Completed", "PENDING" and "" are rejected |
| `Serializers.Validate` | tasks/serializers.py:10-37 | a body is valid iff the title is present (unless partial), non-blank, at most 255 characters and free of NUL characters, any description given is free of NUL characters, any status given is a choice, and any non-null `assigned_to_id` names an existing user; valid data passes the writable fields through unchanged; errors name only writable fields, and each of "title", "description", "status" and "assigned_to_id" is among them iff that field's check fails; surrounding whitespace is not trimmed (see Left out) |
| `Serializers.ReadOnlyFieldsIgnored` | tasks/serializers.py:11-31 | `id`, `assigned_to`, `created_at` and `updated_at` in a request body never change the validation outcome |
| `Serializers.NewTask` | tasks/views.py:33-34 | a created task is owned by the requesting user whatever `assigned_to_id` said; its status defaults to "pending"; title and description are the supplied ones (an absent description is null); both timestamps are the save time |
| `Serializers.ApplyChanges` | tasks/views.py:52-54 | a partial update gives each supplied field its new value and keeps every field not supplied; id and both timestamps are kept |
| `Serializers.ApplyChangesIdempotent` | tasks/views.py:52-54 | applying the same validated update twice equals applying it once |
| `Serializers.Serialize` | tasks/serializers.py:11-30 | the output has exactly the declared fields; the nested owner and `assigned_to_id` are both null or name the same user, and the nested owner carries that user's username; `id`, `title`, `description` (null when absent), `status`, `created_at` and `updated_at` are the task's own values |
| `Serializers.EightFields` | tasks/serializers.py:21-30 | the output has eight fields under eight distinct keys |
| `Serializers.SerializeRoundTrip` | tasks/serializers.py:10-37 | sending a task's serialized form back as a partial update is valid and writes back the same task, when its title and description are valid (the title non-blank and at most 255 characters, neither holding a NUL character) and its status is a choice |
| `PyValues.ParseNatToString` | tasks/signals.py:9 | reading back `str(id)` as an integer gives the id |
| `PyValues.CompletedInAnyCase` | tasks/lambda_function.py:25 | a status lowers to "completed" iff it has 9 characters, each the lower- or upper-case letter of "completed" |
| `Notify.CompletionMessage` | tasks/lambda_function.py:26 | the message is `Task '<title>' (ID: <id>) has been marked as completed.`: title and id sit at fixed offsets, with the fixed text before, between and after them |
| `Notify.Handle` | tasks/lambda_function.py:12-54 | 400 with the missing-details message iff a field is missing or falsy; 500 "Internal error: …" iff the status is not a string; otherwise 200: "Notification processed successfully." for a case-insensitive "completed", "No action needed." for other statuses; a publish with the fixed subject and the message is made iff the status is completed and the topic is configured |
| `Notify.PublishFailureAbsorbed` | tasks/lambda_function.py:28-41 | the reply is the same whether the publish succeeds or fails |
| `Notify.AtMostOnePublish` | tasks/lambda_function.py:28-35 | without configuration nothing is published; any publish has subject "Task Completed Notification"; configuration never changes the status code |
| `Notify.UpperCaseCompleted` | tasks/lambda_function.py:25 | an event with status "COMPLETED" is handled exactly as one with "completed" |
| `NotifyVariant.BodyOf` | lambda_function/lambda_function.py:18 | an absent body is read as the empty object; a present body is read as itself, so a malformed or non-object body reaches the handler's error replies |
| `NotifyVariant.HandleVariant` | lambda_function/lambda_function.py:12-42 | fields come from `task_id`, `task_name`, `task_status`; an absent body or a missing/falsy field gives 400 "Missing task details."; a malformed or non-object body gives 500 with the error text; a non-string status gives 500 with the `lower()` error text; a string status other than completed gives 200 "No action needed." with no publish; a completed status always publishes, then answers 200 "Notification sent successfully." if delivered and 500 with the channel's error text if not |
| `NotifyVariant.SampleMessage` | lambda_function/lambda_function.py:28 | for the sample task the message is `Task 'Complete Report' (ID: 123) has been marked as completed.` |
| `NotifyVariant.SampleEvent` | lambda_function/lambda_function.py:45-53 | the sample event, delivered, yields 200 and exactly that publish |
| `NotifyVariant.HandlersCompared` | lambda_function/lambda_function.py:27-42 | on the same fields with a configured topic, both handlers make the same publish call; their status codes differ iff that publish fails, when the variant answers 500 and the other 200 |
| `Signals.OnPostSave` | tasks/signals.py:6-10 | an event is emitted iff the save is not a creation and the status is exactly "completed"; its `task_id` reads back as the task's id, and title and status are the saved ones |
| `Signals.HandlerCalls` | tasks/signals.py:7-10 | each save makes at most one handler call, and exactly one iff the guard holds |
| `Signals.CreationNeverNotifies` | tasks/signals.py:8 | creating a task never calls the handler, even with status "completed" |
| `Signals.GuardIsCaseSensitive` | tasks/signals.py:8 | a task saved with status "Completed" emits nothing, though the handler would treat that status as completed |
| `Signals.EmittedEventIsProcessed` | tasks/signals.py:9-10 | every emitted event for a titled task gets 200 "Notification processed successfully." whatever the channel does, and a publish of that task's title and id when configured |
| `Store.TaskTable.constructor` | tasks/models.py:4-25 | a new table is empty, with next key 1 and no notifications |
| `Store.TaskTable.Insert` | tasks/models.py:15-18 | a new row takes the next key, which was unused; both timestamps are the save time; status defaults to "pending"; nothing else changes and the hook calls nothing |
| `Store.TaskTable.Save` | tasks/models.py:18 | a save stamps `updated_at`, replaces only that row, and appends the hook's handler calls for it |
| `Store.TaskTable.Delete` | tasks/views.py:66 | deleting removes exactly that row |
| `Views.InsertNewestFirst` | tasks/models.py:32 | inserting into a newest-first listing keeps it newest-first and adds exactly that key |
| `Views.GetQueryset` | tasks/views.py:24-29 | the result is, as a multiset, exactly the keys of the caller's tasks, narrowed to the `status` parameter when it is non-empty, listed newest `created_at` first |
| `Views.ListingIsExact` | tasks/views.py:24-29 | such a listing holds every scoped key, nothing else, and no key twice |
| `Views.ListingIsScoped` | tasks/views.py:24-29 | every listed task is the caller's and has the requested status; every such task is listed |
| `Views.EmptyStatusFiltersNothing` | tasks/views.py:26-28 | an empty `status` parameter selects the same tasks as none |
| `Views.SerializeAll` | tasks/views.py:89 | the listing's body serializes each listed task, in listing order |
| `Views.List` | tasks/views.py:24-29 | listing answers 200 with the scoped set, exact and newest first |
| `Views.RateLimitedTasks` | tasks/views.py:85-91 | answers 200 with every task the caller owns, each once, newest first, with no status filter |
| `Views.Retrieve` | tasks/views.py:40-47 | 200 with the serialized task iff it is in the caller's scoped set, else 404 |
| `Views.Create` | tasks/views.py:31-38 | a valid body adds exactly one task under a fresh key, owned by the caller, and answers 201 with it, advancing the next key by one; an invalid body answers 400 with the failing fields and changes nothing; no notification either way |
| `Views.Update` | tasks/views.py:49-61 | outside the scoped set: 404, no change; invalid body: 400, no change; otherwise only the supplied fields and `updated_at` change, the hook runs, and the answer is 200 with the saved task |
| `Views.Destroy` | tasks/views.py:63-71 | a scoped task is removed with 204 and every other task is untouched; otherwise 404 and no change |
| `Views.MarkCompleted` | tasks/views.py:73-83 | a scoped task gets status "completed" and a new `updated_at`, nothing else; one completion event is logged; the answer is 200 "Task marked as completed"; otherwise 404 and no change |
| `Views.RepeatMarkCompleted` | tasks/views.py:73-80 | marking twice at the same clock leaves the table as one call does, answers 200 both times, and logs two identical events |
| `Views.ReassignLeavesScope` | tasks/views.py:49-56 | an update that assigns the task to another user takes it out of the caller's scoped set |
| `Simulation.LookupKey` | tasks/lambda_simulation.py:28-34 | a falsy `task_id` is "missing"; a non-numeric string cannot be looked up; a numeric string looks up its value; a non-zero integer looks up itself (a negative one then finds no row); `True` looks up key 1 |
| `Simulation.Target` | tasks/lambda_simulation.py:34 | the named row, when the key is a stored id |
| `Simulation.AsWrittenStatusCode` | tasks/lambda_simulation.py:26-50 | as written: 400 iff the id is missing, 404 iff a key names no row, and 500 otherwise |
| `Simulation.AsWrittenNeverSucceeds` | tasks/lambda_simulation.py:37 | as written, no event gets 200, and an event naming a stored task gets 500 |
| `Simulation.OverdueIsNotAChoice` | tasks/lambda_simulation.py:38 | the status the rule writes, "overdue", is rejected by `validate_status` |
| `Simulation.LambdaHandler` | tasks/lambda_simulation.py:26-50 | 400 "Task ID is required" for a missing id, 500 for a non-numeric one, 404 for an unknown one, each with no change; otherwise 200 "Task processed successfully"; status becomes "overdue" (and `updated_at` the save time) iff a due date exists, is strictly before now, and the status is not "completed"; a completed task or one due now or later is never written; no notification |

## Findings

| source | as written | input that shows it | evidently intended | confidence | as-written member | corrected member |
|---|---|---|---|---|---|---|
| tasks/lambda_simulation.py:37 | reads `task.due_date`, a field the Task model (tasks/models.py:10-25) does not declare; the AttributeError is caught and answered 500 | event `{"task_id": 1}` with task 1 stored | tasks carry an optional due date and the overdue rule runs, answering 200 | high; not executed | `Simulation.AsWrittenNeverSucceeds` | `Simulation.LambdaHandler` |

## Left out

- Rate limiting: `TaskRateThrottle` is DRF's `UserRateThrottle` ("5/min"), backed by Django's cache. Neither is part of this model, so 429 answers are not modelled.
- Authentication (JWT, `IsAuthenticated`): the requesting user is a parameter and is taken to be an existing, authenticated user.
- Logging calls, `json.dumps` rendering of bodies, DRF response rendering: bodies are datatypes.
- boto3 client construction and environment variables:
  - In `Notify`, the client and topic appear only as the `configured` flag.
  - In `NotifyVariant`, the client always exists and a missing topic makes the publish call fail. That failure is one `ChannelError` outcome.
- `json.loads`: its result is given as a `ParsedBody`.
- Event values that are lists or dictionaries: only strings, integers, booleans and None are modelled.
- PyValues.Lower: folds only the ASCII letters A–Z, not the rest of Python's Unicode case mapping. For example, U+212A KELVIN SIGN, which Python lowers to "k", is left unchanged.
- PyValues.ParseNat: accepts only plain decimal digits, not the signs, surrounding whitespace, underscores and non-ASCII decimal digits (such as Arabic-Indic digits) that Python's `int()` also accepts. Such ids answer 500 in the model.
- Date-time fields: timestamps are integers, and time zones are ignored.
- Serializers.Validate: does not model DRF's `CharField` whitespace trimming of `title` and `description`. DRF strips surrounding whitespace before storing, so a description "  x  " is stored as "x" and a title of only spaces is rejected as blank; the model passes both texts through unchanged.
- Unknown body keys (ignored by DRF) and type errors in a body: the model's body is a typed record.
- Owner deletion and its `on_delete=CASCADE` removal of tasks: the user table is fixed.
- Rows inserted outside the viewset (as the tests do with `Task.objects.create`): the table is written only through the modelled operations, which keep every row valid.
- The notification handler's reply inside the post-save hook: the hook discards it, so the table logs only the events. `Signals.EmittedEventIsProcessed` states what the handler answers to them.
- Concurrency, transactions and database indexes.
- `tasks/auto_scaling.py` (an endless polling loop with sleeps), `tasks/admin.py`, `tasks/urls.py` and `tasks/apps.py` (configuration): not part of this model. `tasks/tests.py` was used only as evidence for the properties above.
