/**
 * TaskViewSet and `rate_limited_tasks` as operations on a task table for one
 * authenticated user. Every lookup goes through the user's scoped set
 * (`get_queryset`): the tasks they own, narrowed by a non-empty `status`
 * query parameter. Each operation answers with an HTTP status code.
 */
module Views {
  import opened Wrappers
  import opened Models
  import opened Serializers
  import opened Signals
  import opened Store

  /** A response body: serialized data, field errors, or a fixed message. */
  datatype ResponseBody =
    | TaskData(data: map<Field, Json>)
    | TaskList(items: seq<map<Field, Json>>)
    | ValidationErrors(fields: set<string>)
    | NotFound
    | Detail(message: string)
    | NoContent

  datatype Response = Response(code: int, body: ResponseBody)

  // ---- get_queryset ----

  /**
   * Whether `t` is in the user's scoped set: owned by the user and, when
   * the `status` parameter is present and non-empty, having that status.
   */
  predicate InScope(t: Task, user: UserId, statusParam: Option<string>) {
    && t.assignedTo == Some(user)
    && (statusParam.None? || statusParam.value == "" || t.status == statusParam.value)
  }

  /** The keys of the user's scoped set. */
  function Scope(tasks: map<TaskId, Task>, user: UserId, statusParam: Option<string>): set<TaskId> {
    set id | id in tasks && InScope(tasks[id], user, statusParam)
  }

  /** `ids` names rows of `tasks`, newest `created_at` first. */
  predicate NewestFirst(ids: seq<TaskId>, tasks: map<TaskId, Task>) {
    && (forall i :: 0 <= i < |ids| ==> ids[i] in tasks)
    && (forall i, j :: 0 <= i < j < |ids| ==> ListedBefore(tasks[ids[i]], tasks[ids[j]]))
  }

  /** Puts `k` into a newest-first listing at its place. */
  function InsertNewestFirst(k: TaskId, ids: seq<TaskId>, tasks: map<TaskId, Task>): (r: seq<TaskId>)
    requires k in tasks && NewestFirst(ids, tasks)
    ensures multiset(r) == multiset(ids) + multiset{k}
    ensures NewestFirst(r, tasks)
    decreases |ids|
  {
    if ids == [] || ListedBefore(tasks[k], tasks[ids[0]]) then
      [k] + ids
    else
      var rest := InsertNewestFirst(k, ids[1..], tasks);
      assert ids == [ids[0]] + ids[1..];
      assert forall j :: 0 <= j < |rest| ==> ListedBefore(tasks[ids[0]], tasks[rest[j]]) by {
        forall j | 0 <= j < |rest| ensures ListedBefore(tasks[ids[0]], tasks[rest[j]]) {
          assert rest[j] in multiset(rest);
          if rest[j] != k {
            assert rest[j] in multiset(ids[1..]);
            var m :| 0 <= m < |ids[1..]| && ids[1..][m] == rest[j];
            assert ids[m + 1] == rest[j];
          }
        }
      }
      [ids[0]] + rest
  }

  /**
   * `get_queryset()`: the keys of the user's scoped set, each once, newest
   * first.
   */
  method GetQueryset(tasks: map<TaskId, Task>, user: UserId, statusParam: Option<string>) returns (ids: seq<TaskId>)
    ensures multiset(ids) == multiset(Scope(tasks, user, statusParam))
    ensures NewestFirst(ids, tasks)
  {
    var scope := Scope(tasks, user, statusParam);
    ids := [];
    var rest := tasks.Keys;
    while rest != {}
      invariant rest <= tasks.Keys
      invariant multiset(ids) == multiset(scope - rest)
      invariant NewestFirst(ids, tasks)
      decreases |rest|
    {
      var k :| k in rest;
      if InScope(tasks[k], user, statusParam) {
        assert scope - (rest - {k}) == (scope - rest) + {k};
        assert k !in scope - rest;
        ids := InsertNewestFirst(k, ids, tasks);
      } else {
        assert scope - (rest - {k}) == scope - rest;
      }
      rest := rest - {k};
    }
  }

  lemma CountOfPair(ids: seq<TaskId>, i: nat, j: nat)
    requires i < j < |ids|
    ensures ids[i] == ids[j] ==> multiset(ids)[ids[i]] >= 2
  {
    assert ids == ids[..j] + ids[j..];
    assert ids[..j][i] == ids[i] && ids[j..][0] == ids[j];
    assert multiset(ids) == multiset(ids[..j]) + multiset(ids[j..]);
  }

  /**
   * A listing that is, as a multiset, exactly a set of keys lists every key
   * of the set, nothing else, and no key twice.
   */
  lemma ListingIsExact(ids: seq<TaskId>, s: set<TaskId>)
    requires multiset(ids) == multiset(s)
    ensures forall x :: x in ids <==> x in s
    ensures forall i, j :: 0 <= i < j < |ids| ==> ids[i] != ids[j]
  {
    forall i, j | 0 <= i < j < |ids| ensures ids[i] != ids[j] {
      CountOfPair(ids, i, j);
    }
    forall x ensures x in ids <==> x in s {
      assert x in ids <==> x in multiset(ids);
    }
  }

  /** Every listed task belongs to the user, and has the requested status when one was given. */
  lemma ListingIsScoped(tasks: map<TaskId, Task>, user: UserId, statusParam: Option<string>, ids: seq<TaskId>)
    requires multiset(ids) == multiset(Scope(tasks, user, statusParam))
    ensures forall i :: 0 <= i < |ids| ==> ids[i] in tasks && tasks[ids[i]].assignedTo == Some(user)
    ensures statusParam.Some? && statusParam.value != "" ==>
      forall i :: 0 <= i < |ids| ==> tasks[ids[i]].status == statusParam.value
    ensures forall id :: id in tasks && InScope(tasks[id], user, statusParam) ==> id in ids
  {
    var scope := Scope(tasks, user, statusParam);
    ListingIsExact(ids, scope);
    forall i | 0 <= i < |ids| ensures ids[i] in scope {
      assert ids[i] in ids;
    }
  }

  /** An empty `status` parameter filters nothing: it lists what no parameter lists. */
  lemma EmptyStatusFiltersNothing(tasks: map<TaskId, Task>, user: UserId)
    ensures Scope(tasks, user, Some("")) == Scope(tasks, user, None)
  {
  }

  /** The serialized rows of a listing. */
  function SerializeAll(ids: seq<TaskId>, tasks: map<TaskId, Task>, usernames: map<UserId, string>): (r: seq<map<Field, Json>>)
    requires forall i :: 0 <= i < |ids| ==> ids[i] in tasks
    requires forall id :: id in tasks && tasks[id].assignedTo.Some? ==> tasks[id].assignedTo.value in usernames
    ensures |r| == |ids|
    ensures forall i :: 0 <= i < |ids| ==> r[i] == Serialize(tasks[ids[i]], usernames)
  {
    seq(|ids|, i requires 0 <= i < |ids| => Serialize(tasks[ids[i]], usernames))
  }

  // ---- the viewset's actions ----

  /** `list`: 200 with the scoped set, newest first. */
  method List(table: TaskTable, user: UserId, statusParam: Option<string>) returns (resp: Response, ids: seq<TaskId>)
    requires table.Valid()
    ensures multiset(ids) == multiset(Scope(table.tasks, user, statusParam))
    ensures NewestFirst(ids, table.tasks)
    ensures resp == Response(200, TaskList(SerializeAll(ids, table.tasks, table.usernames)))
  {
    ids := GetQueryset(table.tasks, user, statusParam);
    resp := Response(200, TaskList(SerializeAll(ids, table.tasks, table.usernames)));
  }

  /**
   * `rate_limited_tasks`: 200 with every task the user owns, in the model's
   * default order; no status filter applies. (The throttle is not modelled.)
   */
  method RateLimitedTasks(table: TaskTable, user: UserId) returns (resp: Response, ids: seq<TaskId>)
    requires table.Valid()
    ensures forall x :: x in ids <==> x in table.tasks && table.tasks[x].assignedTo == Some(user)
    ensures forall i, j :: 0 <= i < j < |ids| ==> ids[i] != ids[j]
    ensures NewestFirst(ids, table.tasks)
    ensures resp == Response(200, TaskList(SerializeAll(ids, table.tasks, table.usernames)))
  {
    ids := GetQueryset(table.tasks, user, None);
    ListingIsExact(ids, Scope(table.tasks, user, None));
    resp := Response(200, TaskList(SerializeAll(ids, table.tasks, table.usernames)));
  }

  /** `retrieve`: 200 with the task when it is in the scoped set, else 404. */
  method Retrieve(table: TaskTable, user: UserId, statusParam: Option<string>, id: TaskId) returns (resp: Response)
    requires table.Valid()
    ensures id in Scope(table.tasks, user, statusParam) ==>
      resp == Response(200, TaskData(Serialize(table.tasks[id], table.usernames)))
    ensures id !in Scope(table.tasks, user, statusParam) ==> resp == Response(404, NotFound)
  {
    if id in table.tasks && InScope(table.tasks[id], user, statusParam) {
      resp := Response(200, TaskData(Serialize(table.tasks[id], table.usernames)));
    } else {
      resp := Response(404, NotFound);
    }
  }

  /**
   * `create`: a valid body adds exactly one task, owned by the requesting
   * user whatever `assigned_to_id` said, and answers 201; an invalid one
   * answers 400 and changes nothing. Creation never notifies.
   */
  method Create(table: TaskTable, user: UserId, p: Payload, now: int) returns (resp: Response)
    requires table.Valid() && user in table.usernames
    modifies table
    ensures table.Valid()
    ensures table.notifications == old(table.notifications)
    ensures Validate(p, false, table.usernames.Keys).Invalid? ==>
      && resp == Response(400, ValidationErrors(Validate(p, false, table.usernames.Keys).errors))
      && table.tasks == old(table.tasks) && table.nextId == old(table.nextId)
    ensures Validate(p, false, table.usernames.Keys).Validated? ==>
      var t := NewTask(old(table.nextId), Validate(p, false, table.usernames.Keys).changes, user, now);
      && t.id !in old(table.tasks)
      && table.tasks == old(table.tasks)[t.id := t]
      && table.nextId == old(table.nextId) + 1
      && t.assignedTo == Some(user)
      && resp == Response(201, TaskData(Serialize(t, table.usernames)))
  {
    var v := Validate(p, false, table.usernames.Keys);
    if v.Validated? {
      ChoicesFitColumn();
      var t := table.Insert(v.changes, user, now);
      resp := Response(201, TaskData(Serialize(t, table.usernames)));
    } else {
      resp := Response(400, ValidationErrors(v.errors));
    }
  }

  /**
   * `update` (always partial): on a task in the scoped set, a valid body
   * changes only the supplied fields and `updated_at`, saves (running the
   * hook) and answers 200; an invalid body answers 400. A task outside the
   * scoped set answers 404. Neither failure changes anything.
   */
  method Update(table: TaskTable, user: UserId, statusParam: Option<string>, id: TaskId, p: Payload, now: int)
    returns (resp: Response)
    requires table.Valid()
    modifies table
    ensures table.Valid()
    ensures table.nextId == old(table.nextId)
    ensures id !in Scope(old(table.tasks), user, statusParam) ==>
      && resp == Response(404, NotFound)
      && table.tasks == old(table.tasks) && table.notifications == old(table.notifications)
    ensures id in Scope(old(table.tasks), user, statusParam) && Validate(p, true, table.usernames.Keys).Invalid? ==>
      && resp == Response(400, ValidationErrors(Validate(p, true, table.usernames.Keys).errors))
      && table.tasks == old(table.tasks) && table.notifications == old(table.notifications)
    ensures id in Scope(old(table.tasks), user, statusParam) && Validate(p, true, table.usernames.Keys).Validated? ==>
      var saved := ApplyChanges(old(table.tasks)[id], Validate(p, true, table.usernames.Keys).changes).(updatedAt := now);
      && table.tasks == old(table.tasks)[id := saved]
      && table.notifications == old(table.notifications) + HandlerCalls(saved, false)
      && resp == Response(200, TaskData(Serialize(saved, table.usernames)))
  {
    if id in table.tasks && InScope(table.tasks[id], user, statusParam) {
      var v := Validate(p, true, table.usernames.Keys);
      if v.Validated? {
        ChoicesFitColumn();
        var saved := table.Save(ApplyChanges(table.tasks[id], v.changes), now);
        resp := Response(200, TaskData(Serialize(saved, table.usernames)));
      } else {
        resp := Response(400, ValidationErrors(v.errors));
      }
    } else {
      resp := Response(404, NotFound);
    }
  }

  /** `destroy`: a task in the scoped set is removed, alone, with 204; otherwise 404 and no change. */
  method Destroy(table: TaskTable, user: UserId, statusParam: Option<string>, id: TaskId) returns (resp: Response)
    requires table.Valid()
    modifies table
    ensures table.Valid()
    ensures table.nextId == old(table.nextId) && table.notifications == old(table.notifications)
    ensures id in Scope(old(table.tasks), user, statusParam) ==>
      resp == Response(204, NoContent) && table.tasks == old(table.tasks) - {id}
    ensures id !in Scope(old(table.tasks), user, statusParam) ==>
      resp == Response(404, NotFound) && table.tasks == old(table.tasks)
    ensures forall k :: k != id && k in old(table.tasks) ==> k in table.tasks && table.tasks[k] == old(table.tasks)[k]
  {
    if id in table.tasks && InScope(table.tasks[id], user, statusParam) {
      table.Delete(id);
      resp := Response(204, NoContent);
    } else {
      resp := Response(404, NotFound);
    }
  }

  /**
   * `mark_completed`: a task in the scoped set gets status "completed" and a
   * new `updated_at`, nothing else; the save runs the hook, which always
   * emits one event here; the answer is 200. Otherwise 404 and no change.
   */
  method MarkCompleted(table: TaskTable, user: UserId, statusParam: Option<string>, id: TaskId, now: int)
    returns (resp: Response)
    requires table.Valid()
    modifies table
    ensures table.Valid()
    ensures table.nextId == old(table.nextId)
    ensures id in Scope(old(table.tasks), user, statusParam) ==>
      var saved := old(table.tasks)[id].(status := Completed, updatedAt := now);
      && resp == Response(200, Detail("Task marked as completed"))
      && table.tasks == old(table.tasks)[id := saved]
      && table.notifications == old(table.notifications) + [CompletionEvent(saved)]
    ensures id !in Scope(old(table.tasks), user, statusParam) ==>
      && resp == Response(404, NotFound)
      && table.tasks == old(table.tasks) && table.notifications == old(table.notifications)
  {
    if id in table.tasks && InScope(table.tasks[id], user, statusParam) {
      var task := table.tasks[id];
      var saved := table.Save(task.(status := Completed), now);
      resp := Response(200, Detail("Task marked as completed"));
    } else {
      resp := Response(404, NotFound);
    }
  }

  /**
   * Marking the same task completed twice at the same clock leaves the table
   * as the first call left it, yet the hook notifies on both saves.
   */
  method RepeatMarkCompleted(table: TaskTable, user: UserId, id: TaskId, now: int)
    returns (first: Response, second: Response)
    requires table.Valid()
    requires id in Scope(table.tasks, user, None)
    modifies table
    ensures first == second == Response(200, Detail("Task marked as completed"))
    ensures table.tasks == old(table.tasks)[id := old(table.tasks)[id].(status := Completed, updatedAt := now)]
    ensures |table.notifications| == |old(table.notifications)| + 2
    ensures table.notifications[|table.notifications| - 1] == table.notifications[|table.notifications| - 2]
  {
    first := MarkCompleted(table, user, None, id, now);
    second := MarkCompleted(table, user, None, id, now);
  }

  /**
   * A partial update that sets `assigned_to_id` to another user moves the
   * task out of the caller's scope: their next lookup answers 404.
   */
  lemma ReassignLeavesScope(tasks: map<TaskId, Task>, id: TaskId, user: UserId, other: UserId,
                            statusParam: Option<string>, c: Changes, now: int)
    requires id in tasks && c.assignedTo == Some(Some(other)) && other != user
    ensures id !in Scope(tasks[id := ApplyChanges(tasks[id], c).(updatedAt := now)], user, statusParam)
  {
  }
}
