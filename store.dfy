/**
 * The task table behind `Task.objects`: rows keyed by an auto-increment id,
 * the `auto_now_add`/`auto_now` timestamps applied on each write, and the
 * post-save hook run after every save. The hook's handler calls are kept
 * as a log.
 */
module Store {
  import opened Models
  import opened Signals
  import Serializers

  /**
   * What every row written through the model satisfies: a non-blank title
   * within 255 characters, a status within 20, and an owner that exists.
   */
  predicate Stored(t: Task, usernames: map<UserId, string>) {
    && 0 < |t.title| <= TitleMaxLength
    && |t.status| <= StatusMaxLength
    && (t.assignedTo.Some? ==> t.assignedTo.value in usernames)
  }

  class TaskTable {
    /** The rows, by primary key. */
    var tasks: map<TaskId, Task>
    /** The next value of the auto-increment key. */
    var nextId: TaskId
    /** Every event the post-save hook passed to the notification handler, oldest first. */
    var notifications: seq<Event>
    /** The users that exist, with their usernames. */
    const usernames: map<UserId, string>

    ghost predicate Valid()
      reads this
    {
      && 0 < nextId
      && forall id :: id in tasks ==> tasks[id].id == id && 0 < id < nextId && Stored(tasks[id], usernames)
    }

    constructor (usernames: map<UserId, string>)
      ensures Valid()
      ensures tasks == map[] && nextId == 1 && notifications == [] && this.usernames == usernames
    {
      tasks := map[];
      nextId := 1;
      notifications := [];
      this.usernames := usernames;
    }

    /**
     * The first save of a new row: it gets the next key and both timestamps,
     * and the hook, told the row was created, calls nothing.
     */
    method Insert(c: Serializers.Changes, owner: UserId, now: int) returns (t: Task)
      requires Valid()
      requires owner in usernames
      requires c.title.Some? && 0 < |c.title.value| <= TitleMaxLength
      requires c.status.Some? ==> |c.status.value| <= StatusMaxLength
      modifies this
      ensures Valid()
      ensures t == Serializers.NewTask(old(nextId), c, owner, now)
      ensures t.id !in old(tasks) && tasks == old(tasks)[t.id := t]
      ensures nextId == old(nextId) + 1
      ensures notifications == old(notifications)
    {
      t := Serializers.NewTask(nextId, c, owner, now);
      tasks := tasks[nextId := t];
      nextId := nextId + 1;
      CreationNeverNotifies(t);
      notifications := notifications + HandlerCalls(t, true);
    }

    /**
     * `task.save()` on an existing row: `updated_at` becomes the save time,
     * the row is replaced, and the hook runs with `created` false.
     */
    method Save(t: Task, now: int) returns (saved: Task)
      requires Valid()
      requires t.id in tasks && Stored(t, usernames)
      modifies this`tasks, this`notifications
      ensures Valid()
      ensures saved == t.(updatedAt := now)
      ensures tasks == old(tasks)[t.id := saved]
      ensures notifications == old(notifications) + HandlerCalls(saved, false)
    {
      saved := t.(updatedAt := now);
      tasks := tasks[t.id := saved];
      notifications := notifications + HandlerCalls(saved, false);
    }

    /** `task.delete()`: the row goes, nothing else changes and no hook runs. */
    method Delete(id: TaskId)
      requires Valid() && id in tasks
      modifies this`tasks
      ensures Valid()
      ensures tasks == old(tasks) - {id}
    {
      tasks := tasks - {id};
    }
  }
}
