/** The Task record: its fields, the status choices, the limits and `__str__`. */
module Models {
  import opened Wrappers

  type UserId = nat
  type TaskId = nat

  const Pending := "pending"
  const Completed := "completed"

  /** `STATUS_CHOICES`: stored value and human label. */
  const StatusChoices: seq<(string, string)> := [(Pending, "Pending"), (Completed, "Completed")]

  const TitleMaxLength := 255
  const StatusMaxLength := 20

  /**
   * One row of the task table. Timestamps are integers; `assignedTo` is the
   * owner's user id, or None for a task nobody owns.
   */
  datatype Task = Task(
    id: TaskId,
    title: string,
    description: Option<string>,
    status: string,
    createdAt: int,
    updatedAt: int,
    assignedTo: Option<UserId>)

  /** The stored values of `STATUS_CHOICES`, in declaration order. */
  function ChoiceKeys(): seq<string> {
    seq(|StatusChoices|, i requires 0 <= i < |StatusChoices| => StatusChoices[i].0)
  }

  /** The recognised statuses are exactly "pending" and "completed". */
  lemma ChoiceKeysAre()
    ensures ChoiceKeys() == [Pending, Completed]
    ensures forall s :: s in ChoiceKeys() <==> s == "pending" || s == "completed"
  {
  }

  /** Every recognised status fits the status column. */
  lemma ChoicesFitColumn()
    ensures forall s :: s in ChoiceKeys() ==> 0 < |s| <= StatusMaxLength
  {
  }

  /** `__str__`: the title followed by the status in parentheses. */
  function Display(t: Task): (r: string)
    ensures |r| == |t.title| + |t.status| + 3
    ensures r[..|t.title|] == t.title
    ensures r[|t.title|..|t.title| + 2] == " ("
    ensures r[|t.title| + 2..|r| - 1] == t.status
    ensures r[|r| - 1] == ')'
  {
    t.title + " (" + t.status + ")"
  }

  /** `Meta.ordering = ["-created_at"]`: `a` may be listed before `b`. */
  predicate ListedBefore(a: Task, b: Task) {
    a.createdAt >= b.createdAt
  }
}
