/**
 * TaskSerializer: which request fields are accepted and how they are checked
 * (`validate_status` and the checks the model's field declarations imply),
 * how validated data is written into a Task, and the eight-field output form.
 */
module Serializers {
  import opened Wrappers
  import opened Models

  /** `repr()` of a list of plain strings, e.g. `['pending', 'completed']`. */
  function ListRepr(items: seq<string>): string {
    "[" + JoinQuoted(items) + "]"
  }

  function JoinQuoted(items: seq<string>): string {
    if items == [] then ""
    else if |items| == 1 then "'" + items[0] + "'"
    else "'" + items[0] + "', " + JoinQuoted(items[1..])
  }

  /**
   * `validate_status`: a value is accepted, unchanged, exactly when it is a
   * key of `STATUS_CHOICES`; otherwise the error lists the valid keys.
   */
  function ValidateStatus(value: string): (r: Result<string, string>)
    ensures r.Ok? <==> value == "pending" || value == "completed"
    ensures r.Ok? ==> r.value == value
    ensures r.Err? ==> r.error == "Invalid status. Must be one of: ['pending', 'completed']"
  {
    ChoiceKeysAre();
    var validStatuses := ChoiceKeys();
    if value !in validStatuses then
      Err("Invalid status. Must be one of: " + ListRepr(validStatuses))
    else
      Ok(value)
  }

  /** Neither "overdue" nor a case variant of a choice is a valid status. */
  lemma RejectedStatuses()
    ensures ValidateStatus("overdue").Err?
    ensures ValidateStatus("Completed").Err?
    ensures ValidateStatus("PENDING").Err?
    ensures ValidateStatus("").Err?
  {
  }

  /**
   * A request body as the serializer receives it. Absent fields are None;
   * `Some(None)` is an explicit JSON null. The last four fields are read-only
   * in the serializer: a client may send them, and they are never applied.
   */
  datatype Payload = Payload(
    title: Option<string>,
    description: Option<Option<string>>,
    status: Option<string>,
    assignedToId: Option<Option<int>>,
    id: Option<int>,
    assignedTo: Option<int>,
    createdAt: Option<int>,
    updatedAt: Option<int>)

  /** `validated_data`: the writable fields that were supplied, after checking. */
  datatype Changes = Changes(
    title: Option<string>,
    description: Option<Option<string>>,
    status: Option<string>,
    assignedTo: Option<Option<UserId>>)

  /** Outcome of `is_valid()`: the validated data, or the names of the failing fields. */
  datatype Validation = Validated(changes: Changes) | Invalid(errors: set<string>)

  const WritableFields: set<string> := {"title", "description", "status", "assigned_to_id"}

  /** `title`: required unless partial, not blank, at most 255 characters, no NUL character. */
  predicate TitleOk(title: Option<string>, partial: bool) {
    match title
    case None => partial
    case Some(t) => t != "" && |t| <= TitleMaxLength && '\0' !in t
  }

  /** `description`: optional, may be null or blank; a given text holds no NUL character. */
  predicate DescriptionOk(description: Option<Option<string>>) {
    match description
    case Some(Some(d)) => '\0' !in d
    case _ => true
  }

  /** `status`: optional (the model has a default); a given value must pass `validate_status`. */
  predicate StatusOk(status: Option<string>) {
    match status
    case None => true
    case Some(s) => ValidateStatus(s).Ok?
  }

  /** `assigned_to_id`: optional, may be null, otherwise the key of an existing user. */
  predicate OwnerOk(owner: Option<Option<int>>, users: set<UserId>) {
    match owner
    case Some(Some(u)) => 0 <= u && (u as UserId) in users
    case _ => true
  }

  function OwnerChange(owner: Option<Option<int>>, users: set<UserId>): Option<Option<UserId>>
    requires OwnerOk(owner, users)
  {
    match owner
    case None => None
    case Some(None) => Some(None)
    case Some(Some(u)) => Some(Some(u as UserId))
  }

  function FieldErrors(p: Payload, partial: bool, users: set<UserId>): set<string> {
    (if TitleOk(p.title, partial) then {} else {"title"})
    + (if DescriptionOk(p.description) then {} else {"description"})
    + (if StatusOk(p.status) then {} else {"status"})
    + (if OwnerOk(p.assignedToId, users) then {} else {"assigned_to_id"})
  }

  /**
   * `is_valid()` on a payload; `partial` is the update path, where every
   * field may be left out. Both text fields refuse the NUL character, as
   * every DRF `CharField` does; the description may be null or blank.
   */
  function Validate(p: Payload, partial: bool, users: set<UserId>): (r: Validation)
    ensures r.Validated? <==>
      && (p.title.Some? || partial)
      && (p.title.Some? ==> 0 < |p.title.value| <= 255 && '\0' !in p.title.value)
      && (p.description.Some? && p.description.value.Some? ==> '\0' !in p.description.value.value)
      && (p.status.Some? ==> p.status.value == "pending" || p.status.value == "completed")
      && (p.assignedToId.Some? && p.assignedToId.value.Some? ==>
            0 <= p.assignedToId.value.value && p.assignedToId.value.value as UserId in users)
    ensures r.Validated? ==>
      && r.changes.title == p.title
      && r.changes.description == p.description
      && r.changes.status == p.status
      && (r.changes.assignedTo.Some? <==> p.assignedToId.Some?)
      && (r.changes.assignedTo == Some(None) <==> p.assignedToId == Some(None))
      && (forall u: UserId :: r.changes.assignedTo == Some(Some(u)) <==> p.assignedToId == Some(Some(u as int)))
    ensures r.Invalid? ==> r.errors != {} && r.errors <= WritableFields
    ensures r.Invalid? ==> ("status" in r.errors <==> p.status.Some? && ValidateStatus(p.status.value).Err?)
    ensures r.Invalid? ==> ("title" in r.errors <==> !TitleOk(p.title, partial))
    ensures r.Invalid? ==> ("description" in r.errors <==> !DescriptionOk(p.description))
    ensures r.Invalid? ==> ("assigned_to_id" in r.errors <==> !OwnerOk(p.assignedToId, users))
  {
    var errors := FieldErrors(p, partial, users);
    if errors == {} then
      Validated(Changes(p.title, p.description, p.status, OwnerChange(p.assignedToId, users)))
    else
      Invalid(errors)
  }

  /** The read-only fields of a payload never influence validation. */
  lemma ReadOnlyFieldsIgnored(p: Payload, partial: bool, users: set<UserId>,
                              id: Option<int>, owner: Option<int>, created: Option<int>, updated: Option<int>)
    ensures Validate(p.(id := id, assignedTo := owner, createdAt := created, updatedAt := updated), partial, users)
         == Validate(p, partial, users)
  {
  }

  /**
   * `serializer.save(assigned_to=user)` on the create path: the owner is the
   * requesting user whatever `assigned_to_id` said, the status defaults to
   * "pending", and both timestamps are the save time.
   */
  function NewTask(id: TaskId, c: Changes, owner: UserId, now: int): (t: Task)
    ensures t.id == id && t.assignedTo == Some(owner)
    ensures t.status == (if c.status.Some? then c.status.value else "pending")
    ensures t.createdAt == now && t.updatedAt == now
    ensures c.title.Some? ==> t.title == c.title.value
    ensures t.description == c.description.GetOr(None)
  {
    Task(id, c.title.GetOr(""), c.description.GetOr(None), c.status.GetOr(Pending), now, now, Some(owner))
  }

  /**
   * `serializer.save()` on the partial-update path, before the row is
   * written: the supplied fields replace the stored ones and nothing else
   * changes (the write itself stamps `updated_at`).
   */
  function ApplyChanges(t: Task, c: Changes): (r: Task)
    ensures r.id == t.id && r.createdAt == t.createdAt && r.updatedAt == t.updatedAt
    ensures c.title.None? ==> r.title == t.title
    ensures c.description.None? ==> r.description == t.description
    ensures c.status.None? ==> r.status == t.status
    ensures c.assignedTo.None? ==> r.assignedTo == t.assignedTo
    ensures c.title.Some? ==> r.title == c.title.value
    ensures c.description.Some? ==> r.description == c.description.value
    ensures c.status.Some? ==> r.status == c.status.value
    ensures c.assignedTo.Some? ==> r.assignedTo == c.assignedTo.value
  {
    t.(title := c.title.GetOr(t.title),
       description := c.description.GetOr(t.description),
       status := c.status.GetOr(t.status),
       assignedTo := c.assignedTo.GetOr(t.assignedTo))
  }

  /** Applying the same validated update twice is the same as applying it once. */
  lemma ApplyChangesIdempotent(t: Task, c: Changes)
    ensures ApplyChanges(ApplyChanges(t, c), c) == ApplyChanges(t, c)
  {
  }

  // ---- output form ----

  /** The declared output fields, in `Meta.fields` order. */
  datatype Field = Id | Title | Description | AssignedTo | AssignedToId | Status | CreatedAt | UpdatedAt

  /** The JSON key of each field. */
  function Key(f: Field): string {
    match f
    case Id => "id"
    case Title => "title"
    case Description => "description"
    case AssignedTo => "assigned_to"
    case AssignedToId => "assigned_to_id"
    case Status => "status"
    case CreatedAt => "created_at"
    case UpdatedAt => "updated_at"
  }

  const AllFields: set<Field> := {Id, Title, Description, AssignedTo, AssignedToId, Status, CreatedAt, UpdatedAt}

  /** A JSON value of the output; the nested owner is rendered by UserSerializer as `{id, username}`. */
  datatype Json = JNull | JStr(s: string) | JInt(n: int) | JUser(id: int, username: string)

  /**
   * `serializer.data`: the eight declared fields. The owner appears twice,
   * as the nested user object and as the bare key.
   */
  function Serialize(t: Task, usernames: map<UserId, string>): (r: map<Field, Json>)
    requires t.assignedTo.Some? ==> t.assignedTo.value in usernames
    ensures r.Keys == AllFields
    ensures r[AssignedTo].JNull? <==> r[AssignedToId].JNull?
    ensures r[AssignedTo].JUser? ==> r[AssignedToId] == JInt(r[AssignedTo].id)
    ensures r[AssignedTo].JUser? ==> r[AssignedTo].id in usernames && r[AssignedTo].username == usernames[r[AssignedTo].id]
    ensures r[Id] == JInt(t.id) && r[CreatedAt] == JInt(t.createdAt) && r[UpdatedAt] == JInt(t.updatedAt)
    ensures r[Title] == JStr(t.title) && r[Status] == JStr(t.status)
    ensures r[Description] == (if t.description.Some? then JStr(t.description.value) else JNull)
  {
    map[
      Id := JInt(t.id),
      Title := JStr(t.title),
      Description := (match t.description case Some(d) => JStr(d) case None => JNull),
      AssignedTo := (match t.assignedTo
                     case Some(u) => JUser(u, usernames[u])
                     case None => JNull),
      AssignedToId := (match t.assignedTo case Some(u) => JInt(u) case None => JNull),
      Status := JStr(t.status),
      CreatedAt := JInt(t.createdAt),
      UpdatedAt := JInt(t.updatedAt)]
  }

  /** The serialized form has exactly eight fields, under eight distinct keys. */
  lemma EightFields(t: Task, usernames: map<UserId, string>)
    requires t.assignedTo.Some? ==> t.assignedTo.value in usernames
    ensures |Serialize(t, usernames).Keys| == 8
    ensures forall f, g :: f in AllFields && g in AllFields && f != g ==> Key(f) != Key(g)
  {
  }

  /** Reads a serialized task back as a request body, read-only fields included. */
  function PayloadOf(data: map<Field, Json>): Payload {
    Payload(
      title := if Title in data && data[Title].JStr? then Some(data[Title].s) else None,
      description := if Description in data then
                       (match data[Description] case JStr(d) => Some(Some(d)) case _ => Some(None))
                     else None,
      status := if Status in data && data[Status].JStr? then Some(data[Status].s) else None,
      assignedToId := if AssignedToId in data then
                        (match data[AssignedToId] case JInt(u) => Some(Some(u)) case _ => Some(None))
                      else None,
      id := if Id in data && data[Id].JInt? then Some(data[Id].n) else None,
      assignedTo := if AssignedTo in data && data[AssignedTo].JUser? then Some(data[AssignedTo].id) else None,
      createdAt := if CreatedAt in data && data[CreatedAt].JInt? then Some(data[CreatedAt].n) else None,
      updatedAt := if UpdatedAt in data && data[UpdatedAt].JInt? then Some(data[UpdatedAt].n) else None)
  }

  /**
   * Sending a task's own serialized form back as a partial update is accepted
   * and writes back the same task, provided its stored status is one of the
   * choices and its texts are valid.
   */
  lemma SerializeRoundTrip(t: Task, usernames: map<UserId, string>)
    requires t.assignedTo.Some? ==> t.assignedTo.value in usernames
    requires 0 < |t.title| <= TitleMaxLength && '\0' !in t.title
    requires t.description.Some? ==> '\0' !in t.description.value
    requires t.status == Pending || t.status == Completed
    ensures var v := Validate(PayloadOf(Serialize(t, usernames)), true, usernames.Keys);
      v.Validated? && ApplyChanges(t, v.changes) == t
  {
  }
}
