/**
 What each operation of the repository does to the stored tasks, said of their fields one by one and
 without the functions that compute it.
 */
module Effects {
  import opened Wrappers
  import opened Def
  import opened TaskList
  import opened TaskListLaws

  // ---------- one stored task ----------

  ghost predicate Unstored(ts: seq<Task>, id: string) {
    forall i :: 0 <= i < |ts| ==> ts[i].id != id
  }

  /** Nothing but the task at `i` differs. */
  ghost predicate OnlyAt(before: seq<Task>, after: seq<Task>, i: nat) {
    && i < |before| == |after|
    && forall j :: 0 <= j < |before| && j != i ==> after[j] == before[j]
  }

  /**
   A call that changes the task called `id`, provided that its state is `from`: a context error comes
   before everything else, an unknown id before the state, and whatever is refused changes nothing.
   */
  ghost predicate Changes(before: seq<Task>, ctxErr: Option<Error>, id: string, from: State, after: seq<Task>,
                          err: Option<Error>, did: (Task, Task) -> bool, refusal: Task -> Option<Error>)
  {
    if ctxErr.Some? then after == before && err == ctxErr
    else if Unstored(before, id) then after == before && err == Some(RepositoryError(id, IdNotFound))
    else exists i ::
      && 0 <= i < |before| && before[i].id == id
      && (if before[i].state == from then err.None? && OnlyAt(before, after, i) && did(before[i], after[i])
          else after == before && err == refusal(before[i]))
  }

  lemma StoredAt(ts: seq<Task>, id: string)
    ensures Unstored(ts, id) <==> !Has(ts, id)
  {
  }

  // ---------- what is done to it ----------

  /** The given map, an empty one instead of the nil map. */
  predicate SameMap(given: StrMap, stored: StrMap) {
    if given.Nil? then stored == Entries(map[]) else stored == given
  }

  predicate Floored(given: Option<Time>, stored: Option<Time>) {
    if given.None? then stored.None? else stored == Some(NormalizeTime(given.value))
  }

  /** Each field has what was given for it, or else what it had; times are floored. */
  predicate FieldsSet(p: TaskUpdateParam, t: Task, u: Task) {
    && u.workId == (if p.workId.Some? then p.workId.value else t.workId)
    && u.priority == (if p.priority.Some? then p.priority.value else t.priority)
    && (if p.param.Some? then SameMap(p.param.value, u.param) else u.param == t.param)
    && (if p.meta.Some? then SameMap(p.meta.value, u.meta) else u.meta == t.meta)
    && u.scheduledAt == NormalizeTime(if p.scheduledAt.Some? then p.scheduledAt.value else t.scheduledAt)
    && (if p.deadline.Some? then Floored(p.deadline.value, u.deadline) else Floored(t.deadline, u.deadline))
    && u.id == t.id && u.state == t.state && u.err == t.err
    && u.createdAt == NormalizeTime(t.createdAt) && Floored(t.cancelledAt, u.cancelledAt)
    && Floored(t.dispatchedAt, u.dispatchedAt) && Floored(t.doneAt, u.doneAt)
  }

  /** Tasks of a repository's own making have floored times already, so what is not given stays as it is. */
  lemma UngivenStays(p: TaskUpdateParam, t: Task, u: Task)
    requires FieldsSet(p, t, u) && TimesAligned(t)
    ensures u == t.(workId := u.workId, priority := u.priority, param := u.param, meta := u.meta,
                    scheduledAt := u.scheduledAt, deadline := u.deadline)
    ensures p.scheduledAt.None? ==> u.scheduledAt == t.scheduledAt
    ensures p.deadline.None? ==> u.deadline == t.deadline
  {
  }

  predicate BecomesCancelled(now: Time, t: Task, u: Task) {
    u == t.(state := Cancelled, cancelledAt := Some(NormalizeTime(now)))
  }

  predicate BecomesDispatched(now: Time, t: Task, u: Task) {
    u == t.(state := Dispatched, dispatchedAt := Some(NormalizeTime(now)))
  }

  /** Without an error the task is done; otherwise it has failed and keeps the error's text. */
  predicate BecomesDone(workErr: Option<string>, now: Time, t: Task, u: Task) {
    match workErr
    case None => u == t.(state := Done, doneAt := Some(NormalizeTime(now)))
    case Some(text) => u == t.(state := Failed, err := text, doneAt := Some(NormalizeTime(now)))
  }

  // ---------- the operations ----------

  ghost predicate Updates(before: seq<Task>, ctxErr: Option<Error>, id: string, p: TaskUpdateParam,
                          after: seq<Task>, err: Option<Error>)
  {
    Changes(before, ctxErr, id, Scheduled, after, err, (t: Task, u: Task) => FieldsSet(p, t, u), ErrKindScheduledOnly)
  }

  ghost predicate Cancels(before: seq<Task>, ctxErr: Option<Error>, id: string, now: Time,
                          after: seq<Task>, err: Option<Error>)
  {
    Changes(before, ctxErr, id, Scheduled, after, err, (t: Task, u: Task) => BecomesCancelled(now, t, u), ErrKindScheduledOnly)
  }

  ghost predicate Dispatches(before: seq<Task>, ctxErr: Option<Error>, id: string, now: Time,
                             after: seq<Task>, err: Option<Error>)
  {
    Changes(before, ctxErr, id, Scheduled, after, err, (t: Task, u: Task) => BecomesDispatched(now, t, u), ErrKindScheduledOnly)
  }

  ghost predicate Finishes(before: seq<Task>, ctxErr: Option<Error>, id: string, workErr: Option<string>, now: Time,
                           after: seq<Task>, err: Option<Error>)
  {
    Changes(before, ctxErr, id, Dispatched, after, err, (t: Task, u: Task) => BecomesDone(workErr, now, t, u), ErrKindMarkAsDone)
  }

  /** The task that a parameter describes. */
  predicate Describes(p: TaskUpdateParam, id: string, now: Time, t: Task) {
    && t.id == id && t.state == Scheduled && t.err == ""
    && t.workId == p.workId.GetOr("") && t.priority == p.priority.GetOr(0)
    && (if p.param.Some? then SameMap(p.param.value, t.param) else t.param.Nil?)
    && (if p.meta.Some? then SameMap(p.meta.value, t.meta) else t.meta.Nil?)
    && t.scheduledAt == NormalizeTime(p.scheduledAt.GetOr(0)) && t.createdAt == NormalizeTime(now)
    && Floored(p.deadline.GetOr(None), t.deadline)
    && t.cancelledAt.None? && t.dispatchedAt.None? && t.doneAt.None?
  }

  /** A task needs an id, a work id, and times other than the zero time. */
  ghost predicate Adds(before: seq<Task>, ctxErr: Option<Error>, p: TaskUpdateParam, id: string, now: Time,
                       after: seq<Task>, r: Result<Task, Error>)
  {
    if ctxErr.Some? then after == before && r == Err(ctxErr.value)
    else if id == "" || p.workId.GetOr("") == "" || NormalizeTime(p.scheduledAt.GetOr(0)) == 0 || NormalizeTime(now) == 0
    then after == before && r == Err(InvalidTask)
    else r.Ok? && after == before + [r.value] && Describes(p, id, now, r.value)
  }

  ghost predicate Gets(ts: seq<Task>, ctxErr: Option<Error>, id: string, r: Result<Task, Error>) {
    if ctxErr.Some? then r == Err(ctxErr.value)
    else if Unstored(ts, id) then r == Err(RepositoryError(id, IdNotFound))
    else exists i :: 0 <= i < |ts| && ts[i].id == id && r == Ok(ts[i])
  }

  // ---------- the reference repository does so ----------

  lemma UpdateByIdDoes(ts: seq<Task>, ctxErr: Option<Error>, id: string, p: TaskUpdateParam)
    ensures
      var (ts', err) := UpdateById(ts, ctxErr, id, p);
      Updates(ts, ctxErr, id, p, ts', err)
  {
    StoredAt(ts, id);
  }

  lemma CancelDoes(ts: seq<Task>, ctxErr: Option<Error>, id: string, now: Time)
    ensures
      var (ts', err) := Cancel(ts, ctxErr, id, now);
      Cancels(ts, ctxErr, id, now, ts', err)
  {
    StoredAt(ts, id);
  }

  lemma MarkAsDispatchedDoes(ts: seq<Task>, ctxErr: Option<Error>, id: string, now: Time)
    ensures
      var (ts', err) := MarkAsDispatched(ts, ctxErr, id, now);
      Dispatches(ts, ctxErr, id, now, ts', err)
  {
    StoredAt(ts, id);
  }

  lemma MarkAsDoneDoes(ts: seq<Task>, ctxErr: Option<Error>, id: string, workErr: Option<string>, now: Time)
    ensures
      var (ts', err) := MarkAsDone(ts, ctxErr, id, workErr, now);
      Finishes(ts, ctxErr, id, workErr, now, ts', err)
  {
    StoredAt(ts, id);
  }

  lemma AddTaskDoes(ts: seq<Task>, ctxErr: Option<Error>, p: TaskUpdateParam, id: string, now: Time)
    ensures
      var (ts', r) := AddTask(ts, ctxErr, p, id, now);
      Adds(ts, ctxErr, p, id, now, ts', r)
  {
  }

  lemma GetByIdDoes(ts: seq<Task>, ctxErr: Option<Error>, id: string)
    ensures Gets(ts, ctxErr, id, GetById(ts, ctxErr, id))
  {
    StoredAt(ts, id);
  }
}
