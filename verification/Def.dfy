/** Tasks, update parameters and refusal errors: the package `def`. */
module Def {
  import opened Wrappers

  /** Nanoseconds since the zero time of Go's `time.Time`. */
  type Time = int

  const MILLISECOND: Time := 1_000_000

  /** Rounds down to a whole millisecond. */
  function NormalizeTime(t: Time): (r: Time)
    ensures r <= t < r + MILLISECOND
    ensures r % MILLISECOND == 0
  {
    t - t % MILLISECOND
  }

  lemma NormalizeMonotone(a: Time, b: Time)
    requires a <= b
    ensures NormalizeTime(a) <= NormalizeTime(b)
  {
  }

  predicate Aligned(t: Time) {
    t % MILLISECOND == 0
  }

  /** A Go `map[string]string`, which may be the nil map. */
  datatype StrMap = Nil | Entries(m: map<string, string>)

  datatype State =
    | Scheduled
    | Dispatched
    | Cancelled
    | Done
    | Failed              // the state "err"
    | Unknown(name: string)

  datatype Task = Task(
    id: string,
    workId: string,
    priority: int,
    state: State,
    err: string,
    param: StrMap,
    meta: StrMap,
    scheduledAt: Time,
    createdAt: Time,
    deadline: Option<Time>,
    cancelledAt: Option<Time>,
    dispatchedAt: Option<Time>,
    doneAt: Option<Time>)
  {
    predicate IsValid() {
      && id != ""
      && workId != ""
      && !state.Unknown?
      && scheduledAt != 0
      && createdAt != 0
    }

    function NormalizeTimes(): Task {
      this.(
        scheduledAt := NormalizeTime(scheduledAt),
        createdAt := NormalizeTime(createdAt),
        deadline := NormalizeOption(deadline),
        cancelledAt := NormalizeOption(cancelledAt),
        dispatchedAt := NormalizeOption(dispatchedAt),
        doneAt := NormalizeOption(doneAt))
    }

    /** `Task.Less`: the order the hook timer uses, which knows no insertion order. */
    predicate Less(j: Task) {
      if cancelledAt.Some? then true
      else if scheduledAt != j.scheduledAt then scheduledAt < j.scheduledAt
      else if priority != j.priority then priority > j.priority
      else createdAt < j.createdAt
    }

    function Update(p: TaskUpdateParam): Task {
      this.(
        workId := p.workId.GetOr(workId),
        param := if p.param.Some? then NonNil(p.param.value) else param,
        priority := p.priority.GetOr(priority),
        scheduledAt := p.scheduledAt.GetOr(scheduledAt),
        deadline := p.deadline.GetOr(deadline),
        meta := if p.meta.Some? then NonNil(p.meta.value) else meta)
      .NormalizeTimes()
    }
  }

  function NormalizeOption(t: Option<Time>): Option<Time> {
    match t
    case None => None
    case Some(v) => Some(NormalizeTime(v))
  }

  /** The default that `Task.Update` substitutes for a nil map. */
  function NonNil(m: StrMap): StrMap {
    if m.Nil? then Entries(map[]) else m
  }

  /** The zero value of `Task`; its state is the empty string. */
  const ZERO_TASK: Task :=
    Task("", "", 0, Unknown(""), "", Nil, Nil, 0, 0, None, None, None, None)

  datatype TaskUpdateParam = TaskUpdateParam(
    workId: Option<string>,
    priority: Option<int>,
    param: Option<StrMap>,
    meta: Option<StrMap>,
    scheduledAt: Option<Time>,
    deadline: Option<Option<Time>>)
  {
    /** `this` overridden by every field that `u` sets. */
    function Update(u: TaskUpdateParam): TaskUpdateParam {
      TaskUpdateParam(
        Or(u.workId, workId),
        Or(u.priority, priority),
        Or(u.param, param),
        Or(u.meta, meta),
        Or(u.scheduledAt, scheduledAt),
        Or(u.deadline, deadline))
    }

    function Normalize(): TaskUpdateParam {
      this.(
        scheduledAt := NormalizeOption(scheduledAt),
        deadline := match deadline
                    case None => None
                    case Some(d) => Some(NormalizeOption(d)))
    }

    function ToTask(id: string, createdAt: Time): Task {
      ZERO_TASK.(id := id, createdAt := NormalizeTime(createdAt), state := Scheduled).Update(this)
    }
  }

  const NO_PARAM: TaskUpdateParam := TaskUpdateParam(None, None, None, None, None, None)

  // ---------- errors ----------

  datatype ErrorKind =
    | AlreadyCancelled
    | AlreadyDone
    | AlreadyDispatched
    | Exhausted
    | NotDispatched
    | IdNotFound

  datatype Error =
    | RepositoryError(id: string, kind: ErrorKind)
    | InvalidTask
    | WorkIdNotFound
    | ContextCanceled
    | ScheduleStoppedOrChanged
    | OtherError(msg: string)

  predicate IsExhausted(e: Error) {
    e.RepositoryError? && e.kind == Exhausted
  }

  datatype ErrKindOption = ErrKindOption(
    skipCancelledAt: bool,
    skipDispatchedAt: bool,
    skipDoneAt: bool,
    returnOnEmptyDispatchedAt: bool)

  /** `ErrKind` reads the timestamps only; `None` stands for the empty kind. */
  function ErrKind(t: Task, o: ErrKindOption): Option<ErrorKind> {
    if !o.skipDoneAt && t.doneAt.Some? then Some(AlreadyDone)
    else if !o.skipCancelledAt && t.cancelledAt.Some? then Some(AlreadyCancelled)
    else if !o.skipDispatchedAt && t.dispatchedAt.Some? then Some(AlreadyDispatched)
    else if o.returnOnEmptyDispatchedAt && t.dispatchedAt.None? then Some(NotDispatched)
    else None
  }

  /** `ErrKindUpdate`, `ErrKindCancel` and `ErrKindMarkAsDispatch`, which are the same function. `None` is Go's nil error. */
  function ErrKindScheduledOnly(t: Task): Option<Error> {
    match ErrKind(t, ErrKindOption(false, false, false, false))
    case None => None
    case Some(kind) => Some(RepositoryError(t.id, kind))
  }

  function ErrKindMarkAsDone(t: Task): Option<Error> {
    match ErrKind(t, ErrKindOption(false, true, false, true))
    case None => None
    case Some(kind) => Some(RepositoryError(t.id, kind))
  }
}
