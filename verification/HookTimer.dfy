/**
 `MutationHookTimer`: keeps a timer armed for the repository's next task, guessing from the
 parameters of each mutation whether the next task may have changed.
 */
module HookTimer {
  import opened Wrappers
  import opened Def

  /** The clock and its channel: nothing pending, running towards an instant, or fired and not yet received. */
  datatype Timer = Idle | Armed(at: Time) | Fired(at: Time)

  const NEVER_EXISTENT_ID := "%%%%$$$$%%%%$$$$%%%%$$$$"

  /** The fields of a `MutationHookTimer` as a value. */
  datatype Hook = Hook(
    cachedMin: Task,
    timerReset: bool,
    isTimerStarted: bool,
    lastErr: Option<Error>,
    clock: Timer)

  // ---------- when a notification refreshes ----------

  predicate AddRefreshes(cached: Task, param: TaskUpdateParam, farFuture: Time) {
    cached.id == "" || param.ToTask(NEVER_EXISTENT_ID, farFuture).Less(cached)
  }

  predicate UpdateRefreshes(cached: Task, id: string, param: TaskUpdateParam) {
    if cached.id == "" then true
    else if id == cached.id then
      if param.priority.None? && param.scheduledAt.None? then false
      else
        var at := param.scheduledAt.GetOr(cached.scheduledAt);
        || param.(priority := Some(param.priority.GetOr(cached.priority)), scheduledAt := Some(at))
           .ToTask(NEVER_EXISTENT_ID, 0).Less(cached)
        || at < cached.scheduledAt
    else if param.scheduledAt.Some? then param.scheduledAt.value < cached.scheduledAt
    else param.priority.Some? && param.priority.value > cached.priority
  }

  predicate CancelRefreshes(cached: Task, id: string) {
    cached.id == "" || cached.id == id
  }

  predicate DispatchRefreshes(cached: Task, id: string) {
    id == cached.id
  }

  // ---------- what a refresh does ----------

  /** `update`, given what `repo.GetNext` answers at that moment. */
  function Refresh(h: Hook, next: Result<Task, Error>): Hook {
    if !h.isTimerStarted then h.(lastErr := None)
    else match next
      case Ok(t) => Hook(t, true, true, None, Armed(t.scheduledAt))
      case Err(e) => Hook(ZERO_TASK, false, true, if IsExhausted(e) then None else Some(e), Idle)
  }

  function Started(h: Hook, next: Result<Task, Error>): Hook {
    Refresh(h.(isTimerStarted := true), next)
  }

  function Stopped(h: Hook): Hook {
    Hook(ZERO_TASK, false, false, h.lastErr, Idle)
  }

  // ---------- the object ----------

  class MutationHookTimer {
    var cachedMin: Task
    var timerReset: bool
    var isTimerStarted: bool
    var lastErr: Option<Error>
    var clock: Timer
    // thirty years after the process started
    const farFuture: Time

    function State(): Hook
      reads this
    {
      Hook(cachedMin, timerReset, isTimerStarted, lastErr, clock)
    }

    constructor (farFuture: Time)
      ensures State() == Hook(ZERO_TASK, false, false, None, Idle) && this.farFuture == farFuture
    {
      this.farFuture := farFuture;
      cachedMin, timerReset, isTimerStarted, lastErr, clock := ZERO_TASK, false, false, None, Idle;
    }

    /** `clock.Stop`, then a non-blocking receive: whatever was pending is gone. */
    method StopAndDrain()
      modifies this`clock
      ensures clock == Idle
    {
      var stopped := clock.Armed?;
      if stopped {
        clock := Idle;
      } else if clock.Fired? {
        clock := Idle;  // the value already sent is received and dropped
      }
    }

    method UpdateTimer(next: Result<Task, Error>, now: Time) returns (err: Option<Error>)
      modifies this
      ensures lastErr == old(lastErr)
      ensures State().(lastErr := err) == Refresh(old(State()), next)
    {
      if !isTimerStarted {
        return None;
      }
      StopAndDrain();
      match next {
        case Ok(t) =>
          cachedMin := t;
          timerReset := true;
          clock := Armed(now + (t.scheduledAt - now));
          return None;
        case Err(e) =>
          cachedMin := ZERO_TASK;
          timerReset := false;
          if IsExhausted(e) {
            return None;
          }
          return Some(e);
      }
    }

    method Update(next: Result<Task, Error>, now: Time)
      modifies this
      ensures State() == Refresh(old(State()), next)
      // a started timer runs towards the next task, or rests with nothing cached and keeps what went wrong
      ensures isTimerStarted == old(isTimerStarted)
      ensures isTimerStarted && next.Ok? ==>
        cachedMin == next.value && timerReset && clock == Armed(next.value.scheduledAt) && lastErr.None?
      ensures isTimerStarted && next.Err? ==>
        && cachedMin == ZERO_TASK && !timerReset && clock == Idle
        && lastErr == if IsExhausted(next.error) then None else Some(next.error)
      ensures !isTimerStarted ==>
        cachedMin == old(cachedMin) && timerReset == old(timerReset) && clock == old(clock) && lastErr.None?
    {
      var err := UpdateTimer(next, now);
      lastErr := err;
    }

    method AddTask(param: TaskUpdateParam, next: Result<Task, Error>, now: Time)
      modifies this
      ensures State() ==
        if AddRefreshes(old(cachedMin), param, farFuture) then Refresh(old(State()), next) else old(State())
    {
      if cachedMin.id == "" || param.ToTask(NEVER_EXISTENT_ID, farFuture).Less(cachedMin) {
        Update(next, now);
      }
    }

    method UpdateById(id: string, param: TaskUpdateParam, next: Result<Task, Error>, now: Time)
      modifies this
      ensures State() ==
        if UpdateRefreshes(old(cachedMin), id, param) then Refresh(old(State()), next) else old(State())
    {
      if cachedMin.id == "" {
        Update(next, now);
        return;
      }
      var p := param;
      if id == cachedMin.id {
        if p.priority.None? && p.scheduledAt.None? {
          return;
        }
        p := p.(priority := Or(p.priority, Some(cachedMin.priority)));
        p := p.(scheduledAt := Or(p.scheduledAt, Some(cachedMin.scheduledAt)));
        if p.ToTask(NEVER_EXISTENT_ID, 0).Less(cachedMin) {
          Update(next, now);
          return;
        }
      }
      var updatedToBefore := p.scheduledAt.Some? && p.scheduledAt.value < cachedMin.scheduledAt;
      if updatedToBefore {
        Update(next, now);
        return;
      }
      var updatedToHigherPriority :=
        p.priority.Some? && p.scheduledAt.None? && p.priority.value > cachedMin.priority;
      if updatedToHigherPriority {
        Update(next, now);
        return;
      }
    }

    method Cancel(id: string, next: Result<Task, Error>, now: Time)
      modifies this
      ensures State() == if CancelRefreshes(old(cachedMin), id) then Refresh(old(State()), next) else old(State())
    {
      if cachedMin.id == "" || cachedMin.id == id {
        Update(next, now);
      }
    }

    method MarkAsDispatched(id: string, next: Result<Task, Error>, now: Time)
      modifies this
      ensures State() == if DispatchRefreshes(old(cachedMin), id) then Refresh(old(State()), next) else old(State())
    {
      if id == cachedMin.id {
        Update(next, now);
      }
    }

    method StartTimer(next: Result<Task, Error>, now: Time)
      modifies this
      ensures State() == Started(old(State()), next)
    {
      isTimerStarted := true;
      Update(next, now);
    }

    method StopTimer()
      modifies this
      ensures State() == Stopped(old(State()))
      ensures !isTimerStarted && !timerReset && cachedMin == ZERO_TASK && clock == Idle && lastErr == old(lastErr)
    {
      StopAndDrain();
      timerReset := false;
      cachedMin := ZERO_TASK;
      isTimerStarted := false;
    }

    /** Takes a firing from the timer channel. */
    method Receive()
      modifies this`clock
      ensures State() == old(State()).(clock := Idle)
    {
      clock := Idle;
    }

    method NextScheduled() returns (at: Time, ok: bool)
      ensures at == cachedMin.scheduledAt && ok == timerReset
    {
      return cachedMin.scheduledAt, timerReset;
    }
  }
}
