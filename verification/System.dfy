/**
 The whole scheduler as a step system.

 A mutation through `Repository` is two steps, the change of the core repository and, later, the
 notification of the hook timer; any number of mutations may be between the two. `Scheduler.Step`
 is cut wherever others may come in between, with one exception: in `StepDispatch` the fetcher's
 `MarkAsDispatched` and `GetById` and the reservation of the result are one step, whose notification
 comes later. In the program the notification comes before `GetById`, and others may come between
 these three; a dispatched task cannot be updated or cancelled any more, so `GetById` finds the same.
 */
module System {
  import opened Wrappers
  import opened Def
  import opened HookTimer
  import opened TaskList

  /** A mutation that reached the core repository and whose notification is still on its way. */
  datatype Note =
    | NoteAdd(param: TaskUpdateParam)
    | NoteUpdate(id: string, param: TaskUpdateParam)
    | NoteCancel(id: string)
    | NoteDispatch(id: string)

  /** Where the goroutine inside `Step` is. */
  datatype Pc =
    | Outside
    | TimerStopped                       // between StopTimer and StartTimer
    | TimerRestarted                     // before the second look at LastTimerUpdateError
    | Inside                             // about to dispatch, or waiting in the select
    | Received(at: Time)                 // took the firing of an instant from the timer channel
    | Fetched(next: Task, at: Time)      // GetNext has answered, NextScheduled has not

  /** What a user of the scheduler can observe; `Marked` is the success of MarkAsDispatched in the fetcher. */
  datatype Obs =
    | CancelOk(id: string)
    | Marked(id: string)
    | StateDispatched(id: string)
    | StateTaskDone(id: string)

  datatype Sys = Sys(
    ts: seq<Task>,
    hook: Hook,
    pending: multiset<Note>,
    now: Time,
    farFuture: Time,
    pc: Pc,
    lastTask: Option<Task>,
    getNextErr: Option<Error>,
    queue: multiset<string>,             // reserved results not yet consumed, by the id of the task
    abandoned: multiset<string>,         // ids whose consumed result was context.Canceled
    log: multiset<Obs>)

  /** A failure of `GetNext` other than the report that nothing is scheduled. */
  type Fault = f: Option<Error> | f.Some? ==> !IsExhausted(f.value) witness None

  datatype WorkOutcome = Finished(workErr: Option<string>) | WorkCanceled

  datatype Event =
    | CoreAdd(param: TaskUpdateParam, id: string, ctxErr: Option<Error>)
    | CoreUpdate(id: string, param: TaskUpdateParam, ctxErr: Option<Error>)
    | CoreCancel(id: string, ctxErr: Option<Error>)
    | Notify(note: Note, fault: Fault)
    | Start(fault: Fault)
    | Stop
    | Tick(to: Time)
    | Fire
    | StepEnter
    | StepRestart(fault: Fault)
    | StepCheck
    | StepReceive
    | StepGetNext(fault: Fault)
    | StepCompare
    | StepDispatch(reaches: bool, markErr: Option<Error>, getErr: Option<Error>)
    | StepResult(id: string, outcome: WorkOutcome, ctxErr: Option<Error>)
    | StepCancelled

  predicate Refreshes(cached: Task, n: Note, farFuture: Time) {
    match n
    case NoteAdd(param) => AddRefreshes(cached, param, farFuture)
    case NoteUpdate(id, param) => UpdateRefreshes(cached, id, param)
    case NoteCancel(id) => CancelRefreshes(cached, id)
    case NoteDispatch(id) => DispatchRefreshes(cached, id)
  }

  /** What the core repository's `GetNext` answers, unless it fails for a reason of its own. */
  function Answer(ts: seq<Task>, fault: Fault): Result<Task, Error> {
    if fault.Some? then Err(fault.value) else GetNext(ts)
  }

  function Deliver(h: Hook, n: Note, ts: seq<Task>, fault: Fault, farFuture: Time): Hook {
    if Refreshes(h.cachedMin, n, farFuture) then Refresh(h, Answer(ts, fault)) else h
  }

  /** The fetcher and the reservation in one step; the notification of `MarkAsDispatched` is left pending. */
  function AfterDispatch(s: Sys, next: Task, markErr: Option<Error>, getErr: Option<Error>): Sys {
    var (ts', err) := MarkAsDispatched(s.ts, markErr, next.id, s.now);
    var out := s.(pc := Outside, lastTask := None);
    if err.Some? then out
    else
      var marked := out.(ts := ts', pending := s.pending + multiset{NoteDispatch(next.id)},
                         log := s.log + multiset{Marked(next.id)});
      if GetById(ts', getErr, next.id).Err? then marked
      else marked.(queue := s.queue + multiset{next.id}, log := marked.log + multiset{StateDispatched(next.id)})
  }

  function AfterResult(s: Sys, id: string, outcome: WorkOutcome, ctxErr: Option<Error>): Sys {
    var out := s.(pc := Outside, queue := s.queue - multiset{id}, log := s.log + multiset{StateTaskDone(id)});
    match outcome
    case WorkCanceled => out.(abandoned := s.abandoned + multiset{id})
    case Finished(workErr) => out.(ts := MarkAsDone(s.ts, ctxErr, id, workErr, s.now).0)
  }

  // ---------- mutations of the core repository ----------

  function AfterAdd(s: Sys, param: TaskUpdateParam, id: string, ctxErr: Option<Error>): Sys {
    var (ts', r) := AddTask(s.ts, ctxErr, param, id, s.now);
    if Has(s.ts, id) || r.Err? then s
    else s.(ts := ts', pending := s.pending + multiset{NoteAdd(param)})
  }

  function AfterUpdate(s: Sys, id: string, param: TaskUpdateParam, ctxErr: Option<Error>): Sys {
    var (ts', err) := UpdateById(s.ts, ctxErr, id, param);
    if err.Some? then s else s.(ts := ts', pending := s.pending + multiset{NoteUpdate(id, param)})
  }

  function AfterCancel(s: Sys, id: string, ctxErr: Option<Error>): Sys {
    var (ts', err) := Cancel(s.ts, ctxErr, id, s.now);
    if err.Some? then s
    else s.(ts := ts', pending := s.pending + multiset{NoteCancel(id)}, log := s.log + multiset{CancelOk(id)})
  }

  // ---------- the hook timer and the clock ----------

  function AfterNotify(s: Sys, n: Note, fault: Fault): Sys {
    if n !in s.pending then s
    else s.(pending := s.pending - multiset{n}, hook := Deliver(s.hook, n, s.ts, fault, s.farFuture))
  }

  function AfterFire(s: Sys): Sys {
    if s.hook.clock.Armed? && s.hook.clock.at <= s.now
    then s.(hook := s.hook.(clock := Fired(s.hook.clock.at))) else s
  }

  // ---------- Scheduler.Step ----------

  function AfterEnter(s: Sys): Sys {
    if !s.pc.Outside? then s
    else if s.getNextErr.Some? || s.hook.lastErr.Some? then s.(hook := Stopped(s.hook), pc := TimerStopped)
    else s.(pc := Inside)
  }

  function AfterRestart(s: Sys, fault: Fault): Sys {
    if !s.pc.TimerStopped? then s
    else s.(hook := Started(s.hook, Answer(s.ts, fault)), pc := TimerRestarted)
  }

  function AfterCheck(s: Sys): Sys {
    if !s.pc.TimerRestarted? then s
    else if s.hook.lastErr.Some? then s.(pc := Outside)
    else s.(getNextErr := None, pc := Inside)
  }

  /** The select waits only when there is no task to dispatch. */
  predicate Selecting(s: Sys) {
    s.pc.Inside? && s.lastTask.None?
  }

  function AfterReceive(s: Sys): Sys {
    if !Selecting(s) || !s.hook.clock.Fired? then s
    else s.(hook := s.hook.(clock := Idle), pc := Received(s.hook.clock.at))
  }

  function AfterGetNext(s: Sys, fault: Fault): Sys {
    if !s.pc.Received? then s
    else match Answer(s.ts, fault)
      case Ok(next) => s.(pc := Fetched(next, s.pc.at))
      case Err(err) => s.(pc := Outside, lastTask := None, getNextErr := Some(err))
  }

  function AfterCompare(s: Sys): Sys {
    if !s.pc.Fetched? then s
    else if !s.hook.timerReset || s.hook.cachedMin.scheduledAt != s.pc.next.scheduledAt then s.(pc := Outside)
    else s.(pc := Outside, lastTask := Some(s.pc.next), getNextErr := None)
  }

  /** One step; an event that is not enabled changes nothing. */
  function Apply(s: Sys, e: Event): Sys {
    match e
    case CoreAdd(param, id, ctxErr) => AfterAdd(s, param, id, ctxErr)
    case CoreUpdate(id, param, ctxErr) => AfterUpdate(s, id, param, ctxErr)
    case CoreCancel(id, ctxErr) => AfterCancel(s, id, ctxErr)
    case Notify(n, fault) => AfterNotify(s, n, fault)
    case Start(fault) => s.(hook := Started(s.hook, Answer(s.ts, fault)))
    case Stop => s.(hook := Stopped(s.hook))
    case Tick(to) => if s.now <= to < s.farFuture then s.(now := to) else s
    case Fire => AfterFire(s)
    case StepEnter => AfterEnter(s)
    case StepRestart(fault) => AfterRestart(s, fault)
    case StepCheck => AfterCheck(s)
    case StepReceive => AfterReceive(s)
    case StepGetNext(fault) => AfterGetNext(s, fault)
    case StepCompare => AfterCompare(s)
    case StepDispatch(reaches, markErr, getErr) =>
      if !s.pc.Inside? || s.lastTask.None? then s
      else if !reaches then s.(pc := Outside, lastTask := None)
      else AfterDispatch(s, s.lastTask.value, markErr, getErr)
    case StepResult(id, outcome, ctxErr) =>
      if !Selecting(s) || id !in s.queue then s else AfterResult(s, id, outcome, ctxErr)
    case StepCancelled => if Selecting(s) then s.(pc := Outside) else s
  }

  function Run(s: Sys, es: seq<Event>): Sys {
    if es == [] then s else Apply(Run(s, es[..|es| - 1]), es[|es| - 1])
  }

  /** An empty repository, a stopped timer, and a scheduler that has not stepped yet. */
  function Initial(now: Time, farFuture: Time): Sys {
    Sys([], Hook(ZERO_TASK, false, false, None, Idle), multiset{}, now, farFuture,
        Outside, None, None, multiset{}, multiset{}, multiset{})
  }

  lemma RunSnoc(s: Sys, es: seq<Event>, e: Event)
    ensures Run(s, es + [e]) == Apply(Run(s, es), e)
  {
    assert (es + [e])[..|es|] == es;
  }

  lemma RunAppend(s: Sys, es: seq<Event>, more: seq<Event>)
    ensures Run(s, es + more) == Run(Run(s, es), more)
    decreases |more|
  {
    if more == [] {
      assert es + more == es;
    } else {
      var n := |more| - 1;
      assert es + more == (es + more[..n]) + [more[n]];
      RunSnoc(s, es + more[..n], more[n]);
      RunAppend(s, es, more[..n]);
    }
  }

  lemma RunOne(s: Sys, e: Event)
    ensures Run(s, [e]) == Apply(s, e)
  {
    RunSnoc(s, [], e);
    assert [] + [e] == [e];
  }

  lemma RunTwo(s: Sys, a: Event, b: Event)
    ensures Run(s, [a, b]) == Apply(Apply(s, a), b)
  {
    RunOne(s, a);
    RunSnoc(s, [a], b);
    assert [a] + [b] == [a, b];
  }

  lemma RunThree(s: Sys, a: Event, b: Event, c: Event)
    ensures Run(s, [a, b, c]) == Apply(Apply(Apply(s, a), b), c)
  {
    assert [a, b, c] == (([] + [a]) + [b]) + [c];
    RunSnoc(s, [], a);
    RunSnoc(s, [] + [a], b);
    RunSnoc(s, ([] + [a]) + [b], c);
  }
}
