/**
 The scheduler as it runs without interference: `Repository`, which connects the core repository to
 the hook timer, and `Scheduler`, whose `Step` is proved to be a run of the step system in `System`.
 */
module Scheduler {
  import opened Wrappers
  import opened Def
  import opened HookTimer
  import opened InMemory
  import opened System
  import opened WorkerPool
  import Effects
  import TaskList
  import TimerSafety

  // ---------- repository.Repository ----------

  class Repository {
    const core: InMemoryRepository
    const hook: MutationHookTimer

    ghost predicate Valid()
      reads this, core, core.Repr, core.heap, core.heap.Repr
    {
      core.Valid()
    }

    constructor (core: InMemoryRepository, hook: MutationHookTimer)
      ensures this.core == core && this.hook == hook
    {
      this.core := core;
      this.hook := hook;
    }

    /** The second half of a mutation: the hook is told, and asks the core for the next task if it wants to refresh. */
    method Tell(note: Note, now: Time)
      requires Valid()
      modifies hook
      ensures Valid() && hook.State() == Deliver(old(hook.State()), note, core.Tasks, None, hook.farFuture)
    {
      var next := core.GetNext();
      match note {
        case NoteAdd(param) => hook.AddTask(param, next, now);
        case NoteUpdate(id, param) => hook.UpdateById(id, param, next, now);
        case NoteCancel(id) => hook.Cancel(id, next, now);
        case NoteDispatch(id) => hook.MarkAsDispatched(id, next, now);
      }
    }

    method AddTask(ctxErr: Option<Error>, param: TaskUpdateParam, id: string, now: Time)
      returns (r: Result<Task, Error>)
      requires Valid() && id !in core.byId
      modifies core, core.heap, core.heap.Repr`index, hook
      ensures Valid() && fresh(core.Repr - old(core.Repr)) && core.heap == old(core.heap)
      ensures (core.Tasks, r) == TaskList.AddTask(old(core.Tasks), ctxErr, param, id, now)
      ensures hook.State() ==
        if r.Err? then old(hook.State()) else Deliver(old(hook.State()), NoteAdd(param), core.Tasks, None, hook.farFuture)
    {
      r := core.AddTask(ctxErr, param, id, now);
      if r.Err? {
        return;
      }
      Tell(NoteAdd(param), now);
    }

    method UpdateById(ctxErr: Option<Error>, id: string, param: TaskUpdateParam, now: Time) returns (err: Option<Error>)
      requires Valid()
      modifies core`Tasks, core.heap, core.heap.Repr`index, core.Repr`task, hook
      ensures Valid()
      ensures (core.Tasks, err) == TaskList.UpdateById(old(core.Tasks), ctxErr, id, param)
      ensures hook.State() ==
        if err.Some? then old(hook.State())
        else Deliver(old(hook.State()), NoteUpdate(id, param), core.Tasks, None, hook.farFuture)
    {
      err := core.UpdateById(ctxErr, id, param);
      if err.Some? {
        return;
      }
      Tell(NoteUpdate(id, param), now);
    }

    method Cancel(ctxErr: Option<Error>, id: string, now: Time) returns (err: Option<Error>)
      requires Valid()
      modifies core`Tasks, core.heap, core.heap.Repr`index, core.Repr`task, hook
      ensures Valid()
      ensures (core.Tasks, err) == TaskList.Cancel(old(core.Tasks), ctxErr, id, now)
      ensures hook.State() ==
        if err.Some? then old(hook.State())
        else Deliver(old(hook.State()), NoteCancel(id), core.Tasks, None, hook.farFuture)
    {
      err := core.Cancel(ctxErr, id, now);
      if err.Some? {
        return;
      }
      Tell(NoteCancel(id), now);
    }

    method MarkAsDispatched(ctxErr: Option<Error>, id: string, now: Time) returns (err: Option<Error>)
      requires Valid()
      modifies core`Tasks, core.heap, core.heap.Repr`index, core.Repr`task, hook
      ensures Valid()
      ensures (core.Tasks, err) == TaskList.MarkAsDispatched(old(core.Tasks), ctxErr, id, now)
      ensures hook.State() ==
        if err.Some? then old(hook.State())
        else Deliver(old(hook.State()), NoteDispatch(id), core.Tasks, None, hook.farFuture)
    {
      err := core.MarkAsDispatched(ctxErr, id, now);
      if err.Some? {
        return;
      }
      Tell(NoteDispatch(id), now);
    }

    method GetNext(fault: Fault) returns (r: Result<Task, Error>)
      requires Valid()
      ensures r == Answer(core.Tasks, fault)
    {
      if fault.Some? {
        return Err(fault.value);
      }
      r := core.GetNext();
    }

    method StartTimer(fault: Fault, now: Time)
      requires Valid()
      modifies hook
      ensures Valid()
      ensures hook.State() == Started(old(hook.State()), Answer(core.Tasks, fault))
    {
      var next := GetNext(fault);
      hook.StartTimer(next, now);
    }
  }

  // ---------- scheduler.Scheduler ----------

  datatype StepState =
    | TimerUpdateError(err: Error)
    | AwaitingNext(err: Error)
    | NextTask(task: Task, nextErr: Option<Error>)
    | DispatchErr(task: Task, err: Error)
    | StateDispatched(id: string)
    | TaskDone(id: string, taskErr: Option<Error>, updateErr: Option<Error>)

  /** What the function reserved in the event queue returns: the id of the dispatched task and the result of its work. */
  datatype TaskResult = TaskResult(id: string, err: Option<Error>)

  /** The case of the select that is taken. */
  datatype Ready = CtxDone(err: Error) | ResultReady(result: TaskResult) | TimerReady

  /** What `Step` meets outside: faults of contexts, `None` where they stay live, the work, and the texts of errors. */
  datatype Contexts = Contexts(
    atStart: Fault,                      // GetNext on behalf of StartTimer
    atNext: Fault,                       // GetNext in the timer branch
    beforeFetch: Option<Error>,          // the dispatcher gives up before it reaches the fetcher
    atMark: Option<Error>,
    atGet: Option<Error>,
    atDone: Option<Error>,
    world: World,
    text: Error -> string)

  /** How `Step` treats the result of the work: only a cancelled dispatcher leaves the task as it is. */
  function Outcome(err: Option<Error>, text: Error -> string): WorkOutcome {
    match err
    case None => Finished(None)
    case Some(e) => if e.ContextCanceled? then WorkCanceled else Finished(Some(text(e)))
  }

  function Ids(results: seq<TaskResult>): multiset<string> {
    if results == [] then multiset{}
    else Ids(results[..|results| - 1]) + multiset{results[|results| - 1].id}
  }

  lemma IdsSnoc(results: seq<TaskResult>, r: TaskResult)
    ensures Ids(results + [r]) == Ids(results) + multiset{r.id}
  {
    assert (results + [r])[..|results|] == results;
  }

  lemma {:induction false} IdsOfOneMore(before: seq<TaskResult>, r: TaskResult, after: seq<TaskResult>)
    ensures Ids(before + [r] + after) == Ids(before + after) + multiset{r.id}
    decreases |after|
  {
    if after == [] {
      assert before + [r] + after == before + [r] && before + after == before;
      IdsSnoc(before, r);
    } else {
      var n := |after| - 1;
      IdsOfOneMore(before, r, after[..n]);
      assert before + [r] + after == (before + [r] + after[..n]) + [after[n]];
      IdsSnoc(before + [r] + after[..n], after[n]);
      assert before + after == (before + after[..n]) + [after[n]];
      IdsSnoc(before + after[..n], after[n]);
    }
  }

  /** Taking one of the results out. */
  lemma IdsWithout(results: seq<TaskResult>, k: nat)
    requires k < |results|
    ensures
      var rest := results[..k] + results[k + 1..];
      && Ids(results) == Ids(rest) + multiset{results[k].id}
      && multiset(results) == multiset(rest) + multiset{results[k]}
  {
    assert results == results[..k] + [results[k]] + results[k + 1..];
    IdsOfOneMore(results[..k], results[k], results[k + 1..]);
  }

  predicate CanReceive(h: Hook, now: Time) {
    h.clock.Fired? || (h.clock.Armed? && h.clock.at <= now)
  }

  predicate NeedsRestart(getNextErr: Option<Error>, h: Hook) {
    getNextErr.Some? || h.lastErr.Some?
  }

  /** The hook as the prologue of `Step` leaves it. */
  function HookAfterPrologue(getNextErr: Option<Error>, h: Hook, ts: seq<Task>, fault: Fault): Hook {
    if NeedsRestart(getNextErr, h) then Started(Stopped(h), Answer(ts, fault)) else h
  }

  function PrologueEvents(s: Sys, fault: Fault): seq<Event> {
    if NeedsRestart(s.getNextErr, s.hook) then [StepEnter, StepRestart(fault), StepCheck] else [StepEnter]
  }

  /** The step system after the prologue. */
  function AfterPrologue(s: Sys, fault: Fault): Sys {
    var h := HookAfterPrologue(s.getNextErr, s.hook, s.ts, fault);
    if h.lastErr.Some? then s.(hook := h) else s.(hook := h, getNextErr := None, pc := Inside)
  }

  lemma PrologueRuns(s: Sys, fault: Fault)
    requires s.pc == Outside
    ensures Run(s, PrologueEvents(s, fault)) == AfterPrologue(s, fault)
  {
    if NeedsRestart(s.getNextErr, s.hook) {
      RunThree(s, StepEnter, StepRestart(fault), StepCheck);
      RestartRuns(s, fault);
    } else {
      RunOne(s, StepEnter);
    }
  }

  lemma RestartRuns(s: Sys, fault: Fault)
    requires s.pc == Outside && NeedsRestart(s.getNextErr, s.hook)
    ensures Apply(Apply(Apply(s, StepEnter), StepRestart(fault)), StepCheck) == AfterPrologue(s, fault)
  {
    var s1 := s.(hook := Stopped(s.hook), pc := TimerStopped);
    assert Apply(s, StepEnter) == s1;
    var h := Started(s1.hook, Answer(s.ts, fault));
    assert Apply(s1, StepRestart(fault)) == s1.(hook := h, pc := TimerRestarted);
  }

  /** The events after the prologue: a dispatch with its own notification, or one case of the select. */
  function BodyEvents(s: Sys, ready: Ready, ctx: Contexts): seq<Event> {
    if s.lastTask.Some? then
      [StepDispatch(ctx.beforeFetch.None?, ctx.atMark, ctx.atGet), Notify(NoteDispatch(s.lastTask.value.id), None)]
    else
      match ready
      case CtxDone(_) => [StepCancelled]
      case ResultReady(res) => [StepResult(res.id, Outcome(res.err, ctx.text), ctx.atDone)]
      case TimerReady => [Fire, StepReceive, StepGetNext(ctx.atNext), StepCompare]
  }

  datatype FetchResult = FetchResult(ts: seq<Task>, hook: Hook, marked: bool, r: Result<Task, Error>)

  /** The fetcher: `MarkAsDispatched`, its notification, `GetById`. */
  function FetchAlone(ts: seq<Task>, hook: Hook, id: string, ctx: Contexts, now: Time, farFuture: Time): FetchResult {
    var (ts', err) := TaskList.MarkAsDispatched(ts, ctx.atMark, id, now);
    if err.Some? then FetchResult(ts', hook, false, Err(err.value))
    else FetchResult(ts', Deliver(hook, NoteDispatch(id), ts', None, farFuture), true, TaskList.GetById(ts', ctx.atGet, id))
  }

  /** A dispatch whose notification is delivered before anything else happens. */
  function AfterDispatchAlone(s: Sys, next: Task, ctx: Contexts): Sys {
    var out := s.(pc := Outside, lastTask := None);
    if ctx.beforeFetch.Some? then out
    else
      var f := FetchAlone(s.ts, s.hook, next.id, ctx, s.now, s.farFuture);
      out.(ts := f.ts, hook := f.hook,
           queue := if f.r.Ok? then s.queue + multiset{next.id} else s.queue,
           log := s.log + (if f.marked then multiset{Marked(next.id)} else multiset{})
                        + (if f.r.Ok? then multiset{Obs.StateDispatched(next.id)} else multiset{}))
  }

  /** A refused dispatch makes no notification. */
  lemma RefusedThenNotify(s: Sys, next: Task, ctx: Contexts)
    requires s.pending == multiset{} && ctx.beforeFetch.None?
    requires TaskList.MarkAsDispatched(s.ts, ctx.atMark, next.id, s.now).1.Some?
    ensures AfterNotify(AfterDispatch(s, next, ctx.atMark, ctx.atGet), NoteDispatch(next.id), None)
            == AfterDispatchAlone(s, next, ctx)
  {
    var out := s.(pc := Outside, lastTask := None);
    assert AfterDispatch(s, next, ctx.atMark, ctx.atGet) == out;
    assert NoteDispatch(next.id) !in out.pending;
    assert s.queue + multiset{} == s.queue && s.log + multiset{} + multiset{} == s.log;
  }

  lemma MarkedThenNotify(s: Sys, next: Task, ctx: Contexts)
    requires s.pending == multiset{} && ctx.beforeFetch.None?
    requires TaskList.MarkAsDispatched(s.ts, ctx.atMark, next.id, s.now).1.None?
    ensures AfterNotify(AfterDispatch(s, next, ctx.atMark, ctx.atGet), NoteDispatch(next.id), None)
            == AfterDispatchAlone(s, next, ctx)
  {
    var n := NoteDispatch(next.id);
    assert s.pending + multiset{n} - multiset{n} == s.pending;
    var s1 := AfterDispatch(s, next, ctx.atMark, ctx.atGet);
    assert s1.hook == s.hook && s1.pending == s.pending + multiset{n};
    assert s.log + multiset{Marked(next.id)} + multiset{} == s.log + multiset{Marked(next.id)};
  }

  lemma DispatchThenNotify(s: Sys, next: Task, ctx: Contexts)
    requires s.pending == multiset{} && ctx.beforeFetch.None?
    ensures AfterNotify(AfterDispatch(s, next, ctx.atMark, ctx.atGet), NoteDispatch(next.id), None)
            == AfterDispatchAlone(s, next, ctx)
  {
    if TaskList.MarkAsDispatched(s.ts, ctx.atMark, next.id, s.now).1.Some? {
      RefusedThenNotify(s, next, ctx);
    } else {
      MarkedThenNotify(s, next, ctx);
    }
  }

  lemma DispatchStep(s: Sys, next: Task, ctx: Contexts)
    requires s.pc == Inside && s.lastTask == Some(next)
    ensures Apply(s, StepDispatch(ctx.beforeFetch.None?, ctx.atMark, ctx.atGet)) ==
            if ctx.beforeFetch.Some? then s.(pc := Outside, lastTask := None) else AfterDispatch(s, next, ctx.atMark, ctx.atGet)
  {
  }

  lemma DispatchSteps(s: Sys, next: Task, ctx: Contexts)
    requires s.pc == Inside && s.lastTask == Some(next) && s.pending == multiset{}
    ensures Apply(Apply(s, StepDispatch(ctx.beforeFetch.None?, ctx.atMark, ctx.atGet)), Notify(NoteDispatch(next.id), None))
            == AfterDispatchAlone(s, next, ctx)
  {
    DispatchStep(s, next, ctx);
    if ctx.beforeFetch.None? {
      DispatchThenNotify(s, next, ctx);
    } else {
      assert NoteDispatch(next.id) !in s.pending;
    }
  }

  lemma DispatchFields(s: Sys, next: Task, ctx: Contexts)
    ensures
      var s' := AfterDispatchAlone(s, next, ctx);
      && s' == s.(ts := s'.ts, hook := s'.hook, queue := s'.queue, log := s'.log, pc := Outside, lastTask := None)
      && if ctx.beforeFetch.Some? then s'.ts == s.ts && s'.hook == s.hook && s'.queue == s.queue
         else
           var f := FetchAlone(s.ts, s.hook, next.id, ctx, s.now, s.farFuture);
           && s'.ts == f.ts && s'.hook == f.hook
           && s'.queue == (if f.r.Ok? then s.queue + multiset{next.id} else s.queue)
           && (f.r.Ok? ==> s'.log[Obs.StateDispatched(next.id)] == s.log[Obs.StateDispatched(next.id)] + 1)
  {
  }

  lemma DispatchRuns(s: Sys, ready: Ready, ctx: Contexts)
    requires s.pc == Inside && s.lastTask.Some? && s.pending == multiset{}
    ensures Run(s, BodyEvents(s, ready, ctx)) == AfterDispatchAlone(s, s.lastTask.value, ctx)
  {
    var next := s.lastTask.value;
    RunTwo(s, StepDispatch(ctx.beforeFetch.None?, ctx.atMark, ctx.atGet), Notify(NoteDispatch(next.id), None));
    DispatchSteps(s, next, ctx);
  }

  /** The timer branch when nothing happens between its three looks at the repository. */
  function AfterTimerAlone(s: Sys, fault: Fault): Sys {
    var out := s.(hook := s.hook.(clock := Idle), pc := Outside);
    match Answer(s.ts, fault)
    case Err(err) => out.(getNextErr := Some(err))
    case Ok(next) =>
      if !s.hook.timerReset || s.hook.cachedMin.scheduledAt != next.scheduledAt then out
      else out.(lastTask := Some(next), getNextErr := None)
  }

  lemma TimerFields(s: Sys, fault: Fault)
    ensures
      var s' := AfterTimerAlone(s, fault);
      && s' == s.(hook := s.hook.(clock := Idle), pc := Outside, lastTask := s'.lastTask, getNextErr := s'.getNextErr)
      && match Answer(s.ts, fault)
         case Err(err) => s'.lastTask == s.lastTask && s'.getNextErr == Some(err)
         case Ok(next) =>
           if !s.hook.timerReset || s.hook.cachedMin.scheduledAt != next.scheduledAt
           then s'.lastTask == s.lastTask && s'.getNextErr == s.getNextErr
           else s'.lastTask == Some(next) && s'.getNextErr == None
  {
  }

  lemma TimerRuns(s: Sys, fault: Fault)
    requires Selecting(s) && CanReceive(s.hook, s.now)
    ensures Run(s, [Fire, StepReceive, StepGetNext(fault), StepCompare]) == AfterTimerAlone(s, fault)
  {
    RunThree(s, Fire, StepReceive, StepGetNext(fault));
    RunSnoc(s, [Fire, StepReceive, StepGetNext(fault)], StepCompare);
    assert [Fire, StepReceive, StepGetNext(fault)] + [StepCompare] == [Fire, StepReceive, StepGetNext(fault), StepCompare];
    ReceiveRuns(s);
  }

  lemma ReceiveRuns(s: Sys)
    requires Selecting(s) && CanReceive(s.hook, s.now)
    ensures Apply(Apply(s, Fire), StepReceive) == s.(hook := s.hook.(clock := Idle), pc := Received(s.hook.clock.at))
  {
  }

  function StepEvents(s: Sys, ready: Ready, ctx: Contexts): seq<Event> {
    if AfterPrologue(s, ctx.atStart).pc == Outside then PrologueEvents(s, ctx.atStart)
    else PrologueEvents(s, ctx.atStart) + BodyEvents(s, ready, ctx)
  }

  /** What the part after the prologue makes of the system. */
  function AfterBody(s: Sys, ready: Ready, ctx: Contexts): Sys {
    if s.lastTask.Some? then AfterDispatchAlone(s, s.lastTask.value, ctx)
    else match ready
      case CtxDone(_) => s.(pc := Outside)
      case ResultReady(res) => AfterResult(s, res.id, Outcome(res.err, ctx.text), ctx.atDone)
      case TimerReady => AfterTimerAlone(s, ctx.atNext)
  }

  lemma PrologueKeepsHook(s: Sys, fault: Fault)
    ensures TimerSafety.Inv(s) && s.pc == Outside ==> TimerSafety.HookOk(AfterPrologue(s, fault).hook, s.now)
  {
    if TimerSafety.Inv(s) && s.pc == Outside {
      PrologueRuns(s, fault);
      TimerSafety.RunKeeps(s, PrologueEvents(s, fault));
    }
  }

  /** The select can take the chosen case. */
  predicate Enabled(s: Sys, ready: Ready, ctx: Contexts) {
    var s1 := AfterPrologue(s, ctx.atStart);
    s1.pc == Inside && s.lastTask.None? ==>
      match ready
      case CtxDone(_) => true
      case ResultReady(res) => res.id in s.queue
      case TimerReady => CanReceive(s1.hook, s.now)
  }

  lemma BodyRuns(s: Sys, ready: Ready, ctx: Contexts)
    requires s.pc == Inside && s.pending == multiset{}
    requires s.lastTask.None? && ready.ResultReady? ==> ready.result.id in s.queue
    requires s.lastTask.None? && ready.TimerReady? ==> CanReceive(s.hook, s.now)
    ensures Run(s, BodyEvents(s, ready, ctx)) == AfterBody(s, ready, ctx)
  {
    if s.lastTask.Some? {
      DispatchRuns(s, ready, ctx);
    } else if ready.TimerReady? {
      TimerRuns(s, ctx.atNext);
    } else {
      WaitRuns(s, ready, ctx);
    }
  }

  lemma WaitRuns(s: Sys, ready: Ready, ctx: Contexts)
    requires Selecting(s) && !ready.TimerReady? && (ready.ResultReady? ==> ready.result.id in s.queue)
    ensures Run(s, BodyEvents(s, ready, ctx)) == AfterBody(s, ready, ctx)
  {
    if ready.CtxDone? {
      RunOne(s, StepCancelled);
    } else {
      ResultRuns(s, ready.result.id, Outcome(ready.result.err, ctx.text), ctx.atDone);
    }
  }

  lemma ResultRuns(s: Sys, id: string, outcome: WorkOutcome, ctxErr: Option<Error>)
    requires Selecting(s) && id in s.queue
    ensures Run(s, [StepResult(id, outcome, ctxErr)]) == AfterResult(s, id, outcome, ctxErr)
  {
    var e := StepResult(id, outcome, ctxErr);
    RunOne(s, e);
    assert Apply(s, e) == AfterResult(s, id, outcome, ctxErr);
  }

  /** A task accepted by the timer branch is due. */
  lemma BodyAcceptsDueTasks(s: Sys, ready: Ready, ctx: Contexts)
    requires s.pc == Inside && s.lastTask.None? && ready.TimerReady? ==> CanReceive(s.hook, s.now)
    ensures
      s.pc == Inside && TimerSafety.HookOk(s.hook, s.now) && AfterBody(s, ready, ctx).lastTask.Some? ==>
        AfterBody(s, ready, ctx).lastTask.value.scheduledAt <= s.now
  {
  }

  lemma ResultFields(s: Sys, id: string, outcome: WorkOutcome, ctxErr: Option<Error>)
    ensures
      var s' := AfterResult(s, id, outcome, ctxErr);
      && s' == s.(pc := Outside, queue := s.queue - multiset{id}, log := s'.log, ts := s'.ts, abandoned := s'.abandoned)
      && s'.log[StateTaskDone(id)] == s.log[StateTaskDone(id)] + 1
      && s'.abandoned == s.abandoned + (if outcome.WorkCanceled? then multiset{id} else multiset{})
      && s'.ts == match outcome
                  case WorkCanceled => s.ts
                  case Finished(workErr) => TaskList.MarkAsDone(s.ts, ctxErr, id, workErr, s.now).0
  {
  }

  /** What `Step` makes of the system the prologue left. */
  function AfterStart(s: Sys, ready: Ready, ctx: Contexts): Sys {
    if s.pc == Outside then s else AfterBody(s, ready, ctx)
  }

  lemma StepRuns(s: Sys, ready: Ready, ctx: Contexts)
    requires s.pc == Outside && s.pending == multiset{} && Enabled(s, ready, ctx)
    ensures Run(s, StepEvents(s, ready, ctx)) == AfterStart(AfterPrologue(s, ctx.atStart), ready, ctx)
  {
    var s1 := AfterPrologue(s, ctx.atStart);
    PrologueRuns(s, ctx.atStart);
    if s1.pc != Outside {
      BodyRuns(s1, ready, ctx);
      RunAppend(s, PrologueEvents(s, ctx.atStart), BodyEvents(s, ready, ctx));
    }
  }

  /** What the returned state says about the step that was taken. */
  predicate Reports(s: Sys, s': Sys, state: StepState) {
    match state
    case TimerUpdateError(err) => s'.hook.lastErr == Some(err)
    case AwaitingNext(_) => s'.ts == s.ts && s'.lastTask.None?
    case NextTask(task, None) => s'.lastTask == Some(task) && s'.hook.cachedMin.scheduledAt == task.scheduledAt
    case NextTask(_, Some(_)) => s'.lastTask.None?
    case DispatchErr(task, _) => s.lastTask == Some(task) && s'.lastTask.None? && s'.queue == s.queue
    case StateDispatched(id) => s'.log[Obs.StateDispatched(id)] == s.log[Obs.StateDispatched(id)] + 1
    case TaskDone(id, _, _) => s'.log[StateTaskDone(id)] == s.log[StateTaskDone(id)] + 1
  }

  lemma StepFacts(s: Sys, ready: Ready, ctx: Contexts)
    requires s.pc == Outside && s.pending == multiset{} && Enabled(s, ready, ctx)
    ensures
      var s' := Run(s, StepEvents(s, ready, ctx));
      && s' == AfterStart(AfterPrologue(s, ctx.atStart), ready, ctx)
      && (TimerSafety.Inv(s) && AfterPrologue(s, ctx.atStart).pc == Inside && s'.lastTask.Some? ==>
            s'.lastTask.value.scheduledAt <= s.now)
  {
    StepRuns(s, ready, ctx);
    PrologueKeepsHook(s, ctx.atStart);
    BodyAcceptsDueTasks(AfterPrologue(s, ctx.atStart), ready, ctx);
  }

  /**
   How a step changes the reserved results: a dispatch adds the one result of the work of the task it
   fetched, and the result that is reported as done is one that was reserved.
   */
  predicate Accounts(before: seq<TaskResult>, after: seq<TaskResult>, ts: seq<Task>, state: StepState, w: World) {
    match state
    case StateDispatched(id) =>
      TaskList.Has(ts, id) && after == before + [TaskResult(id, WorkResult(ts[TaskList.IndexOf(ts, id)], w))]
    case TaskDone(id, err, _) => multiset(before) == multiset(after) + multiset{TaskResult(id, err)}
    case _ => after == before
  }

  /**
   What becomes of a task whose result was received: without an error it is done, with one it failed
   and keeps the text, and after a cancelled dispatch it stays as it is.
   */
  ghost predicate Records(before: seq<Task>, res: TaskResult, ctx: Contexts, now: Time, after: seq<Task>, err: Option<Error>) {
    match res.err
    case None => Effects.Finishes(before, ctx.atDone, res.id, None, now, after, err)
    case Some(e) =>
      if e == ContextCanceled then after == before && err.None?
      else Effects.Finishes(before, ctx.atDone, res.id, Some(ctx.text(e)), now, after, err)
  }

  /** Whether the dispatch was cancelled before its work was done. */
  function AbandonedBy(res: TaskResult): multiset<string> {
    if res.err == Some(ContextCanceled) then multiset{res.id} else multiset{}
  }

  /** The step received the result that the select chose, and recorded it. */
  ghost predicate TookResult(s: Sys, ready: Ready, ctx: Contexts, s': Sys, state: StepState) {
    state.TaskDone? ==>
      && ready == ResultReady(TaskResult(state.id, state.taskErr))
      && Records(s.ts, ready.result, ctx, s.now, s'.ts, state.updateErr)
      && s'.abandoned == s.abandoned + AbandonedBy(ready.result)
  }

  /** The error in the returned state is the one that was met. */
  ghost predicate NamesError(s: Sys, ready: Ready, ctx: Contexts, s': Sys, state: StepState) {
    match state
    case AwaitingNext(err) => ready == CtxDone(err)
    case DispatchErr(task, err) =>
      var refusal := TaskList.MarkAsDispatched(s.ts, ctx.atMark, task.id, s.now).1;
      Some(err) == if ctx.beforeFetch.Some? then ctx.beforeFetch else if refusal.Some? then refusal else ctx.atGet
    case NextTask(_, Some(err)) =>
      var next := Answer(s.ts, ctx.atNext);
      if next.Err? then err == next.error && s'.getNextErr == Some(err)
      else err == ScheduleStoppedOrChanged
    case _ => true
  }

  /** A failure of `GetNext` is kept for the next step only. */
  ghost predicate KeepsError(s: Sys, ctx: Contexts, s': Sys, state: StepState) {
    !state.TimerUpdateError? ==>
      s'.getNextErr == if state.NextTask? && Answer(s.ts, ctx.atNext).Err? then state.nextErr else None
  }

  /** The returned state says what the step did, and every reserved result is accounted for. */
  ghost predicate Told(s: Sys, results: seq<TaskResult>, ready: Ready, ctx: Contexts, s': Sys, results': seq<TaskResult>,
                       state: StepState)
  {
    && Reports(s, s', state) && Accounts(results, results', s'.ts, state, ctx.world)
    && TookResult(s, ready, ctx, s', state) && NamesError(s, ready, ctx, s', state) && KeepsError(s, ctx, s', state)
  }

  lemma ToldFromStart(s: Sys, results: seq<TaskResult>, ready: Ready, ctx: Contexts, s': Sys, results': seq<TaskResult>,
                      state: StepState)
    requires Told(AfterPrologue(s, ctx.atStart), results, ready, ctx, s', results', state)
    ensures Told(s, results, ready, ctx, s', results', state)
  {
  }

  lemma WaitTold(s: Sys, results: seq<TaskResult>, err: Error, ctx: Contexts)
    requires s.lastTask.None? && s.getNextErr.None?
    ensures Told(s, results, CtxDone(err), ctx, s.(pc := Outside), results, AwaitingNext(err))
  {
  }

  lemma ResultTold(s: Sys, results: seq<TaskResult>, res: TaskResult, ctx: Contexts, results': seq<TaskResult>, err: Option<Error>)
    requires s.getNextErr.None? && multiset(results) == multiset(results') + multiset{res}
    requires Records(s.ts, res, ctx, s.now, AfterResult(s, res.id, Outcome(res.err, ctx.text), ctx.atDone).ts, err)
    ensures
      Told(s, results, ResultReady(res), ctx, AfterResult(s, res.id, Outcome(res.err, ctx.text), ctx.atDone), results',
           TaskDone(res.id, res.err, err))
  {
    ResultFields(s, res.id, Outcome(res.err, ctx.text), ctx.atDone);
  }

  lemma TimerTold(s: Sys, results: seq<TaskResult>, ctx: Contexts, state: StepState)
    requires s.lastTask.None? && s.getNextErr.None? && AfterDecision(s, Answer(s.ts, ctx.atNext), state)
    ensures Told(s, results, TimerReady, ctx, AfterTimerAlone(s, ctx.atNext), results, state)
  {
    TimerFields(s, ctx.atNext);
  }

  /** What `Step` returns for the answer of `GetNext`. */
  ghost predicate AfterDecision(s: Sys, next: Result<Task, Error>, state: StepState) {
    match next
    case Err(err) => state == NextTask(ZERO_TASK, Some(err))
    case Ok(task) =>
      if s.hook.timerReset && s.hook.cachedMin.scheduledAt == task.scheduledAt then state == NextTask(task, None)
      else state == NextTask(ZERO_TASK, Some(ScheduleStoppedOrChanged))
  }

  lemma DispatchTold(s: Sys, results: seq<TaskResult>, next: Task, ready: Ready, ctx: Contexts, results': seq<TaskResult>,
                     state: StepState)
    requires s.lastTask == Some(next) && s.getNextErr.None?
    requires DispatchAnswers(s, results, next, ctx, results', state)
    ensures Told(s, results, ready, ctx, AfterDispatchAlone(s, next, ctx), results', state)
  {
    DispatchFields(s, next, ctx);
    FetchFails(s, next.id, ctx);
    FetchedIsStored(s, next.id, ctx);
  }

  /** What `dispatchTask` returns and reserves. */
  ghost predicate DispatchAnswers(s: Sys, results: seq<TaskResult>, next: Task, ctx: Contexts, results': seq<TaskResult>,
                                  state: StepState)
  {
    if ctx.beforeFetch.Some? then state == DispatchErr(next, ctx.beforeFetch.value) && results' == results
    else
      match FetchAlone(s.ts, s.hook, next.id, ctx, s.now, s.farFuture).r
      case Err(err) => state == DispatchErr(next, err) && results' == results
      case Ok(task) =>
        state == StepState.StateDispatched(next.id) && results' == results + [TaskResult(next.id, WorkResult(task, ctx.world))]
  }

  /** The fetcher fails with the refusal, or with the context's error. */
  lemma FetchFails(s: Sys, id: string, ctx: Contexts)
    ensures
      var r := FetchAlone(s.ts, s.hook, id, ctx, s.now, s.farFuture).r;
      var refusal := TaskList.MarkAsDispatched(s.ts, ctx.atMark, id, s.now).1;
      r.Err? ==> Some(r.error) == if refusal.Some? then refusal else ctx.atGet
  {
    var ts' := TaskList.MarkAsDispatched(s.ts, ctx.atMark, id, s.now).0;
    if TaskList.MarkAsDispatched(s.ts, ctx.atMark, id, s.now).1.None? {
      var i := TaskList.IndexOf(s.ts, id);
      assert i < |ts'| && ts'[i].id == id;
    }
  }

  lemma FetchedIsStored(s: Sys, id: string, ctx: Contexts)
    ensures
      var f := FetchAlone(s.ts, s.hook, id, ctx, s.now, s.farFuture);
      f.r.Ok? ==> TaskList.Has(f.ts, id) && f.r.value == f.ts[TaskList.IndexOf(f.ts, id)]
  {
  }

  class Scheduler {
    const repo: Repository
    var lastTask: Option<Task>
    var getNextErr: Option<Error>
    // the results reserved in the event queue
    var reserved: seq<TaskResult>

    constructor (repo: Repository)
      ensures this.repo == repo && lastTask == None && getNextErr == None && reserved == []
    {
      this.repo := repo;
      lastTask, getNextErr, reserved := None, None, [];
    }

    /** The objects hold what `s` says, nobody is inside `Step`, and every notification has been delivered. */
    ghost predicate Represents(s: Sys)
      reads this, repo.core, repo.hook
    {
      && s.ts == repo.core.Tasks && s.hook == repo.hook.State() && s.farFuture == repo.hook.farFuture
      && s.lastTask == lastTask && s.getNextErr == getNextErr && s.queue == Ids(reserved)
      && s.pc == Outside && s.pending == multiset{}
    }

    /** Restarts the timer if the last fetch or the last timer update failed. */
    method Prologue(fault: Fault, now: Time) returns (err: Option<Error>)
      requires repo.Valid()
      modifies this`getNextErr, repo.hook
      ensures repo.Valid()
      ensures repo.hook.State() == HookAfterPrologue(old(getNextErr), old(repo.hook.State()), repo.core.Tasks, fault)
      ensures err == repo.hook.State().lastErr
      ensures getNextErr == if err.Some? then old(getNextErr) else None
    {
      if getNextErr.Some? || repo.hook.lastErr.Some? {
        repo.hook.StopTimer();
        repo.StartTimer(fault, now);
        if repo.hook.lastErr.Some? {
          return repo.hook.lastErr;
        }
      }
      getNextErr := None;
      return None;
    }

    /** `Prologue`, and what the objects represent then. */
    method Begin(fault: Fault, now: Time, ghost s: Sys) returns (err: Option<Error>)
      requires repo.Valid() && Represents(s)
      modifies this`getNextErr, repo.hook
      ensures
        var s1 := AfterPrologue(s, fault);
        && repo.Valid() && Represents(s1.(pc := Outside))
        && err == s1.hook.lastErr && s1.pc == if err.Some? then Outside else Inside
    {
      err := Prologue(fault, now);
    }

    /** The closure that `dispatchTask` hands to the dispatcher. */
    method Fetch(id: string, ctx: Contexts, now: Time) returns (r: Result<Task, Error>)
      requires repo.Valid()
      modifies repo.core`Tasks, repo.core.heap, repo.core.heap.Repr`index, repo.core.Repr`task, repo.hook
      ensures repo.Valid()
      ensures
        var f := FetchAlone(old(repo.core.Tasks), old(repo.hook.State()), id, ctx, now, repo.hook.farFuture);
        repo.core.Tasks == f.ts && repo.hook.State() == f.hook && r == f.r
    {
      var err := repo.MarkAsDispatched(ctx.atMark, id, now);
      if err.Some? {
        return Err(err.value);
      }
      r := repo.core.GetById(ctx.atGet, id);
    }

    /** Reserves the result of the work if the dispatcher returns a channel for it. */
    method Reserve(id: string, fetched: Result<Task, Error>, w: World)
      modifies this`reserved
      ensures reserved ==
        if fetched.Ok? then old(reserved) + [TaskResult(id, WorkResult(fetched.value, w))] else old(reserved)
    {
      var ok, result := ReservedResult(None, fetched, w);
      if ok {
        reserved := reserved + [TaskResult(id, result)];
      }
    }

    /** The dispatcher reached a worker, which runs the fetcher. */
    method FetchAndReserve(id: string, ctx: Contexts, now: Time) returns (r: Result<Task, Error>)
      requires repo.Valid()
      modifies this`reserved
      modifies repo.core`Tasks, repo.core.heap, repo.core.heap.Repr`index, repo.core.Repr`task, repo.hook
      ensures repo.Valid()
      ensures
        var f := FetchAlone(old(repo.core.Tasks), old(repo.hook.State()), id, ctx, now, repo.hook.farFuture);
        repo.core.Tasks == f.ts && repo.hook.State() == f.hook && r == f.r
      ensures reserved ==
        if r.Ok? then old(reserved) + [TaskResult(id, WorkResult(r.value, ctx.world))] else old(reserved)
    {
      r := Fetch(id, ctx, now);
      assert repo.Valid();
      Reserve(id, r, ctx.world);
    }

    /** `dispatchTask` for a first attempt: hands the fetcher to the dispatcher and reserves the result. */
    method DispatchTask(next: Task, ready: Ready, ctx: Contexts, now: Time, ghost s: Sys) returns (state: StepState)
      requires repo.Valid()
      requires lastTask.None? && s.lastTask == Some(next) && s.getNextErr.None? && s.now == now
      requires Represents(s.(pc := Outside, lastTask := None))
      modifies this`reserved
      modifies repo.core`Tasks, repo.core.heap, repo.core.heap.Repr`index, repo.core.Repr`task, repo.hook
      ensures repo.Valid() && Represents(AfterDispatchAlone(s, next, ctx))
      ensures Told(s, old(reserved), ready, ctx, AfterDispatchAlone(s, next, ctx), reserved, state)
    {
      DispatchFields(s, next, ctx);
      if ctx.beforeFetch.Some? {
        state := DispatchErr(next, ctx.beforeFetch.value);
      } else {
        var r := FetchAndReserve(next.id, ctx, now);
        if r.Ok? {
          IdsSnoc(old(reserved), TaskResult(next.id, WorkResult(r.value, ctx.world)));
        }
        state := if r.Err? then DispatchErr(next, r.error) else StepState.StateDispatched(next.id);
      }
      DispatchTold(s, old(reserved), next, ready, ctx, reserved, state);
    }

    /** Receives a result from the event queue. */
    method Take(res: TaskResult)
      requires res in reserved
      modifies this`reserved
      ensures multiset(old(reserved)) == multiset(reserved) + multiset{res}
      ensures Ids(reserved) == Ids(old(reserved)) - multiset{res.id}
    {
      var k :| 0 <= k < |reserved| && reserved[k] == res;
      IdsWithout(reserved, k);
      reserved := reserved[..k] + reserved[k + 1..];
    }

    /** `MarkAsDone` unless the dispatcher was cancelled. */
    method Record(res: TaskResult, ctx: Contexts, now: Time) returns (err: Option<Error>)
      requires repo.Valid()
      modifies repo.core`Tasks, repo.core.Repr`task
      ensures repo.Valid()
      ensures repo.core.Tasks ==
        match Outcome(res.err, ctx.text)
        case WorkCanceled => old(repo.core.Tasks)
        case Finished(workErr) => TaskList.MarkAsDone(old(repo.core.Tasks), ctx.atDone, res.id, workErr, now).0
      ensures Records(old(repo.core.Tasks), res, ctx, now, repo.core.Tasks, err)
    {
      err := None;
      if res.err != Some(ContextCanceled) {
        var workErr := if res.err.None? then None else Some(ctx.text(res.err.value));
        err := repo.core.MarkAsDone(ctx.atDone, res.id, workErr, now);
      }
    }

    /** The result is taken and recorded. */
    method TakeAndRecord(res: TaskResult, ctx: Contexts, now: Time, ghost s: Sys) returns (err: Option<Error>)
      requires repo.Valid() && res in reserved
      requires Represents(s.(pc := Outside)) && s.now == now
      modifies this`reserved, repo.core`Tasks, repo.core.Repr`task
      ensures repo.Valid() && Represents(AfterResult(s, res.id, Outcome(res.err, ctx.text), ctx.atDone))
      ensures Records(old(repo.core.Tasks), res, ctx, now, repo.core.Tasks, err)
      ensures multiset(old(reserved)) == multiset(reserved) + multiset{res}
    {
      ResultFields(s, res.id, Outcome(res.err, ctx.text), ctx.atDone);
      Take(res);
      assert repo.Valid();
      err := Record(res, ctx, now);
    }

    /** The result branch. */
    method TakeResult(res: TaskResult, ctx: Contexts, now: Time, ghost s: Sys) returns (state: StepState)
      requires repo.Valid() && res in reserved
      requires Represents(s.(pc := Outside)) && s.now == now && s.lastTask.None? && s.getNextErr.None?
      modifies this`reserved, repo.core`Tasks, repo.core.Repr`task
      ensures repo.Valid() && Represents(AfterResult(s, res.id, Outcome(res.err, ctx.text), ctx.atDone))
      ensures state.TaskDone? && Records(old(repo.core.Tasks), res, ctx, now, repo.core.Tasks, state.updateErr)
      ensures
        var s' := AfterResult(s, res.id, Outcome(res.err, ctx.text), ctx.atDone);
        Told(s, old(reserved), ResultReady(res), ctx, s', reserved, state)
    {
      var err := TakeAndRecord(res, ctx, now, s);
      ResultTold(s, old(reserved), res, ctx, reserved, err);
      state := TaskDone(res.id, res.err, err);
    }

    /** Takes the firing, fetches the next task, and compares its instant with the timer's. */
    method Look(fault: Fault, now: Time) returns (next: Result<Task, Error>, matches: bool)
      requires repo.Valid() && CanReceive(repo.hook.State(), now)
      modifies repo.hook`clock
      ensures repo.Valid() && repo.hook.State() == old(repo.hook.State()).(clock := Idle)
      ensures next == Answer(repo.core.Tasks, fault)
      ensures next.Ok? ==> (matches <==> repo.hook.timerReset && repo.hook.cachedMin.scheduledAt == next.value.scheduledAt)
    {
      repo.hook.Receive();
      assert repo.Valid();
      next := repo.GetNext(fault);
      matches := false;
      if next.Ok? {
        var at, ok := repo.hook.NextScheduled();
        matches := ok && at == next.value.scheduledAt;
      }
    }

    /** What the timer branch makes of its two answers; `setGetNextResult` for the first and the last. */
    method Decide(next: Result<Task, Error>, matches: bool) returns (state: StepState)
      modifies this`lastTask, this`getNextErr
      ensures
        match next
        case Err(err) =>
          lastTask == None && getNextErr == Some(err) && state == NextTask(ZERO_TASK, Some(err))
        case Ok(task) =>
          if matches then lastTask == Some(task) && getNextErr == None && state == NextTask(task, None)
          else && lastTask == old(lastTask) && getNextErr == old(getNextErr)
               && state == NextTask(ZERO_TASK, Some(ScheduleStoppedOrChanged))
    {
      if next.Err? {
        lastTask, getNextErr := None, Some(next.error);
        state := NextTask(ZERO_TASK, Some(next.error));
      } else if !matches {
        state := NextTask(ZERO_TASK, Some(ScheduleStoppedOrChanged));
      } else {
        lastTask, getNextErr := Some(next.value), None;
        state := NextTask(next.value, None);
      }
    }

    method LookAndDecide(ctx: Contexts, now: Time, ghost s: Sys) returns (state: StepState)
      requires repo.Valid() && Represents(s.(pc := Outside)) && s.lastTask.None? && CanReceive(s.hook, now)
      modifies this`lastTask, this`getNextErr, repo.hook`clock
      ensures repo.Valid() && Represents(AfterTimerAlone(s, ctx.atNext))
      ensures AfterDecision(s, Answer(s.ts, ctx.atNext), state)
    {
      TimerFields(s, ctx.atNext);
      var next, matches := Look(ctx.atNext, now);
      state := Decide(next, matches);
    }

    /** The timer branch: fetches the next task and accepts it if the timer was set for its instant. */
    method TakeTimer(ctx: Contexts, now: Time, ghost s: Sys) returns (state: StepState)
      requires repo.Valid() && Represents(s.(pc := Outside)) && s.lastTask.None? && s.getNextErr.None? && CanReceive(s.hook, now)
      modifies this`lastTask, this`getNextErr, repo.hook`clock
      ensures repo.Valid() && Represents(AfterTimerAlone(s, ctx.atNext))
      ensures Told(s, reserved, TimerReady, ctx, AfterTimerAlone(s, ctx.atNext), reserved, state)
    {
      state := LookAndDecide(ctx, now, s);
      TimerTold(s, reserved, ctx, state);
    }

    /** One case of the select. */
    method Select(ready: Ready, ctx: Contexts, now: Time, ghost s: Sys) returns (state: StepState)
      requires repo.Valid() && Represents(s.(pc := Outside)) && s.now == now && s.lastTask.None? && s.getNextErr.None?
      requires ready.ResultReady? ==> ready.result in reserved
      requires ready.TimerReady? ==> CanReceive(s.hook, s.now)
      modifies this`lastTask, this`getNextErr, this`reserved
      modifies repo.core`Tasks, repo.core.Repr`task, repo.hook`clock
      ensures repo.Valid() && Represents(AfterBody(s, ready, ctx))
      ensures Told(s, old(reserved), ready, ctx, AfterBody(s, ready, ctx), reserved, state)
    {
      match ready {
        case CtxDone(ctxErr) =>
          assert AfterBody(s, ready, ctx) == s.(pc := Outside);
          WaitTold(s, reserved, ctxErr, ctx);
          state := AwaitingNext(ctxErr);
        case ResultReady(res) =>
          assert AfterBody(s, ready, ctx) == AfterResult(s, res.id, Outcome(res.err, ctx.text), ctx.atDone);
          state := TakeResult(res, ctx, now, s);
        case TimerReady =>
          assert AfterBody(s, ready, ctx) == AfterTimerAlone(s, ctx.atNext);
          state := TakeTimer(ctx, now, s);
      }
    }

    /** The rest of `Step` after the prologue. */
    method Proceed(ready: Ready, ctx: Contexts, now: Time, ghost s: Sys) returns (state: StepState)
      requires repo.Valid() && Represents(s.(pc := Outside)) && s.now == now && s.getNextErr.None?
      requires s.lastTask.None? && ready.ResultReady? ==> ready.result in reserved
      requires s.lastTask.None? && ready.TimerReady? ==> CanReceive(s.hook, s.now)
      modifies this`lastTask, this`getNextErr, this`reserved
      modifies repo.core`Tasks, repo.core.heap, repo.core.heap.Repr`index, repo.core.Repr`task, repo.hook
      ensures repo.Valid() && Represents(AfterBody(s, ready, ctx))
      ensures Told(s, old(reserved), ready, ctx, AfterBody(s, ready, ctx), reserved, state)
    {
      if lastTask.Some? {
        var next := lastTask.value;
        lastTask := None;
        state := DispatchTask(next, ready, ctx, now, s);
      } else {
        state := Select(ready, ctx, now, s);
      }
    }

    /** The case of the select can be taken. */
    ghost predicate CanTake(s: Sys, ready: Ready, ctx: Contexts)
      reads this
    {
      var s1 := AfterPrologue(s, ctx.atStart);
      s1.pc == Inside && s.lastTask.None? ==>
        match ready
        case CtxDone(_) => true
        case ResultReady(res) => res in reserved
        case TimerReady => CanReceive(s1.hook, s.now)
    }

    lemma TakesEnabled(s: Sys, ready: Ready, ctx: Contexts)
      requires Represents(s) && CanTake(s, ready, ctx)
      ensures Enabled(s, ready, ctx)
    {
      if ready.ResultReady? && ready.result in reserved {
        var k :| 0 <= k < |reserved| && reserved[k] == ready.result;
        IdsWithout(reserved, k);
      }
    }

    /** `Step` once the prologue is over, which began in `s` and ended in `s1`. */
    method Finish(err: Option<Error>, ready: Ready, ctx: Contexts, now: Time, ghost s: Sys, ghost s1: Sys)
      returns (state: StepState)
      requires s1 == AfterPrologue(s, ctx.atStart) && s.now == now
      requires repo.Valid() && Represents(s1.(pc := Outside))
      requires s1.pc == Inside ==> s1.getNextErr.None?
      requires err == s1.hook.lastErr && s1.pc == (if err.Some? then Outside else Inside)
      requires s1.pc == Inside && s1.lastTask.None? && ready.ResultReady? ==> ready.result in reserved
      requires s1.pc == Inside && s1.lastTask.None? && ready.TimerReady? ==> CanReceive(s1.hook, s1.now)
      modifies this`lastTask, this`getNextErr, this`reserved
      modifies repo.core`Tasks, repo.core.heap, repo.core.heap.Repr`index, repo.core.Repr`task, repo.hook
      ensures repo.Valid() && Represents(AfterStart(s1, ready, ctx))
      ensures Told(s, old(reserved), ready, ctx, AfterStart(s1, ready, ctx), reserved, state)
      ensures state.NextTask? ==> s1.pc == Inside
    {
      if err.Some? {
        state := TimerUpdateError(err.value);
      } else {
        state := Proceed(ready, ctx, now, s1);
      }
      ToldFromStart(s, old(reserved), ready, ctx, AfterStart(s1, ready, ctx), reserved, state);
    }

    /**
     `Step` without interference is a run of the step system, and the state it returns is what that
     run did. `now` is the clock, `ready` the case of the select that is taken.
     */
    method Step(ready: Ready, ctx: Contexts, now: Time, ghost s: Sys) returns (state: StepState, ghost s': Sys)
      requires repo.Valid() && Represents(s) && s.now == now && CanTake(s, ready, ctx)
      modifies this`lastTask, this`getNextErr, this`reserved
      modifies repo.core`Tasks, repo.core.heap, repo.core.heap.Repr`index, repo.core.Repr`task, repo.hook
      ensures repo.Valid() && Represents(s')
      ensures s' == Run(s, StepEvents(s, ready, ctx)) && Told(s, old(reserved), ready, ctx, s', reserved, state)
      ensures TimerSafety.Inv(s) && state.NextTask? && state.nextErr.None? ==> state.task.scheduledAt <= now
    {
      ghost var s1 := AfterPrologue(s, ctx.atStart);
      s' := Run(s, StepEvents(s, ready, ctx));
      TakesEnabled(s, ready, ctx);
      StepFacts(s, ready, ctx);
      var err := Begin(ctx.atStart, now, s);
      state := Finish(err, ready, ctx, now, s, s1);
    }
  }
}
