/** The hook timer never oversleeps and a firing never comes early, whatever the interleaving. */
module TimerSafety {
  import opened Wrappers
  import opened Def
  import opened HookTimer
  import opened TaskList
  import opened TaskListLaws
  import opened System

  // ---------- the invariant ----------

  /** The hook's fields and the clock agree. */
  predicate HookOk(h: Hook, now: Time) {
    && (!h.isTimerStarted ==> h.cachedMin == ZERO_TASK)
    && (h.timerReset <==> h.cachedMin.id != "")
    && (h.cachedMin.id == "" ==> h.cachedMin == ZERO_TASK && h.clock == Idle)
    && (h.cachedMin.id != "" ==> h.cachedMin.state == Scheduled && TaskOk(h.cachedMin) && h.cachedMin.createdAt <= now
                                 && h.lastErr.None?)
    && (h.clock != Idle ==> h.clock.at == h.cachedMin.scheduledAt)
    && (h.clock.Fired? ==> h.clock.at <= now)
    // the clock goes idle under a cached task only when its firing is received
    && (h.cachedMin.id != "" && h.clock == Idle ==> h.cachedMin.scheduledAt <= now)
  }

  ghost predicate StoreOk(ts: seq<Task>, now: Time) {
    WellFormed(ts) && forall i :: 0 <= i < |ts| ==> ts[i].createdAt <= now
  }

  /** The notification carries the instant `at`. */
  predicate Carries(n: Note, at: Time) {
    match n
    case NoteAdd(param) => NormalizeTime(param.scheduledAt.GetOr(0)) == at
    case NoteUpdate(_, param) => param.scheduledAt.Some? && NormalizeTime(param.scheduledAt.value) == at
    case _ => false
  }

  /** The instant `at` is not before the cached one, or a notification that carries it is on its way. */
  ghost predicate Covers(cached: Task, pending: multiset<Note>, at: Time) {
    || (cached.id != "" && cached.scheduledAt <= at)
    || exists n :: n in pending && Carries(n, at)
  }

  ghost predicate Covered(ts: seq<Task>, h: Hook, pending: multiset<Note>) {
    h.isTimerStarted && h.lastErr.None? ==>
      forall i :: 0 <= i < |ts| && ts[i].state == Scheduled ==> Covers(h.cachedMin, pending, ts[i].scheduledAt)
  }

  ghost predicate Inv(s: Sys) {
    && s.now < s.farFuture
    && StoreOk(s.ts, s.now) && HookOk(s.hook, s.now)
    && Covered(s.ts, s.hook, s.pending)
    && (s.pc.Received? || s.pc.Fetched? ==> s.pc.at <= s.now && s.lastTask.None?)
  }

  // ---------- notifications ----------

  /** A notification that carries an instant before the cached one forces a refresh. */
  lemma CarrierRefreshes(n: Note, at: Time, cached: Task, farFuture: Time)
    requires Carries(n, at)
    requires cached.id == "" || (at < cached.scheduledAt && Aligned(cached.scheduledAt))
    ensures Refreshes(cached, n, farFuture)
  {
  }

  /** After a refresh the cached task is the repository's next one, and nothing scheduled is earlier. */
  lemma RefreshCovers(h: Hook, ts: seq<Task>, fault: Fault, pending: multiset<Note>, now: Time)
    requires StoreOk(ts, now) && HookOk(h, now)
    ensures HookOk(Refresh(h, Answer(ts, fault)), now)
    ensures Covered(ts, Refresh(h, Answer(ts, fault)), pending)
  {
    var r := Refresh(h, Answer(ts, fault));
    if h.isTimerStarted && fault.None? && NextIndex(ts).Some? {
      var k := NextIndex(ts).value;
      assert r.cachedMin == ts[k] && TaskOk(ts[k]);
      forall i | 0 <= i < |ts| && ts[i].state == Scheduled
        ensures Covers(r.cachedMin, pending, ts[i].scheduledAt)
      {
        assert ts[k].scheduledAt <= ts[i].scheduledAt;
      }
    }
  }

  lemma NotifyKeeps(s: Sys, n: Note, fault: Fault)
    requires Inv(s) && n in s.pending
    ensures Inv(Apply(s, Notify(n, fault)))
  {
    var s' := Apply(s, Notify(n, fault));
    if Refreshes(s.hook.cachedMin, n, s.farFuture) {
      RefreshCovers(s.hook, s.ts, fault, s'.pending, s.now);
    } else if s.hook.isTimerStarted && s.hook.lastErr.None? {
      forall i | 0 <= i < |s.ts| && s.ts[i].state == Scheduled
        ensures Covers(s'.hook.cachedMin, s'.pending, s.ts[i].scheduledAt)
      {
        if !(s.hook.cachedMin.id != "" && s.hook.cachedMin.scheduledAt <= s.ts[i].scheduledAt) {
          var m :| m in s.pending && Carries(m, s.ts[i].scheduledAt);
          CarrierRefreshes(m, s.ts[i].scheduledAt, s.hook.cachedMin, s.farFuture);
          assert m != n && m in s'.pending;
        }
      }
    }
  }

  // ---------- mutations of the core ----------

  lemma MorePending(ts: seq<Task>, h: Hook, pending: multiset<Note>, n: Note)
    requires Covered(ts, h, pending)
    ensures Covered(ts, h, pending + multiset{n})
  {
    if h.isTimerStarted && h.lastErr.None? {
      forall i | 0 <= i < |ts| && ts[i].state == Scheduled
        ensures Covers(h.cachedMin, pending + multiset{n}, ts[i].scheduledAt)
      {
        if !(h.cachedMin.id != "" && h.cachedMin.scheduledAt <= ts[i].scheduledAt) {
          var m :| m in pending && Carries(m, ts[i].scheduledAt);
          assert m in pending + multiset{n};
        }
      }
    }
  }

  /** Tasks that left the scheduled state, or kept their time, need no notification of their own. */
  lemma FewerScheduled(ts: seq<Task>, ts': seq<Task>, h: Hook, pending: multiset<Note>)
    requires Covered(ts, h, pending) && |ts'| == |ts|
    requires forall i :: 0 <= i < |ts| && ts'[i].state == Scheduled ==>
      ts[i].state == Scheduled && ts'[i].scheduledAt == ts[i].scheduledAt
    ensures Covered(ts', h, pending)
  {
  }

  lemma AddKeeps(s: Sys, param: TaskUpdateParam, id: string, ctxErr: Option<Error>)
    requires Inv(s) && !Has(s.ts, id) && AddTask(s.ts, ctxErr, param, id, s.now).1.Ok?
    ensures Inv(Apply(s, CoreAdd(param, id, ctxErr)))
  {
    var n := NoteAdd(param);
    var pending := s.pending + multiset{n};
    var ts' := AddTask(s.ts, ctxErr, param, id, s.now).0;
    NewTaskOk(param, id, s.now);
    AddEvolves(s.ts, ctxErr, param, id, s.now);
    MorePending(s.ts, s.hook, s.pending, n);
    assert n in pending && Carries(n, ts'[|s.ts|].scheduledAt);
  }

  lemma UpdateKeeps(s: Sys, id: string, param: TaskUpdateParam, ctxErr: Option<Error>)
    requires Inv(s) && UpdateById(s.ts, ctxErr, id, param).1.None?
    ensures Inv(Apply(s, CoreUpdate(id, param, ctxErr)))
  {
    var n := NoteUpdate(id, param);
    var pending := s.pending + multiset{n};
    var ts' := UpdateById(s.ts, ctxErr, id, param).0;
    var i := IndexOf(s.ts, id);
    UpdateEvolves(s.ts, ctxErr, id, param);
    MorePending(s.ts, s.hook, s.pending, n);
    NoSilentRefusal(s.ts, id, (t: Task) => t.Update(param.Normalize()), None, s.now);
    UpdatedOk(s.ts[i], param);
    assert ts' == s.ts[i := s.ts[i].Update(param.Normalize())];
    if param.scheduledAt.Some? {
      assert n in pending && Carries(n, ts'[i].scheduledAt);
    }
  }

  lemma CancelKeeps(s: Sys, id: string, ctxErr: Option<Error>)
    requires Inv(s) && Cancel(s.ts, ctxErr, id, s.now).1.None?
    ensures Inv(Apply(s, CoreCancel(id, ctxErr)))
  {
    var ts' := Cancel(s.ts, ctxErr, id, s.now).0;
    CancelEvolves(s.ts, ctxErr, id, s.now);
    FewerScheduled(s.ts, ts', s.hook, s.pending);
    MorePending(ts', s.hook, s.pending, NoteCancel(id));
  }

  lemma DispatchKeeps(s: Sys, next: Task, markErr: Option<Error>, getErr: Option<Error>)
    requires Inv(s)
    ensures Inv(AfterDispatch(s, next, markErr, getErr))
  {
    var ts' := MarkAsDispatched(s.ts, markErr, next.id, s.now).0;
    DispatchEvolves(s.ts, markErr, next.id, s.now);
    FewerScheduled(s.ts, ts', s.hook, s.pending);
    MorePending(ts', s.hook, s.pending, NoteDispatch(next.id));
  }

  lemma ResultKeeps(s: Sys, id: string, outcome: WorkOutcome, ctxErr: Option<Error>)
    requires Inv(s)
    ensures Inv(AfterResult(s, id, outcome, ctxErr))
  {
    if outcome.Finished? {
      DoneEvolves(s.ts, ctxErr, id, outcome.workErr, s.now);
      FewerScheduled(s.ts, MarkAsDone(s.ts, ctxErr, id, outcome.workErr, s.now).0, s.hook, s.pending);
    }
  }

  // ---------- every step ----------

  lemma MutationKeeps(s: Sys, e: Event)
    requires Inv(s) && (e.CoreAdd? || e.CoreUpdate? || e.CoreCancel?)
    ensures Inv(Apply(s, e))
  {
    match e {
      case CoreAdd(param, id, ctxErr) =>
        if !Has(s.ts, id) && AddTask(s.ts, ctxErr, param, id, s.now).1.Ok? { AddKeeps(s, param, id, ctxErr); }
      case CoreUpdate(id, param, ctxErr) =>
        if UpdateById(s.ts, ctxErr, id, param).1.None? { UpdateKeeps(s, id, param, ctxErr); }
      case CoreCancel(id, ctxErr) =>
        if Cancel(s.ts, ctxErr, id, s.now).1.None? { CancelKeeps(s, id, ctxErr); }
    }
  }

  lemma TimerKeeps(s: Sys, e: Event)
    requires Inv(s) && (e.Notify? || e.Start? || e.StepRestart? || e.Stop? || e.Tick? || e.Fire?)
    ensures Inv(Apply(s, e))
  {
    match e {
      case Notify(n, fault) => if n in s.pending { NotifyKeeps(s, n, fault); }
      case Start(fault) => RefreshCovers(s.hook.(isTimerStarted := true), s.ts, fault, s.pending, s.now);
      case StepRestart(fault) => RefreshCovers(s.hook.(isTimerStarted := true), s.ts, fault, s.pending, s.now);
      case _ =>
    }
  }

  /** The steps that neither change a task nor refresh the timer. */
  lemma QuietKeeps(s: Sys, e: Event)
    requires Inv(s)
    requires e.StepEnter? || e.StepCheck? || e.StepReceive? || e.StepGetNext? || e.StepCompare? || e.StepCancelled?
    ensures Inv(Apply(s, e))
  {
  }

  lemma StepKeeps(s: Sys, e: Event)
    requires Inv(s)
    ensures Inv(Apply(s, e))
  {
    if e.CoreAdd? || e.CoreUpdate? || e.CoreCancel? {
      MutationKeeps(s, e);
    } else if e.Notify? || e.Start? || e.StepRestart? || e.Stop? || e.Tick? || e.Fire? {
      TimerKeeps(s, e);
    } else if e.StepDispatch? {
      if s.lastTask.Some? { DispatchKeeps(s, s.lastTask.value, e.markErr, e.getErr); }
    } else if e.StepResult? {
      ResultKeeps(s, e.id, e.outcome, e.ctxErr);
    } else {
      QuietKeeps(s, e);
    }
  }

  lemma {:induction false} RunKeeps(s: Sys, es: seq<Event>)
    requires Inv(s)
    ensures Inv(Run(s, es))
  {
    if es != [] {
      RunKeeps(s, es[..|es| - 1]);
      StepKeeps(Run(s, es[..|es| - 1]), es[|es| - 1]);
    }
  }

  lemma InitialInv(now: Time, farFuture: Time)
    requires now < farFuture
    ensures Inv(Initial(now, farFuture))
  {
  }

  // ---------- the theorems ----------

  /**
   The timer never oversleeps: in every run, while the timer is started and its last update did not
   fail, each scheduled task is at or after the cached instant, or a notification carrying the
   task's instant is on its way and forces a refresh when it arrives.
   */
  lemma NeverOversleeps(now: Time, farFuture: Time, es: seq<Event>, i: nat)
    requires now < farFuture
    requires
      var s := Run(Initial(now, farFuture), es);
      s.hook.isTimerStarted && s.hook.lastErr.None? && i < |s.ts| && s.ts[i].state == Scheduled
    ensures
      var s := Run(Initial(now, farFuture), es);
      || (s.hook.cachedMin.id != "" && s.hook.cachedMin.scheduledAt <= s.ts[i].scheduledAt)
      || exists n :: n in s.pending && Carries(n, s.ts[i].scheduledAt) && Refreshes(s.hook.cachedMin, n, s.farFuture)
  {
    InitialInv(now, farFuture);
    RunKeeps(Initial(now, farFuture), es);
    var s := Run(Initial(now, farFuture), es);
    var at := s.ts[i].scheduledAt;
    if !(s.hook.cachedMin.id != "" && s.hook.cachedMin.scheduledAt <= at) {
      assert Covers(s.hook.cachedMin, s.pending, at);
      var n :| n in s.pending && Carries(n, at);
      CarrierRefreshes(n, at, s.hook.cachedMin, s.farFuture);
    }
  }

  /** With every notification delivered, an armed or fired timer is set to an instant at or before every scheduled task. */
  lemma SettledTimerIsEarlyEnough(now: Time, farFuture: Time, es: seq<Event>, i: nat)
    requires now < farFuture
    ensures
      var s := Run(Initial(now, farFuture), es);
      s.pending == multiset{} && s.hook.isTimerStarted && s.hook.lastErr.None? && i < |s.ts| && s.ts[i].state == Scheduled ==>
        && s.hook.timerReset && s.hook.cachedMin.scheduledAt <= s.ts[i].scheduledAt
        && (s.hook.clock != Idle ==> s.hook.clock.at <= s.ts[i].scheduledAt)
  {
    var s := Run(Initial(now, farFuture), es);
    InitialInv(now, farFuture);
    RunKeeps(Initial(now, farFuture), es);
    if s.hook.isTimerStarted && s.hook.lastErr.None? && i < |s.ts| && s.ts[i].state == Scheduled {
      NeverOversleeps(now, farFuture, es, i);
    }
  }

  /** The timer branch of `Step` when nothing happens between its three looks at the repository. */
  function TimerBranch(s: Sys, fault: Fault): Sys {
    Apply(Apply(Apply(s, StepReceive), StepGetNext(fault)), StepCompare)
  }

  lemma BranchAcceptsDueTasks(s: Sys, fault: Fault)
    requires Inv(s) && s.pc == Inside && s.lastTask.None?
    ensures TimerBranch(s, fault).lastTask.Some? ==> TimerBranch(s, fault).lastTask.value.scheduledAt <= s.now
  {
    var r := Apply(s, StepReceive);
    if r.pc.Received? {
      var f := Apply(r, StepGetNext(fault));
      assert f.hook.cachedMin == s.hook.cachedMin;
    }
  }

  /** A task is never handed out early: the timer branch, taken in one piece after any run, accepts only due tasks. */
  lemma NeverEarly(now: Time, farFuture: Time, es: seq<Event>, fault: Fault)
    requires now < farFuture
    ensures
      var s := Run(Initial(now, farFuture), es);
      s.pc == Inside && s.lastTask.None? && TimerBranch(s, fault).lastTask.Some? ==>
        TimerBranch(s, fault).lastTask.value.scheduledAt <= s.now
  {
    var s := Run(Initial(now, farFuture), es);
    InitialInv(now, farFuture);
    RunKeeps(Initial(now, farFuture), es);
    if s.pc == Inside && s.lastTask.None? {
      BranchAcceptsDueTasks(s, fault);
    }
  }

  /**
   What `NextScheduled` reports, in every run: there is an instant exactly if a task is cached, and it
   is the one the timer is armed for or has fired for, or one whose firing was received and is past.
   */
  lemma NextScheduledIsTarget(now: Time, farFuture: Time, es: seq<Event>)
    requires now < farFuture
    ensures
      var s := Run(Initial(now, farFuture), es);
      && (s.hook.timerReset <==> s.hook.cachedMin.id != "")
      && (s.hook.clock != Idle ==> s.hook.timerReset && s.hook.cachedMin.scheduledAt == s.hook.clock.at)
      && (s.hook.clock == Idle && s.hook.timerReset ==> s.hook.cachedMin.scheduledAt <= s.now)
  {
    InitialInv(now, farFuture);
    RunKeeps(Initial(now, farFuture), es);
  }

  /** The comparison that ends the timer branch lets the fetched task through. */
  predicate Accepts(s: Sys) {
    s.pc.Fetched? && Apply(s, StepCompare).lastTask.Some?
  }

  /**
   With others in between the three looks, a task is accepted ahead of its time exactly if the timer was
   re-armed meanwhile and is still running towards a later instant.
   */
  lemma AcceptedEarlyIff(now: Time, farFuture: Time, es: seq<Event>)
    requires now < farFuture
    ensures
      var s := Run(Initial(now, farFuture), es);
      Accepts(s) ==>
        (Apply(s, StepCompare).lastTask.value.scheduledAt > s.now <==> s.hook.clock.Armed? && s.hook.clock.at > s.now)
  {
    InitialInv(now, farFuture);
    RunKeeps(Initial(now, farFuture), es);
  }

  /** In particular an accepted task is due if the hook still targets the instant that fired. */
  lemma DueIfTargetUnchanged(now: Time, farFuture: Time, es: seq<Event>)
    requires now < farFuture
    ensures
      var s := Run(Initial(now, farFuture), es);
      Accepts(s) && s.hook.cachedMin.scheduledAt == s.pc.at ==>
        Apply(s, StepCompare).lastTask.value.scheduledAt <= s.now
  {
    AcceptedEarlyIff(now, farFuture, es);
    InitialInv(now, farFuture);
    RunKeeps(Initial(now, farFuture), es);
  }
}
