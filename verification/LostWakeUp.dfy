/**
 When `UpdateById` loses a wake-up.

 From a settled state, in which the timer is armed for the next task and nothing is under way, an
 update can be followed by a run that leaves a scheduled task with nothing to wake the scheduler
 exactly if the update hides something from the hook. What is stranded so stays stranded until the
 repository is changed again or the timer is restarted.
 */
module LostWakeUp {
  import opened Wrappers
  import opened Def
  import opened HookTimer
  import opened TaskList
  import opened TaskListLaws
  import opened System
  import opened TimerSafety
  import opened WakeUp

  // ---------- stranded tasks ----------

  /** The task at `i` is scheduled and not in hand, the scheduler waits, and nothing will wake it. */
  ghost predicate Stranded(s: Sys, i: nat) {
    && s.hook.isTimerStarted && s.hook.lastErr.None? && s.getNextErr.None?
    && (s.pc.Outside? || s.pc.Inside?)
    && !WillWake(s)
    && i < |s.ts| && s.ts[i].state == Scheduled
    && (s.lastTask.Some? ==> s.lastTask.value.id != s.ts[i].id)
  }

  /** Steps other than the calls of users. */
  predicate Internal(e: Event) {
    !e.CoreAdd? && !e.CoreUpdate? && !e.CoreCancel? && !e.Start? && !e.Stop?
  }

  lemma OtherNote(cached: Task, pending: multiset<Note>, n: Note, farFuture: Time)
    requires !AnyRefresher(cached, pending, farFuture) && !Refreshes(cached, n, farFuture)
    ensures !AnyRefresher(cached, pending + multiset{n}, farFuture)
  {
    forall m | m in pending + multiset{n}
      ensures !Refreshes(cached, m, farFuture)
    {
      assert m in pending || m == n;
    }
  }

  lemma FewerNotes(cached: Task, pending: multiset<Note>, n: Note, farFuture: Time)
    requires !AnyRefresher(cached, pending, farFuture)
    ensures !AnyRefresher(cached, pending - multiset{n}, farFuture)
  {
    forall m | m in pending - multiset{n}
      ensures !Refreshes(cached, m, farFuture)
    {
      assert m in pending;
    }
  }

  lemma DispatchLeavesStranded(s: Sys, i: nat, next: Task, markErr: Option<Error>, getErr: Option<Error>)
    requires Inv(s) && Stranded(s, i) && s.lastTask == Some(next)
    ensures Stranded(AfterDispatch(s, next, markErr, getErr), i)
  {
    assert next.id != s.hook.cachedMin.id;
    OtherNote(s.hook.cachedMin, s.pending, NoteDispatch(next.id), s.farFuture);
    IndexOfUnique(s.ts, i);
  }

  lemma ResultLeavesStranded(s: Sys, i: nat, id: string, outcome: WorkOutcome, ctxErr: Option<Error>)
    requires Inv(s) && Stranded(s, i)
    ensures Stranded(Apply(s, StepResult(id, outcome, ctxErr)), i)
  {
    IndexOfUnique(s.ts, i);
  }

  lemma QuietLeavesStranded(s: Sys, i: nat, e: Event)
    requires Stranded(s, i) && Internal(e) && !e.Notify? && !e.StepDispatch? && !e.StepResult?
    ensures Stranded(Apply(s, e), i)
  {
  }

  lemma StrandedStays(s: Sys, i: nat, e: Event)
    requires Inv(s) && Stranded(s, i) && Internal(e)
    ensures Stranded(Apply(s, e), i)
  {
    match e {
      case Notify(n, fault) => FewerNotes(s.hook.cachedMin, s.pending, n, s.farFuture);
      case StepDispatch(reaches, markErr, getErr) =>
        if s.pc.Inside? && s.lastTask.Some? && reaches {
          DispatchLeavesStranded(s, i, s.lastTask.value, markErr, getErr);
        }
      case StepResult(id, outcome, ctxErr) => ResultLeavesStranded(s, i, id, outcome, ctxErr);
      case _ => QuietLeavesStranded(s, i, e);
    }
  }

  /** Whatever time passes and however often the scheduler steps, a stranded task stays scheduled and nothing wakes the scheduler for it. */
  lemma {:induction false} StrandedForever(s: Sys, i: nat, es: seq<Event>)
    requires Inv(s) && Stranded(s, i) && forall k :: 0 <= k < |es| ==> Internal(es[k])
    ensures Stranded(Run(s, es), i)
    decreases |es|
  {
    if es != [] {
      var n := |es| - 1;
      StrandedForever(s, i, es[..n]);
      RunKeeps(s, es[..n]);
      StrandedStays(Run(s, es[..n]), i, es[n]);
    }
  }

  // ---------- the firing that strands ----------

  /** Nothing is under way, and the timer is armed for the next task, which falls due while the process lives. */
  ghost predicate Settled(s: Sys) {
    && Inv(s) && MILLISECOND <= s.now
    && s.pc.Outside? && s.pending == multiset{} && s.lastTask.None? && s.getNextErr.None?
    && s.hook.isTimerStarted && s.hook.lastErr.None? && s.hook.clock.Armed?
    && CacheExact(s.ts, s.hook.cachedMin)
    && s.hook.cachedMin.scheduledAt < s.farFuture && s.hook.cachedMin.scheduledAt != 0
  }

  /** The timer fires and the scheduler takes its timer branch. */
  function Firing(at: Time): seq<Event> {
    [Tick(at), Fire, StepEnter] + [StepReceive, StepGetNext(None), StepCompare]
  }

  /** As `Settled`, but the task the timer is armed for need not be the next one any more. */
  ghost predicate ArmedAlone(s: Sys) {
    && s.now < s.farFuture && s.pc.Outside? && s.pending == multiset{} && s.lastTask.None? && s.getNextErr.None?
    && s.hook.isTimerStarted && s.hook.lastErr.None?
    && s.hook.clock == Armed(s.hook.cachedMin.scheduledAt) && s.hook.cachedMin.scheduledAt < s.farFuture
  }

  function Later(a: Time, b: Time): Time {
    if a < b then b else a
  }

  lemma TickStep(s: Sys, at: Time)
    requires s.now <= at < s.farFuture
    ensures Apply(s, Tick(at)) == s.(now := at)
  {
  }

  lemma FireStep(s: Sys)
    requires s.hook.clock.Armed? && s.hook.clock.at <= s.now
    ensures Apply(s, Fire) == s.(hook := s.hook.(clock := Fired(s.hook.clock.at)))
  {
  }

  lemma EnterStep(s: Sys)
    requires s.pc.Outside? && s.getNextErr.None? && s.hook.lastErr.None?
    ensures Apply(s, StepEnter) == s.(pc := Inside)
  {
  }

  lemma FireAfter(s: Sys, at: Time)
    requires ArmedAlone(s) && at == Later(s.now, s.hook.cachedMin.scheduledAt)
    ensures Run(s, [Tick(at), Fire, StepEnter]) ==
      s.(now := at, hook := s.hook.(clock := Fired(s.hook.cachedMin.scheduledAt)), pc := Inside)
  {
    RunThree(s, Tick(at), Fire, StepEnter);
    TickStep(s, at);
    FireStep(s.(now := at));
    EnterStep(s.(now := at, hook := s.hook.(clock := Fired(s.hook.cachedMin.scheduledAt))));
  }

  lemma ReceiveAfter(s: Sys, k: nat, at: Time)
    requires s.pc == Inside && s.lastTask.None? && s.hook.clock == Fired(at) && NextIndex(s.ts) == Some(k)
    ensures Run(s, [StepReceive, StepGetNext(None), StepCompare]) ==
      Apply(s.(hook := s.hook.(clock := Idle), pc := Fetched(s.ts[k], at)), StepCompare)
  {
    RunThree(s, StepReceive, StepGetNext(None), StepCompare);
    assert Apply(s, StepReceive) == s.(hook := s.hook.(clock := Idle), pc := Received(at));
  }

  /** The comparison drops a task at another instant and lets another task at the same instant through. */
  lemma CompareStrands(s: Sys, i: nat)
    requires s.pc.Fetched? && s.pending == multiset{} && s.lastTask.None? && s.getNextErr.None?
    requires s.hook.isTimerStarted && s.hook.lastErr.None? && s.hook.clock == Idle
    requires s.pc.next.id != s.hook.cachedMin.id || s.pc.next.scheduledAt != s.hook.cachedMin.scheduledAt
    requires i < |s.ts| && s.ts[i].state == Scheduled && s.ts[i].id == s.hook.cachedMin.id
    ensures Stranded(Apply(s, StepCompare), i)
  {
  }

  lemma FireStrands(s: Sys, k: nat, i: nat)
    requires ArmedAlone(s) && NextIndex(s.ts) == Some(k)
    requires i < |s.ts| && s.ts[i].state == Scheduled && s.ts[i].id == s.hook.cachedMin.id
    requires s.ts[k].id != s.hook.cachedMin.id || s.ts[k].scheduledAt != s.hook.cachedMin.scheduledAt
    ensures Stranded(Run(s, Firing(Later(s.now, s.hook.cachedMin.scheduledAt))), i)
  {
    var at := Later(s.now, s.hook.cachedMin.scheduledAt);
    RunAppend(s, [Tick(at), Fire, StepEnter], [StepReceive, StepGetNext(None), StepCompare]);
    FireAfter(s, at);
    var fired := Run(s, [Tick(at), Fire, StepEnter]);
    ReceiveAfter(fired, k, s.hook.cachedMin.scheduledAt);
    CompareStrands(fired.(hook := s.hook.(clock := Idle), pc := Fetched(s.ts[k], s.hook.cachedMin.scheduledAt)), i);
  }

  // ---------- runs that every state allows ----------

  predicate AlwaysTame(e: Event) {
    || e.CoreAdd? || e.Tick? || e.Fire? || e.StepEnter? || e.StepReceive? || e.StepCompare?
    || (e.Notify? && e.fault.None?) || (e.StepGetNext? && e.fault.None?)
  }

  ghost predicate AllTame(es: seq<Event>) {
    forall i :: 0 <= i < |es| ==> AlwaysTame(es[i])
  }

  lemma AlwaysTameRun(s: Sys, es: seq<Event>)
    requires AllTame(es)
    ensures TameRun(s, es)
  {
  }

  // ---------- a hidden update ----------

  /** What is left when a hidden update has been made and notified. */
  ghost predicate AfterHidden(s: Sys, c: nat) {
    && Inv(s) && MILLISECOND <= s.now && ArmedAlone(s)
    && s.hook.cachedMin.id != "" && s.hook.cachedMin.scheduledAt != 0
    && c < |s.ts| && s.ts[c].state == Scheduled && s.ts[c].id == s.hook.cachedMin.id
    && NextIndex(s.ts).Some?
    && var next := s.ts[NextIndex(s.ts).value];
       || next.id != s.hook.cachedMin.id
       || next.scheduledAt != s.hook.cachedMin.scheduledAt
       || next.priority < s.hook.cachedMin.priority
  }

  lemma HiddenDeposes(ts: seq<Task>, cached: Task, id: string, param: TaskUpdateParam, now: Time)
    requires StoreOk(ts, now) && CacheExact(ts, cached)
    requires Has(ts, id) && ts[IndexOf(ts, id)].state == Scheduled && Has(ts, cached.id) && Hides(ts, cached, id, param)
    ensures
      var ts' := UpdateById(ts, None, id, param).0;
      var c := IndexOf(ts, cached.id);
      && !UpdateRefreshes(cached, id, param)
      && ts'[c].state == Scheduled && ts'[c].id == cached.id && NextIndex(ts').Some?
      && var next := ts'[NextIndex(ts').value];
         next.id != cached.id || next.scheduledAt != cached.scheduledAt || next.priority < cached.priority
  {
    var (j, c) := (IndexOf(ts, id), IndexOf(ts, cached.id));
    var ts' := UpdateById(ts, None, id, param).0;
    UpdateStaysExactIff(ts, cached, id, param, now);
    SomethingIsNext(ts, j);
    IndexOfUnique(ts, NextIndex(ts).value);
    UpdatedOk(ts[j], param);
    assert ts' == ts[j := ts[j].Update(param.Normalize())];
    SomethingIsNext(ts', c);
  }

  // ---------- a task added beside a demoted one ----------

  function FreshId(ts: seq<Task>): (id: string)
    ensures id != ""
    ensures forall i :: 0 <= i < |ts| ==> |ts[i].id| < |id|
  {
    if ts == [] then "x" else FreshId(ts[..|ts| - 1]) + ts[|ts| - 1].id + "x"
  }

  /** A task at the cached instant with the cached priority. */
  function Rival(cached: Task): TaskUpdateParam {
    NO_PARAM.(workId := Some("work"), priority := Some(cached.priority), scheduledAt := Some(cached.scheduledAt))
  }

  lemma RivalIsQuiet(ts: seq<Task>, cached: Task, now: Time, farFuture: Time)
    requires TaskOk(cached) && cached.id != "" && cached.createdAt <= now < farFuture && MILLISECOND <= now
    requires cached.scheduledAt != 0
    ensures !AddRefreshes(cached, Rival(cached), farFuture)
    ensures
      var t := Rival(cached).Normalize().ToTask(FreshId(ts), now);
      && t.IsValid() && t.id == FreshId(ts) && t.state == Scheduled
      && t.scheduledAt == cached.scheduledAt && t.priority == cached.priority
  {
    var id := FreshId(ts);
    NewTaskOk(Rival(cached), id, now);
    NormalizeMonotone(cached.createdAt, now);
    PlaceholderDecides(Rival(cached), id, now, farFuture, cached);
  }

  function AddRival(s: Sys): seq<Event> {
    var p := Rival(s.hook.cachedMin);
    [CoreAdd(p, FreshId(s.ts), None), Notify(NoteAdd(p), None)]
  }

  lemma AddQuietly(s: Sys, p: TaskUpdateParam, id: string)
    requires s.pending == multiset{} && !Has(s.ts, id) && !AddRefreshes(s.hook.cachedMin, p, s.farFuture)
    requires p.Normalize().ToTask(id, s.now).IsValid()
    ensures Run(s, [CoreAdd(p, id, None), Notify(NoteAdd(p), None)]) ==
      s.(ts := s.ts + [p.Normalize().ToTask(id, s.now)])
  {
    RunTwo(s, CoreAdd(p, id, None), Notify(NoteAdd(p), None));
    var s1 := s.(ts := s.ts + [p.Normalize().ToTask(id, s.now)], pending := multiset{NoteAdd(p)});
    assert Apply(s, CoreAdd(p, id, None)) == s1;
    assert s1.pending - multiset{NoteAdd(p)} == multiset{};
  }

  /** If the cached task was demoted, its rival comes before it and the hook does not notice. */
  lemma RivalDeposes(s: Sys, c: nat)
    requires AfterHidden(s, c) && NextIndex(s.ts) == Some(c) && s.ts[c].scheduledAt == s.hook.cachedMin.scheduledAt
    ensures
      var t := Rival(s.hook.cachedMin).Normalize().ToTask(FreshId(s.ts), s.now);
      && Run(s, AddRival(s)) == s.(ts := s.ts + [t])
      && NextIndex(s.ts + [t]) == Some(|s.ts|) && t.id != s.hook.cachedMin.id
  {
    var p := Rival(s.hook.cachedMin);
    var id := FreshId(s.ts);
    RivalIsQuiet(s.ts, s.hook.cachedMin, s.now, s.farFuture);
    AddQuietly(s, p, id);
    NextAfterAdd(s.ts, p.Normalize().ToTask(id, s.now));
  }

  // ---------- the theorem ----------

  lemma HiddenUpdate(s: Sys, id: string, param: TaskUpdateParam)
    requires Settled(s) && Has(s.ts, id) && s.ts[IndexOf(s.ts, id)].state == Scheduled
    requires Has(s.ts, s.hook.cachedMin.id) && Hides(s.ts, s.hook.cachedMin, id, param)
    ensures
      AfterHidden(Apply(Apply(s, CoreUpdate(id, param, None)), Notify(NoteUpdate(id, param), None)),
                  IndexOf(s.ts, s.hook.cachedMin.id))
  {
    var n := NoteUpdate(id, param);
    var s1 := Apply(s, CoreUpdate(id, param, None));
    HiddenDeposes(s.ts, s.hook.cachedMin, id, param, s.now);
    StepKeeps(s, CoreUpdate(id, param, None));
    StepKeeps(s1, Notify(n, None));
    assert s1 == s.(ts := UpdateById(s.ts, None, id, param).0, pending := multiset{n});
    assert Apply(s1, Notify(n, None)) == s1.(pending := multiset{});
  }

  ghost predicate CanStrand(s: Sys, i: nat) {
    exists es :: AllTame(es) && Stranded(Run(s, es), i)
  }

  lemma StrandsLater(s: Sys, first: seq<Event>, i: nat)
    requires AllTame(first) && CanStrand(Run(s, first), i)
    ensures CanStrand(s, i)
  {
    var es :| AllTame(es) && Stranded(Run(Run(s, first), es), i);
    RunAppend(s, first, es);
    assert AllTame(first + es);
  }

  lemma FiringCanStrand(s: Sys, k: nat, i: nat)
    requires ArmedAlone(s) && NextIndex(s.ts) == Some(k)
    requires i < |s.ts| && s.ts[i].state == Scheduled && s.ts[i].id == s.hook.cachedMin.id
    requires s.ts[k].id != s.hook.cachedMin.id || s.ts[k].scheduledAt != s.hook.cachedMin.scheduledAt
    ensures CanStrand(s, i)
  {
    FireStrands(s, k, i);
    assert AllTame(Firing(Later(s.now, s.hook.cachedMin.scheduledAt)));
  }

  lemma RivalCanStrand(s: Sys, c: nat)
    requires AfterHidden(s, c) && NextIndex(s.ts) == Some(c) && s.ts[c].scheduledAt == s.hook.cachedMin.scheduledAt
    ensures CanStrand(s, c)
  {
    RivalDeposes(s, c);
    FiringCanStrand(Run(s, AddRival(s)), |s.ts|, c);
    assert AllTame(AddRival(s));
    StrandsLater(s, AddRival(s), c);
  }

  /** From there some tame run strands the cached task. */
  lemma HiddenStrands(s: Sys, c: nat)
    requires AfterHidden(s, c)
    ensures CanStrand(s, c)
  {
    var k := NextIndex(s.ts).value;
    IndexOfUnique(s.ts, k);
    IndexOfUnique(s.ts, c);
    if s.ts[k].id == s.hook.cachedMin.id && s.ts[k].scheduledAt == s.hook.cachedMin.scheduledAt {
      RivalCanStrand(s, c);
    } else {
      FiringCanStrand(s, k, c);
    }
  }

  ghost predicate CanLoseWakeUp(s: Sys) {
    exists es: seq<Event>, i: nat :: TameRun(s, es) && Stranded(Run(s, es), i)
  }

  lemma HiddenLoses(s: Sys, id: string, param: TaskUpdateParam)
    requires Settled(s) && Has(s.ts, id) && s.ts[IndexOf(s.ts, id)].state == Scheduled
    requires Has(s.ts, s.hook.cachedMin.id) && Hides(s.ts, s.hook.cachedMin, id, param)
    ensures CanLoseWakeUp(Apply(s, CoreUpdate(id, param, None)))
  {
    var s' := Apply(s, CoreUpdate(id, param, None));
    var n := [Notify(NoteUpdate(id, param), None)];
    var c := IndexOf(s.ts, s.hook.cachedMin.id);
    HiddenUpdate(s, id, param);
    RunOne(s', n[0]);
    HiddenStrands(Run(s', n), c);
    assert AllTame(n);
    StrandsLater(s', n, c);
    var es :| AllTame(es) && Stranded(Run(s', es), c);
    AlwaysTameRun(s', es);
  }

  lemma AwakeKeepsWakeUps(s: Sys)
    requires Awake(s)
    ensures !CanLoseWakeUp(s)
  {
    forall es, i: nat | TameRun(s, es)
      ensures !Stranded(Run(s, es), i)
    {
      TameRunStaysAwake(s, es);
      if Stranded(Run(s, es), i) {
        SomethingIsNext(Run(s, es).ts, i);
      }
    }
  }

  /**
   After an update of a settled state, some run without further hidden updates and without faults
   loses a wake-up exactly if this update was hidden.
   */
  lemma LosesWakeUpIff(s: Sys, id: string, param: TaskUpdateParam)
    requires Settled(s) && Has(s.ts, id) && s.ts[IndexOf(s.ts, id)].state == Scheduled
    ensures Has(s.ts, s.hook.cachedMin.id)
    ensures CanLoseWakeUp(Apply(s, CoreUpdate(id, param, None))) <==> Hides(s.ts, s.hook.cachedMin, id, param)
  {
    UpdateStaysExactIff(s.ts, s.hook.cachedMin, id, param, s.now);
    if Hides(s.ts, s.hook.cachedMin, id, param) {
      HiddenLoses(s, id, param);
    } else {
      StepStaysAwake(s, CoreUpdate(id, param, None));
      AwakeKeepsWakeUps(Apply(s, CoreUpdate(id, param, None)));
    }
  }
}
