/**
 When the hook timer's cache is exact, and why then no wake-up is lost.

 Both claims fail in runs with `UpdateById`, because some updates change the next task without
 forcing a refresh. `Hides` describes those updates and `UpdateStaysExactIff` proves that it
 describes exactly those; on runs without them, in which `GetNext` fails only with `Exhausted` and
 `Dispatch` reaches a fetcher whose context is live, both claims hold.
 */
module WakeUp {
  import opened Wrappers
  import opened Def
  import opened HookTimer
  import opened TaskList
  import opened TaskListLaws
  import opened System
  import opened TimerSafety

  // ---------- the exact cache ----------

  /** Equal in everything that the order of tasks looks at. */
  predicate SameKey(a: Task, b: Task) {
    a.id == b.id && a.scheduledAt == b.scheduledAt && a.priority == b.priority && a.createdAt == b.createdAt
  }

  /** The cache holds the task that `GetNext` would answer now, at its present place in the order. */
  ghost predicate CacheExact(ts: seq<Task>, cached: Task) {
    match NextIndex(ts)
    case None => cached.id == ""
    case Some(i) => SameKey(cached, ts[i])
  }

  ghost predicate AnyRefresher(cached: Task, pending: multiset<Note>, farFuture: Time) {
    exists n :: n in pending && Refreshes(cached, n, farFuture)
  }

  ghost predicate ExactOrNotified(ts: seq<Task>, cached: Task, pending: multiset<Note>, farFuture: Time) {
    CacheExact(ts, cached) || AnyRefresher(cached, pending, farFuture)
  }

  ghost predicate Exact(s: Sys) {
    && Inv(s) && s.hook.lastErr.None?
    && (s.hook.isTimerStarted ==> ExactOrNotified(s.ts, s.hook.cachedMin, s.pending, s.farFuture))
  }

  /**
   The key to `AddTask`: the hook compares a placeholder created in the far future, yet gets the
   verdict that the repository's own order gives for the task really added.
   */
  lemma PlaceholderDecides(param: TaskUpdateParam, id: string, now: Time, farFuture: Time, cached: Task)
    requires cached.id != "" && Aligned(cached.createdAt) && cached.createdAt <= now <= farFuture
    ensures AddRefreshes(cached, param, farFuture) <==> Precedes(param.Normalize().ToTask(id, now), cached)
  {
    NewTaskOk(param, id, now);
    NormalizeMonotone(cached.createdAt, now);
    NormalizeMonotone(cached.createdAt, farFuture);
  }

  lemma MoreRefreshers(cached: Task, pending: multiset<Note>, n: Note, farFuture: Time)
    ensures AnyRefresher(cached, pending, farFuture) ==> AnyRefresher(cached, pending + multiset{n}, farFuture)
    ensures Refreshes(cached, n, farFuture) ==> AnyRefresher(cached, pending + multiset{n}, farFuture)
  {
    assert n in pending + multiset{n};
    if AnyRefresher(cached, pending, farFuture) {
      var m :| m in pending && Refreshes(cached, m, farFuture);
      assert m in pending + multiset{n};
    }
  }

  /** Removing a notification that would not refresh leaves the others. */
  lemma StillRefresher(cached: Task, pending: multiset<Note>, n: Note, farFuture: Time)
    requires AnyRefresher(cached, pending, farFuture) && !Refreshes(cached, n, farFuture)
    ensures AnyRefresher(cached, pending - multiset{n}, farFuture)
  {
    var m :| m in pending && Refreshes(cached, m, farFuture);
    assert m in pending - multiset{n};
  }

  lemma NextAfterAdd(ts: seq<Task>, t: Task)
    requires t.state == Scheduled
    ensures
      NextIndex(ts + [t]) ==
        if NextIndex(ts).None? || Precedes(t, ts[NextIndex(ts).value]) then Some(|ts|) else NextIndex(ts)
  {
    assert (ts + [t])[..|ts|] == ts;
  }

  /** Taking a task other than the next one out of the scheduled state leaves the next one. */
  lemma NextAfterRetire(ts: seq<Task>, i: nat, t': Task)
    requires i < |ts| && t'.state != Scheduled && NextIndex(ts) != Some(i)
    ensures NextIndex(ts[i := t']) == NextIndex(ts)
  {
    var ts' := ts[i := t'];
    match NextIndex(ts)
    case None =>
    case Some(k) =>
      assert IsNext(ts', k);
      NextIsUnique(ts', k);
  }

  /** Rewriting a scheduled task other than the next one deposes the next one exactly if it now comes before it. */
  lemma NextAfterUpdate(ts: seq<Task>, j: nat, t': Task, k: nat)
    requires NextIndex(ts) == Some(k) && j < |ts| && j != k && ts[j].state == Scheduled && t'.state == Scheduled
    ensures NextIndex(ts[j := t']) == (if ComesBefore(ts[j := t'], j, k) then Some(j) else Some(k))
  {
    var ts' := ts[j := t'];
    if ComesBefore(ts', j, k) {
      assert IsNext(ts', j);
      NextIsUnique(ts', j);
    } else {
      assert IsNext(ts', k);
      NextIsUnique(ts', k);
    }
  }

  lemma AddStaysExact(s: Sys, param: TaskUpdateParam, id: string, ctxErr: Option<Error>)
    requires Exact(s)
    ensures Exact(Apply(s, CoreAdd(param, id, ctxErr)))
  {
    StepKeeps(s, CoreAdd(param, id, ctxErr));
    var (ts', r) := AddTask(s.ts, ctxErr, param, id, s.now);
    if s.hook.isTimerStarted && !Has(s.ts, id) && r.Ok? {
      var t := param.Normalize().ToTask(id, s.now);
      var cached := s.hook.cachedMin;
      NewTaskOk(param, id, s.now);
      MoreRefreshers(cached, s.pending, NoteAdd(param), s.farFuture);
      NextAfterAdd(s.ts, t);
      if cached.id != "" {
        PlaceholderDecides(param, id, s.now, s.farFuture, cached);
      }
    }
  }

  /**
   The update changes which task is next, or its place, and yet forces no refresh: it moves the
   cached task back, or it moves another task to the cached instant and in front of the cached task
   by a change that the hook does not look for.
   */
  predicate Hides(ts: seq<Task>, cached: Task, id: string, param: TaskUpdateParam)
    requires Has(ts, id) && Has(ts, cached.id)
  {
    var (i, c) := (IndexOf(ts, id), IndexOf(ts, cached.id));
    var at := NormalizeTime(param.scheduledAt.GetOr(ts[i].scheduledAt));
    var priority := param.priority.GetOr(ts[i].priority);
    if id == cached.id then
      at > cached.scheduledAt || (at == cached.scheduledAt && priority < cached.priority)
    else
      && at == cached.scheduledAt
      && ((param.scheduledAt.Some? && priority > cached.priority)
          || (priority == cached.priority
              && (ts[i].createdAt < cached.createdAt || (ts[i].createdAt == cached.createdAt && i < c))))
  }

  lemma CacheAfterUpdate(ts: seq<Task>, cached: Task, j: nat, k: nat, t': Task)
    requires DistinctIds(ts) && NextIndex(ts) == Some(k) && SameKey(cached, ts[k])
    requires j < |ts| && j != k && ts[j].state == Scheduled && t'.state == Scheduled && t'.id == ts[j].id
    ensures CacheExact(ts[j := t'], cached) == !ComesBefore(ts[j := t'], j, k)
    ensures ComesBefore(ts, k, j) && ts[j].id != ts[k].id
  {
    NextAfterUpdate(ts, j, t', k);
  }

  /** The case of `UpdateStaysExactIff` in which `t`, another task than the cached one, becomes `t'`. */
  lemma UpdateOfOther(t: Task, t': Task, cached: Task, param: TaskUpdateParam, earlier: bool)
    requires t.id != cached.id && cached.id != "" && Aligned(cached.scheduledAt)
    requires !Precedes(t, cached) && (earlier ==> Precedes(cached, t))
    requires t'.createdAt == t.createdAt && t'.priority == param.priority.GetOr(t.priority)
    requires if param.scheduledAt.Some? then t'.scheduledAt == NormalizeTime(param.scheduledAt.value)
             else t'.scheduledAt == t.scheduledAt
    ensures
      (!(Precedes(t', cached) || (!Precedes(cached, t') && earlier)) || UpdateRefreshes(cached, t.id, param))
      == !(t'.scheduledAt == cached.scheduledAt
           && ((param.scheduledAt.Some? && t'.priority > cached.priority)
               || (t'.priority == cached.priority
                   && (t'.createdAt < cached.createdAt || (t'.createdAt == cached.createdAt && earlier)))))
  {
    if param.scheduledAt.Some? {
      BeforeAligned(param.scheduledAt.value, cached.scheduledAt);
    }
  }

  lemma BeforeAligned(a: Time, b: Time)
    requires Aligned(b)
    ensures a < b <==> NormalizeTime(a) < b
  {
  }

  lemma UpdateOfCached(ts: seq<Task>, cached: Task, param: TaskUpdateParam, k: nat)
    requires WellFormed(ts) && NextIndex(ts) == Some(k) && SameKey(cached, ts[k])
    ensures
      var t' := ts[k].Update(param.Normalize());
      (CacheExact(ts[k := t'], cached) || UpdateRefreshes(cached, cached.id, param))
      == !(t'.scheduledAt > cached.scheduledAt
           || (t'.scheduledAt == cached.scheduledAt && t'.priority < cached.priority))
  {
    var t' := ts[k].Update(param.Normalize());
    var ts' := ts[k := t'];
    UpdatedOk(ts[k], param);
    assert ts'[k].state == Scheduled && NextIndex(ts').Some?;
    if SameKey(cached, t') {
      forall i | 0 <= i < |ts'| && ts'[i].state == Scheduled
        ensures if i < k then Precedes(ts'[k], ts'[i]) else !Precedes(ts'[i], ts'[k])
      {
        assert ts[i].state == Scheduled;
      }
      NextIsUnique(ts', k);
    }
  }

  /** From an exact cache, a successful `UpdateById` leaves it exact or forces a refresh exactly if it hides nothing. */
  lemma UpdateStaysExactIff(ts: seq<Task>, cached: Task, id: string, param: TaskUpdateParam, now: Time)
    requires StoreOk(ts, now) && CacheExact(ts, cached)
    requires Has(ts, id) && ts[IndexOf(ts, id)].state == Scheduled
    ensures Has(ts, cached.id)
    ensures
      (CacheExact(UpdateById(ts, None, id, param).0, cached) || UpdateRefreshes(cached, id, param))
      == !Hides(ts, cached, id, param)
  {
    var j := IndexOf(ts, id);
    assert NextIndex(ts).Some?;
    var k := NextIndex(ts).value;
    IndexOfUnique(ts, k);
    UpdatedOk(ts[j], param);
    assert UpdateById(ts, None, id, param).0 == ts[j := ts[j].Update(param.Normalize())];
    if j == k {
      UpdateOfCached(ts, cached, param, k);
    } else {
      var t' := ts[j].Update(param.Normalize());
      CacheAfterUpdate(ts, cached, j, k, t');
      UpdateOfOther(ts[j], t', cached, param, j < k);
    }
  }

  /** `Cancel` and `MarkAsDispatched`: one task leaves the scheduled state and a notification names it. */
  lemma RetireStaysExact(ts: seq<Task>, ctxErr: Option<Error>, id: string, change: Task -> Task,
                         cached: Task, pending: multiset<Note>, n: Note, farFuture: Time)
    requires WellFormed(ts) && ExactOrNotified(ts, cached, pending, farFuture)
    requires forall t :: change(t).state != Scheduled
    requires ChangeScheduled(ts, ctxErr, id, change).1.None?
    requires n == NoteCancel(id) || n == NoteDispatch(id)
    ensures ExactOrNotified(ChangeScheduled(ts, ctxErr, id, change).0, cached, pending + multiset{n}, farFuture)
  {
    var i := IndexOf(ts, id);
    NoSilentRefusal(ts, id, change, None, 0);
    assert i < |ts| && ts[i].state == Scheduled;
    MoreRefreshers(cached, pending, n, farFuture);
    if CacheExact(ts, cached) && NextIndex(ts) != Some(i) {
      NextAfterRetire(ts, i, change(ts[i]));
    }
  }

  /** From an exact cache, `Cancel` and `MarkAsDispatched` force a refresh exactly when the cache stops being exact. */
  lemma RetireRefreshesIff(ts: seq<Task>, ctxErr: Option<Error>, id: string, change: Task -> Task, cached: Task)
    requires WellFormed(ts) && CacheExact(ts, cached) && cached.id != ""
    requires forall t :: change(t).state != Scheduled && change(t).id == t.id
    requires ChangeScheduled(ts, ctxErr, id, change).1.None?
    ensures CancelRefreshes(cached, id) <==> !CacheExact(ChangeScheduled(ts, ctxErr, id, change).0, cached)
    ensures DispatchRefreshes(cached, id) <==> !CacheExact(ChangeScheduled(ts, ctxErr, id, change).0, cached)
  {
    var i := IndexOf(ts, id);
    NoSilentRefusal(ts, id, change, None, 0);
    assert i < |ts| && ts[i].state == Scheduled;
    var k := NextIndex(ts).value;
    IndexOfUnique(ts, k);
    var ts' := ts[i := change(ts[i])];
    if i != k {
      NextAfterRetire(ts, i, change(ts[i]));
    } else if NextIndex(ts').Some? {
      assert ts'[NextIndex(ts').value].state == Scheduled;
      assert NextIndex(ts').value != k;
    }
  }

  lemma CancelStaysExact(s: Sys, id: string, ctxErr: Option<Error>)
    requires Exact(s)
    ensures Exact(Apply(s, CoreCancel(id, ctxErr)))
  {
    StepKeeps(s, CoreCancel(id, ctxErr));
    if s.hook.isTimerStarted && Cancel(s.ts, ctxErr, id, s.now).1.None? {
      RetireStaysExact(s.ts, ctxErr, id, (t: Task) => AsCancelled(t, s.now),
                       s.hook.cachedMin, s.pending, NoteCancel(id), s.farFuture);
    }
  }

  lemma DispatchStaysExact(s: Sys, getErr: Option<Error>)
    requires Exact(s) && s.lastTask.Some?
    ensures Exact(Apply(s, StepDispatch(true, None, getErr)))
  {
    StepKeeps(s, StepDispatch(true, None, getErr));
    var id := s.lastTask.value.id;
    if s.hook.isTimerStarted && MarkAsDispatched(s.ts, None, id, s.now).1.None? {
      RetireStaysExact(s.ts, None, id, (t: Task) => AsDispatched(t, s.now),
                       s.hook.cachedMin, s.pending, NoteDispatch(id), s.farFuture);
    }
  }

  lemma ResultStaysExact(s: Sys, id: string, outcome: WorkOutcome, ctxErr: Option<Error>)
    requires Exact(s)
    ensures Exact(Apply(s, StepResult(id, outcome, ctxErr)))
  {
    StepKeeps(s, StepResult(id, outcome, ctxErr));
    var i := IndexOf(s.ts, id);
    if outcome.Finished? && Has(s.ts, id) && s.ts[i].state == Dispatched {
      NextAfterRetire(s.ts, i, AsDone(s.ts[i], outcome.workErr, s.now));
    }
  }

  lemma RefreshIsExact(h: Hook, ts: seq<Task>)
    ensures h.isTimerStarted ==> CacheExact(ts, Refresh(h, GetNext(ts)).cachedMin)
    ensures Refresh(h, GetNext(ts)).lastErr.None?
    ensures h.isTimerStarted && NextIndex(ts).Some? ==> Refresh(h, GetNext(ts)).clock.Armed?
  {
  }

  lemma NotifyStaysExact(s: Sys, n: Note)
    requires Exact(s)
    ensures Exact(Apply(s, Notify(n, None)))
  {
    StepKeeps(s, Notify(n, None));
    if n in s.pending {
      if Refreshes(s.hook.cachedMin, n, s.farFuture) {
        RefreshIsExact(s.hook, s.ts);
      } else if AnyRefresher(s.hook.cachedMin, s.pending, s.farFuture) {
        StillRefresher(s.hook.cachedMin, s.pending, n, s.farFuture);
      }
    }
  }

  /** An update that hides nothing from the cache as it is now. */
  ghost predicate Visible(s: Sys, id: string, param: TaskUpdateParam) {
    s.hook.isTimerStarted && CacheExact(s.ts, s.hook.cachedMin) && Has(s.ts, id) && Has(s.ts, s.hook.cachedMin.id) ==>
      !Hides(s.ts, s.hook.cachedMin, id, param)
  }

  /** No hidden update, no fault of `GetNext`, and a dispatcher that reaches a fetcher with a live context. */
  ghost predicate Tame(s: Sys, e: Event) {
    match e
    case CoreUpdate(id, param, _) => Visible(s, id, param)
    case Notify(_, fault) => fault.None?
    case Start(fault) => fault.None?
    case StepRestart(fault) => fault.None?
    case StepGetNext(fault) => fault.None?
    case StepDispatch(reaches, markErr, _) => reaches && markErr.None?
    case _ => true
  }

  lemma UpdateStaysExact(s: Sys, id: string, param: TaskUpdateParam, ctxErr: Option<Error>)
    requires Exact(s) && Visible(s, id, param)
    ensures Exact(Apply(s, CoreUpdate(id, param, ctxErr)))
  {
    StepKeeps(s, CoreUpdate(id, param, ctxErr));
    var cached := s.hook.cachedMin;
    if s.hook.isTimerStarted && UpdateById(s.ts, ctxErr, id, param).1.None? {
      NoSilentRefusal(s.ts, id, (t: Task) => t.Update(param.Normalize()), None, s.now);
      MoreRefreshers(cached, s.pending, NoteUpdate(id, param), s.farFuture);
      if CacheExact(s.ts, cached) {
        UpdateStaysExactIff(s.ts, cached, id, param, s.now);
      }
    }
  }

  lemma StepStaysExact(s: Sys, e: Event)
    requires Exact(s) && Tame(s, e)
    ensures Exact(Apply(s, e))
  {
    StepKeeps(s, e);
    match e {
      case CoreAdd(param, id, ctxErr) => AddStaysExact(s, param, id, ctxErr);
      case CoreUpdate(id, param, ctxErr) => UpdateStaysExact(s, id, param, ctxErr);
      case CoreCancel(id, ctxErr) => CancelStaysExact(s, id, ctxErr);
      case Notify(n, fault) => NotifyStaysExact(s, n);
      case Start(fault) => RefreshIsExact(s.hook.(isTimerStarted := true), s.ts);
      case StepRestart(fault) => RefreshIsExact(s.hook.(isTimerStarted := true), s.ts);
      case StepDispatch(reaches, markErr, getErr) => if s.lastTask.Some? { DispatchStaysExact(s, getErr); }
      case StepResult(id, outcome, ctxErr) => ResultStaysExact(s, id, outcome, ctxErr);
      case _ =>
    }
  }

  // ---------- no lost wake-up ----------

  /** Something will make the scheduler look at the repository again. */
  ghost predicate WillWake(s: Sys) {
    || s.hook.clock != Idle
    || AnyRefresher(s.hook.cachedMin, s.pending, s.farFuture)
    || (s.lastTask.Some? && s.lastTask.value.id == s.hook.cachedMin.id)
    || (s.getNextErr.Some? && (s.pc.Outside? || s.pc.TimerStopped?))
    || s.pc.Received?
    || (s.pc.Fetched? && s.pc.next.id == s.hook.cachedMin.id && s.pc.next.scheduledAt == s.hook.cachedMin.scheduledAt)
  }

  ghost predicate Awake(s: Sys) {
    Exact(s) && (s.hook.isTimerStarted && NextIndex(s.ts).Some? ==> WillWake(s))
  }

  lemma AddStaysAwake(s: Sys, param: TaskUpdateParam, id: string, ctxErr: Option<Error>)
    requires Awake(s)
    ensures Awake(Apply(s, CoreAdd(param, id, ctxErr)))
  {
    AddStaysExact(s, param, id, ctxErr);
    MoreRefreshers(s.hook.cachedMin, s.pending, NoteAdd(param), s.farFuture);
  }

  lemma CancelStaysAwake(s: Sys, id: string, ctxErr: Option<Error>)
    requires Awake(s)
    ensures Awake(Apply(s, CoreCancel(id, ctxErr)))
  {
    CancelStaysExact(s, id, ctxErr);
    MoreRefreshers(s.hook.cachedMin, s.pending, NoteCancel(id), s.farFuture);
    RetireAddsNone(s.ts, ctxErr, id, (t: Task) => AsCancelled(t, s.now));
  }

  /** If the dispatched task is the cached one, then marking it succeeded, or a refresh is on its way already. */
  lemma DispatchOfCached(s: Sys)
    requires Exact(s) && s.hook.isTimerStarted && s.lastTask.Some? && NextIndex(s.ts).Some?
    requires s.lastTask.value.id == s.hook.cachedMin.id
    ensures
      || AnyRefresher(s.hook.cachedMin, s.pending, s.farFuture)
      || MarkAsDispatched(s.ts, None, s.lastTask.value.id, s.now).1.None?
  {
    if CacheExact(s.ts, s.hook.cachedMin) {
      IndexOfUnique(s.ts, NextIndex(s.ts).value);
    }
  }

  lemma DispatchWakes(s: Sys, next: Task, getErr: Option<Error>)
    requires Exact(s) && s.hook.isTimerStarted && s.lastTask == Some(next) && NextIndex(s.ts).Some?
    requires
      || s.hook.clock != Idle || AnyRefresher(s.hook.cachedMin, s.pending, s.farFuture)
      || next.id == s.hook.cachedMin.id
    ensures WillWake(AfterDispatch(s, next, None, getErr))
  {
    MoreRefreshers(s.hook.cachedMin, s.pending, NoteDispatch(next.id), s.farFuture);
    if next.id == s.hook.cachedMin.id {
      DispatchOfCached(s);
    }
  }

  lemma RetireAddsNone(ts: seq<Task>, ctxErr: Option<Error>, id: string, change: Task -> Task)
    requires forall t :: change(t).state != Scheduled
    ensures NextIndex(ChangeScheduled(ts, ctxErr, id, change).0).Some? ==> NextIndex(ts).Some?
  {
    var ts' := ChangeScheduled(ts, ctxErr, id, change).0;
    if NextIndex(ts').Some? {
      assert ts[NextIndex(ts').value].state == Scheduled;
    }
  }

  lemma DispatchStaysAwake(s: Sys, getErr: Option<Error>)
    requires Awake(s)
    ensures Awake(Apply(s, StepDispatch(true, None, getErr)))
  {
    if s.pc.Inside? && s.lastTask.Some? {
      DispatchStaysExact(s, getErr);
      var s' := Apply(s, StepDispatch(true, None, getErr));
      if s.hook.isTimerStarted && NextIndex(s'.ts).Some? {
        RetireAddsNone(s.ts, None, s.lastTask.value.id, (t: Task) => AsDispatched(t, s.now));
        DispatchWakes(s, s.lastTask.value, getErr);
      }
    }
  }

  lemma SomethingIsNext(ts: seq<Task>, i: nat)
    requires i < |ts| && ts[i].state == Scheduled
    ensures NextIndex(ts).Some?
  {
  }

  lemma UpdateStaysAwake(s: Sys, id: string, param: TaskUpdateParam, ctxErr: Option<Error>)
    requires Awake(s) && Visible(s, id, param)
    ensures Awake(Apply(s, CoreUpdate(id, param, ctxErr)))
  {
    UpdateStaysExact(s, id, param, ctxErr);
    MoreRefreshers(s.hook.cachedMin, s.pending, NoteUpdate(id, param), s.farFuture);
    if UpdateById(s.ts, ctxErr, id, param).1.None? {
      NoSilentRefusal(s.ts, id, (t: Task) => t.Update(param.Normalize()), None, s.now);
      SomethingIsNext(s.ts, IndexOf(s.ts, id));
    }
  }

  lemma ResultStaysAwake(s: Sys, id: string, outcome: WorkOutcome, ctxErr: Option<Error>)
    requires Awake(s)
    ensures Awake(Apply(s, StepResult(id, outcome, ctxErr)))
  {
    ResultStaysExact(s, id, outcome, ctxErr);
    var s' := Apply(s, StepResult(id, outcome, ctxErr));
    if NextIndex(s'.ts).Some? {
      assert s'.ts[NextIndex(s'.ts).value].state == Scheduled;
      assert s.ts[NextIndex(s'.ts).value].state == Scheduled;
    }
  }

  lemma NotifyStaysAwake(s: Sys, n: Note)
    requires Awake(s)
    ensures Awake(Apply(s, Notify(n, None)))
  {
    NotifyStaysExact(s, n);
    if n in s.pending {
      if Refreshes(s.hook.cachedMin, n, s.farFuture) {
        RefreshIsExact(s.hook, s.ts);
      } else if AnyRefresher(s.hook.cachedMin, s.pending, s.farFuture) {
        StillRefresher(s.hook.cachedMin, s.pending, n, s.farFuture);
      }
    }
  }

  lemma StepStaysAwake(s: Sys, e: Event)
    requires Awake(s) && Tame(s, e)
    ensures Awake(Apply(s, e))
  {
    match e {
      case CoreAdd(param, id, ctxErr) => AddStaysAwake(s, param, id, ctxErr);
      case CoreUpdate(id, param, ctxErr) => UpdateStaysAwake(s, id, param, ctxErr);
      case CoreCancel(id, ctxErr) => CancelStaysAwake(s, id, ctxErr);
      case Notify(n, fault) => NotifyStaysAwake(s, n);
      case StepDispatch(reaches, markErr, getErr) => DispatchStaysAwake(s, getErr);
      case StepResult(id, outcome, ctxErr) => ResultStaysAwake(s, id, outcome, ctxErr);
      case _ => StepStaysExact(s, e);
    }
  }

  // ---------- the theorems ----------

  ghost predicate TameRun(s: Sys, es: seq<Event>) {
    forall i :: 0 <= i < |es| ==> Tame(Run(s, es[..i]), es[i])
  }

  lemma {:induction false} TameRunStaysAwake(s: Sys, es: seq<Event>)
    requires Awake(s) && TameRun(s, es)
    ensures Awake(Run(s, es))
  {
    if es != [] {
      var n := |es| - 1;
      forall i | 0 <= i < n ensures Tame(Run(s, es[..n][..i]), es[..n][i]) {
        assert es[..n][..i] == es[..i];
      }
      TameRunStaysAwake(s, es[..n]);
      StepStaysAwake(Run(s, es[..n]), es[n]);
    }
  }

  /** With the timer started and every notification delivered, the cached id is the id `GetNext` answers. */
  lemma SettledCacheIsExact(now: Time, farFuture: Time, es: seq<Event>)
    requires now < farFuture && TameRun(Initial(now, farFuture), es)
    requires
      var s := Run(Initial(now, farFuture), es);
      s.hook.isTimerStarted && s.pending == multiset{}
    ensures
      var s := Run(Initial(now, farFuture), es);
      match GetNext(s.ts)
      case Ok(t) => s.hook.cachedMin.id == t.id && s.hook.cachedMin.scheduledAt == t.scheduledAt
      case Err(_) => s.hook.cachedMin.id == ""
  {
    InitialInv(now, farFuture);
    TameRunStaysAwake(Initial(now, farFuture), es);
  }

  /** While the timer is started and some task is scheduled, something is always left to wake the scheduler. */
  lemma NoLostWakeUp(now: Time, farFuture: Time, es: seq<Event>)
    requires now < farFuture && TameRun(Initial(now, farFuture), es)
    requires
      var s := Run(Initial(now, farFuture), es);
      s.hook.isTimerStarted && exists i :: 0 <= i < |s.ts| && s.ts[i].state == Scheduled
    ensures WillWake(Run(Initial(now, farFuture), es))
  {
    InitialInv(now, farFuture);
    TameRunStaysAwake(Initial(now, farFuture), es);
  }

  // ---------- recovery ----------

  const RESTART: seq<Event> := [StepEnter, StepRestart(None), StepCheck]

  lemma RestartRuns(s: Sys)
    requires s.pc.Outside? && (s.getNextErr.Some? || s.hook.lastErr.Some?)
    ensures Run(s, RESTART) == s.(hook := Started(Stopped(s.hook), GetNext(s.ts)), getNextErr := None, pc := Inside)
  {
    RunThree(s, StepEnter, StepRestart(None), StepCheck);
    var s1 := s.(hook := Stopped(s.hook), pc := TimerStopped);
    assert Apply(s, StepEnter) == s1;
    var s2 := s1.(hook := Started(s1.hook, GetNext(s.ts)), pc := TimerRestarted);
    assert Apply(s1, StepRestart(None)) == s2;
    RefreshIsExact(s1.hook.(isTimerStarted := true), s.ts);
  }

  /** A step that finds an error restarts the timer; if `GetNext` answers, the cache is exact and nothing is lost any more. */
  lemma RestartHeals(s: Sys)
    requires Inv(s) && s.pc.Outside? && (s.getNextErr.Some? || s.hook.lastErr.Some?)
    ensures
      var s' := Run(s, RESTART);
      && Awake(s') && s'.pc.Inside? && s'.getNextErr.None? && s'.hook.isTimerStarted
      && CacheExact(s'.ts, s'.hook.cachedMin) && s'.ts == s.ts
  {
    RestartRuns(s);
    RunKeeps(s, RESTART);
    RefreshIsExact(Stopped(s.hook).(isTimerStarted := true), s.ts);
  }

  /** Whatever went wrong before, hidden updates and faults included, a tame run after a restart loses no wake-up. */
  lemma HealedRunsStayAwake(now: Time, farFuture: Time, es: seq<Event>, more: seq<Event>)
    requires now < farFuture
    requires
      var s := Run(Initial(now, farFuture), es);
      && s.pc.Outside? && (s.getNextErr.Some? || s.hook.lastErr.Some?) && TameRun(Run(s, RESTART), more)
    ensures
      var s' := Run(Initial(now, farFuture), es + RESTART + more);
      s'.hook.isTimerStarted && NextIndex(s'.ts).Some? ==> WillWake(s')
  {
    var s0 := Initial(now, farFuture);
    InitialInv(now, farFuture);
    RunKeeps(s0, es);
    RestartHeals(Run(s0, es));
    TameRunStaysAwake(Run(Run(s0, es), RESTART), more);
    RunAppend(s0, es, RESTART);
    RunAppend(s0, es + RESTART, more);
  }
}
