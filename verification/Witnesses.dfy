/** Concrete runs and inputs that show which assumptions of the theorems the code really needs. */
module Witnesses {
  import opened Wrappers
  import opened Def
  import opened HookTimer
  import opened InMemory
  import opened TaskList
  import opened System
  import opened TimerSafety
  import opened WakeUp
  import opened LostWakeUp

  const START: Time := 1_000_000
  const TEN: Time := 10_000_000
  const TWENTY: Time := 20_000_000
  const FAR: Time := 100_000_000

  const AT_TEN: TaskUpdateParam := NO_PARAM.(workId := Some("work"), scheduledAt := Some(TEN))
  const AT_TWENTY: TaskUpdateParam := NO_PARAM.(workId := Some("work"), scheduledAt := Some(TWENTY))

  lemma RunPhases(s: Sys, a: seq<Event>, b: seq<Event>, c: seq<Event>, d: seq<Event>)
    ensures Run(s, a + b + c + d) == Run(Run(Run(Run(s, a), b), c), d)
  {
    RunAppend(s, a, b);
    RunAppend(s, a + b, c);
    RunAppend(s, a + b + c, d);
  }

  /** A repository that holds one task, with the timer armed for it and every notification delivered. */
  function ArmedForOne(): seq<Event> {
    [CoreAdd(AT_TEN, "a", None), Notify(NoteAdd(AT_TEN), None), Start(None)]
  }

  function TaskAt(param: TaskUpdateParam, id: string): Task {
    param.Normalize().ToTask(id, START)
  }

  lemma TaskAtTen()
    ensures TaskAt(AT_TEN, "a").IsValid() && TaskAt(AT_TEN, "a").scheduledAt == TEN
    ensures NextIndex([TaskAt(AT_TEN, "a")]) == Some(0)
  {
    NextIsUnique([TaskAt(AT_TEN, "a")], 0);
  }

  lemma ArmedForOneState()
    ensures Run(Initial(START, FAR), ArmedForOne()) ==
      Initial(START, FAR).(ts := [TaskAt(AT_TEN, "a")],
                           hook := Hook(TaskAt(AT_TEN, "a"), true, true, None, Armed(TEN)))
  {
    var s := Initial(START, FAR);
    var t := TaskAt(AT_TEN, "a");
    RunThree(s, CoreAdd(AT_TEN, "a", None), Notify(NoteAdd(AT_TEN), None), Start(None));
    TaskAtTen();
    var s1 := s.(ts := [t], pending := multiset{NoteAdd(AT_TEN)});
    assert Apply(s, CoreAdd(AT_TEN, "a", None)) == s1;
    assert Apply(s1, Notify(NoteAdd(AT_TEN), None)) == s.(ts := [t]);
  }

  /** The states of `LosesWakeUpIff` are reached. */
  lemma ArmedForOneIsSettled()
    ensures Settled(Run(Initial(START, FAR), ArmedForOne()))
  {
    ArmedForOneState();
    TaskAtTen();
    InitialInv(START, FAR);
    RunKeeps(Initial(START, FAR), ArmedForOne());
  }

  // ---------- a lost wake-up ----------

  const MOVE_BACK: seq<Event> := [CoreUpdate("a", AT_TWENTY, None), Notify(NoteUpdate("a", AT_TWENTY), None), Tick(TEN)]
  const FIRE: seq<Event> := [Fire, StepEnter, StepReceive]
  const COMPARE: seq<Event> := [StepGetNext(None), StepCompare, StepEnter]

  lemma Moved()
    ensures
      var t' := TaskAt(AT_TEN, "a").Update(AT_TWENTY.Normalize());
      t'.scheduledAt == TWENTY && t'.state == Scheduled && t'.id == "a" && NextIndex([t']) == Some(0)
    ensures !UpdateRefreshes(TaskAt(AT_TEN, "a"), "a", AT_TWENTY)
  {
    TaskAtTen();
    NextIsUnique([TaskAt(AT_TEN, "a").Update(AT_TWENTY.Normalize())], 0);
  }

  lemma UpdateStep(s: Sys)
    requires s.ts == [TaskAt(AT_TEN, "a")] && s.pending == multiset{}
    ensures Apply(s, CoreUpdate("a", AT_TWENTY, None)) ==
      s.(ts := [TaskAt(AT_TEN, "a").Update(AT_TWENTY.Normalize())], pending := multiset{NoteUpdate("a", AT_TWENTY)})
  {
    TaskAtTen();
    assert IndexOf(s.ts, "a") == 0;
  }

  lemma MoveBackPhase(s: Sys)
    requires s.ts == [TaskAt(AT_TEN, "a")] && s.pending == multiset{} && s.now == START && s.farFuture == FAR
    requires s.hook.cachedMin == TaskAt(AT_TEN, "a")
    ensures Run(s, MOVE_BACK) == s.(ts := [TaskAt(AT_TEN, "a").Update(AT_TWENTY.Normalize())], now := TEN)
  {
    var n := NoteUpdate("a", AT_TWENTY);
    RunThree(s, CoreUpdate("a", AT_TWENTY, None), Notify(n, None), Tick(TEN));
    Moved();
    UpdateStep(s);
    var s1 := Apply(s, CoreUpdate("a", AT_TWENTY, None));
    assert Apply(s1, Notify(n, None)) == s1.(pending := multiset{});
  }

  lemma FirePhase(s: Sys)
    requires s.now == TEN && s.hook.clock == Armed(TEN) && s.hook.lastErr.None?
    requires s.pc == Outside && s.lastTask.None? && s.getNextErr.None?
    ensures Run(s, FIRE) == s.(hook := s.hook.(clock := Idle), pc := Received(TEN))
  {
    RunThree(s, Fire, StepEnter, StepReceive);
  }

  lemma ComparePhase(s: Sys)
    requires s.pc == Received(TEN) && s.lastTask.None? && s.getNextErr.None? && s.hook.lastErr.None?
    requires NextIndex(s.ts) == Some(0) && s.ts[0].scheduledAt != s.hook.cachedMin.scheduledAt
    ensures Run(s, COMPARE) == s.(pc := Inside)
  {
    RunThree(s, StepGetNext(None), StepCompare, StepEnter);
  }

  /**
   `UpdateById` moves the cached task back, which the hook ignores; the timer fires for the old
   instant and the firing is dropped. Now the scheduler waits, a task is scheduled, and nothing is
   left that would wake the scheduler for it.
   */
  lemma UpdateLosesWakeUp()
    ensures
      var s := Run(Initial(START, FAR), ArmedForOne() + MOVE_BACK + FIRE + COMPARE);
      && s.hook.isTimerStarted && s.hook.lastErr.None? && s.pc == Inside
      && |s.ts| == 1 && s.ts[0].state == Scheduled && s.pending == multiset{}
      && !WillWake(s)
  {
    var s0 := Initial(START, FAR);
    RunPhases(s0, ArmedForOne(), MOVE_BACK, FIRE, COMPARE);
    TaskAtTen();
    Moved();
    ArmedForOneState();
    MoveBackPhase(Run(s0, ArmedForOne()));
    FirePhase(Run(Run(s0, ArmedForOne()), MOVE_BACK));
    ComparePhase(Run(Run(Run(s0, ArmedForOne()), MOVE_BACK), FIRE));
  }

  // ---------- a task handed out early ----------

  const REARM: seq<Event> := [CoreCancel("a", None), CoreAdd(AT_TWENTY, "b", None), Notify(NoteCancel("a"), None)]

  function TaskB(): Task {
    AT_TWENTY.Normalize().ToTask("b", TEN)
  }

  lemma TaskBState()
    ensures TaskB().IsValid() && TaskB().scheduledAt == TWENTY && TaskB().id == "b" && TaskB().state == Scheduled
    ensures NextIndex([AsCancelled(TaskAt(AT_TEN, "a"), TEN), TaskB()]) == Some(1)
  {
    NextIsUnique([AsCancelled(TaskAt(AT_TEN, "a"), TEN), TaskB()], 1);
  }

  lemma CancelStep(s: Sys)
    requires s.ts == [TaskAt(AT_TEN, "a")] && s.now == TEN
    ensures Apply(s, CoreCancel("a", None)) ==
      s.(ts := [AsCancelled(TaskAt(AT_TEN, "a"), TEN)], pending := s.pending + multiset{NoteCancel("a")},
         log := s.log + multiset{CancelOk("a")})
  {
    assert IndexOf(s.ts, "a") == 0;
  }

  lemma AddStep(s: Sys, t: Task)
    requires s.ts == [t] && t.id == "a" && s.now == TEN
    ensures Apply(s, CoreAdd(AT_TWENTY, "b", None)) ==
      s.(ts := [t, TaskB()], pending := s.pending + multiset{NoteAdd(AT_TWENTY)})
  {
    TaskBState();
    assert "a" != "b";
    assert IndexOf(s.ts, "b") == 1;
    assert s.ts + [TaskB()] == [t, TaskB()];
  }

  lemma NotifyStep(s: Sys)
    requires s.ts == [AsCancelled(TaskAt(AT_TEN, "a"), TEN), TaskB()] && NoteCancel("a") in s.pending
    requires s.hook.cachedMin == TaskAt(AT_TEN, "a") && s.hook.isTimerStarted
    ensures Apply(s, Notify(NoteCancel("a"), None)) ==
      s.(hook := Hook(TaskB(), true, true, None, Armed(TWENTY)), pending := s.pending - multiset{NoteCancel("a")})
  {
    TaskBState();
  }

  lemma RearmPhase(s: Sys)
    requires s.ts == [TaskAt(AT_TEN, "a")] && s.now == TEN
    requires s.hook.cachedMin == TaskAt(AT_TEN, "a") && s.hook.isTimerStarted
    ensures Run(s, REARM) ==
      s.(ts := [AsCancelled(TaskAt(AT_TEN, "a"), TEN), TaskB()],
         hook := Hook(TaskB(), true, true, None, Armed(TWENTY)),
         pending := s.pending + multiset{NoteAdd(AT_TWENTY)},
         log := s.log + multiset{CancelOk("a")})
  {
    RunThree(s, CoreCancel("a", None), CoreAdd(AT_TWENTY, "b", None), Notify(NoteCancel("a"), None));
    CancelStep(s);
    var s1 := Apply(s, CoreCancel("a", None));
    AddStep(s1, s1.ts[0]);
    NotifyStep(Apply(s1, CoreAdd(AT_TWENTY, "b", None)));
  }

  lemma GetNextStep(s: Sys)
    requires s.pc == Received(TEN) && NextIndex(s.ts) == Some(1)
    ensures Apply(s, StepGetNext(None)) == s.(pc := Fetched(s.ts[1], TEN))
  {
  }

  lemma CompareStep(s: Sys, t: Task)
    requires s.pc == Fetched(t, TEN) && s.hook.timerReset && s.hook.cachedMin == t && s.getNextErr.None?
    ensures Apply(s, StepCompare) == s.(pc := Outside, lastTask := Some(t))
  {
  }

  lemma AcceptPhase(s: Sys)
    requires s.pc == Received(TEN) && s.lastTask.None? && s.getNextErr.None? && s.hook.lastErr.None?
    requires NextIndex(s.ts) == Some(1) && s.hook.timerReset && s.ts[1] == s.hook.cachedMin
    ensures Run(s, [StepGetNext(None), StepCompare]) == s.(pc := Outside, lastTask := Some(s.ts[1]))
  {
    RunTwo(s, StepGetNext(None), StepCompare);
    GetNextStep(s);
    CompareStep(s.(pc := Fetched(s.ts[1], TEN)), s.ts[1]);
  }

  lemma TickStep(s: Sys, to: Time)
    requires s.now <= to < s.farFuture
    ensures Apply(s, Tick(to)) == s.(now := to)
  {
  }

  lemma TickAfter(s: Sys, es: seq<Event>, to: Time)
    requires Run(s, es).now <= to < Run(s, es).farFuture
    ensures Run(s, es + [Tick(to)]) == Run(s, es).(now := to)
  {
    RunSnoc(s, es, Tick(to));
    TickStep(Run(s, es), to);
  }

  lemma ArmedAtTen()
    ensures Run(Initial(START, FAR), ArmedForOne() + [Tick(TEN)]) ==
      Initial(START, FAR).(ts := [TaskAt(AT_TEN, "a")], now := TEN,
                           hook := Hook(TaskAt(AT_TEN, "a"), true, true, None, Armed(TEN)))
  {
    ArmedForOneState();
    TickAfter(Initial(START, FAR), ArmedForOne(), TEN);
  }

  /**
   The three looks of the timer branch are not one step. If the task whose instant fired is cancelled
   in between and the hook re-arms for a later task, that task passes the comparison and is handed
   to the dispatcher ahead of its time.
   */
  lemma RearmingHandsOutEarly()
    ensures
      var s := Run(Initial(START, FAR), (ArmedForOne() + [Tick(TEN)]) + FIRE + REARM + [StepGetNext(None), StepCompare]);
      s.pc == Outside && s.lastTask.Some? && s.lastTask.value.scheduledAt > s.now
  {
    var s0 := Initial(START, FAR);
    RunPhases(s0, ArmedForOne() + [Tick(TEN)], FIRE, REARM, [StepGetNext(None), StepCompare]);
    TaskBState();
    ArmedAtTen();
    var s1 := Run(s0, ArmedForOne() + [Tick(TEN)]);
    FirePhase(s1);
    var s2 := Run(s1, FIRE);
    RearmPhase(s2);
    AcceptPhase(Run(s2, REARM));
  }

  // ---------- loading keys that repeat or do not name their task ----------

  const TASK_A: Task := TaskAt(AT_TEN, "a")
  const DONE_A: Task := TASK_A.(state := Done)

  lemma LoadableTasks()
    ensures TASK_A.IsValid() && DONE_A.IsValid() && TASK_A.id == "a" && TASK_A.state == Scheduled
  {
  }

  /** A task whose pair is followed by one with the same key stays in the heap and is not in the map. */
  method OverwrittenTaskStaysInHeap(repo: InMemoryRepository) returns (err: Option<Error>)
    modifies repo
    ensures err.None? && !repo.Agrees() && !repo.Reachable()
  {
    LoadableTasks();
    var kv := [KeyValue("a", TASK_A), KeyValue("a", DONE_A)];
    assert kv[0].key == kv[1].key;
    err := repo.Load(kv);
  }

  /** The other way round the repeated key does no harm. */
  method RepeatedKeyMayAgree(repo: InMemoryRepository) returns (err: Option<Error>)
    modifies repo
    ensures err.None? && repo.Agrees() && repo.Reachable()
  {
    LoadableTasks();
    err := repo.Load([KeyValue("a", DONE_A), KeyValue("a", TASK_A)]);
  }

  /** A task under a key that is not its id is in the heap and in the map, but its id does not lead to it. */
  method ForeignKeyIsUnreachable(repo: InMemoryRepository) returns (err: Option<Error>)
    modifies repo
    ensures err.None? && repo.Agrees() && !repo.Reachable()
  {
    LoadableTasks();
    var kv := [KeyValue("b", TASK_A)];
    assert kv[0].key != TASK_A.id;
    err := repo.Load(kv);
  }
}
