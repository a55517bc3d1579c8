/** What holds of the reference repository over every run of its operations. */
module TaskListLaws {
  import opened Wrappers
  import opened Def
  import opened TaskList

  // ---------- updates compose ----------

  function UpdateAll(t: Task, ps: seq<TaskUpdateParam>): Task
    decreases |ps|
  {
    if ps == [] then t else UpdateAll(t.Update(ps[0]), ps[1..])
  }

  function Fold(ps: seq<TaskUpdateParam>): TaskUpdateParam {
    if ps == [] then NO_PARAM else ps[0].Update(Fold(ps[1..]))
  }

  predicate OptionAligned(t: Option<Time>) {
    t.Some? ==> Aligned(t.value)
  }

  /** Every time is a whole millisecond, so that `NormalizeTimes` changes nothing. */
  predicate TimesAligned(t: Task) {
    && Aligned(t.scheduledAt) && Aligned(t.createdAt) && OptionAligned(t.deadline)
    && OptionAligned(t.cancelledAt) && OptionAligned(t.dispatchedAt) && OptionAligned(t.doneAt)
  }

  lemma NormalizedTimes(t: Task)
    ensures TimesAligned(t.NormalizeTimes())
    ensures TimesAligned(t) <==> t.NormalizeTimes() == t
  {
  }

  lemma UpdateThenUpdate(t: Task, p: TaskUpdateParam, q: TaskUpdateParam)
    ensures t.Update(p).Update(q) == t.Update(p.Update(q))
  {
  }

  /** Normalising a parameter first changes nothing. */
  lemma NormalizeIsRedundant(t: Task, p: TaskUpdateParam)
    ensures t.Update(p.Normalize()) == t.Update(p)
  {
  }

  /** Parameters form a monoid under `TaskUpdateParam.Update`. */
  lemma ParamMonoid(p: TaskUpdateParam, q: TaskUpdateParam, r: TaskUpdateParam)
    ensures p.Update(q).Update(r) == p.Update(q.Update(r))
    ensures p.Update(NO_PARAM) == p == NO_PARAM.Update(p)
  {
  }

  /** The monoid acts on tasks: a run of updates is one update by the folded parameter. */
  lemma {:induction false} UpdateIsAction(t: Task, ps: seq<TaskUpdateParam>)
    requires ps != [] || TimesAligned(t)
    ensures UpdateAll(t, ps) == t.Update(Fold(ps))
    decreases |ps|
  {
    NormalizedTimes(t);
    if ps != [] {
      UpdateIsAction(t.Update(ps[0]), ps[1..]);
      UpdateThenUpdate(t, ps[0], Fold(ps[1..]));
    }
  }

  function UpdateByIdAll(ts: seq<Task>, id: string, ps: seq<TaskUpdateParam>): seq<Task>
    decreases |ps|
  {
    if ps == [] then ts else UpdateByIdAll(UpdateById(ts, None, id, ps[0]).0, id, ps[1..])
  }

  /** A run of `UpdateById` calls on a scheduled task is one call, so every later answer is the same. */
  lemma {:induction false} UpdateByIdIsAction(ts: seq<Task>, id: string, ps: seq<TaskUpdateParam>)
    requires DistinctIds(ts) && Has(ts, id) && ts[IndexOf(ts, id)].state == Scheduled
    requires ps != [] || TimesAligned(ts[IndexOf(ts, id)])
    ensures UpdateByIdAll(ts, id, ps) == UpdateById(ts, None, id, Fold(ps)).0
    decreases |ps|
  {
    var i := IndexOf(ts, id);
    NormalizedTimes(ts[i]);
    if ps == [] {
      NormalizeIsRedundant(ts[i], NO_PARAM);
    } else {
      NormalizeIsRedundant(ts[i], ps[0]);
      NormalizeIsRedundant(ts[i], Fold(ps));
      var ts' := UpdateById(ts, None, id, ps[0]).0;
      assert ts' == ts[i := ts[i].Update(ps[0])];
      assert ts'[i].id == id;
      IndexOfUnique(ts', i);
      UpdateByIdIsAction(ts', id, ps[1..]);
      NormalizeIsRedundant(ts'[i], Fold(ps[1..]));
      UpdateThenUpdate(ts[i], ps[0], Fold(ps[1..]));
    }
  }

  /** What a run of `UpdateById` calls does: the stored task goes through the updates, the others stay. */
  lemma {:induction false} UpdateByIdAllStores(ts: seq<Task>, id: string, ps: seq<TaskUpdateParam>)
    requires DistinctIds(ts) && Has(ts, id) && ts[IndexOf(ts, id)].state == Scheduled
    ensures UpdateByIdAll(ts, id, ps) == ts[IndexOf(ts, id) := UpdateAll(ts[IndexOf(ts, id)], ps)]
    decreases |ps|
  {
    var i := IndexOf(ts, id);
    if ps != [] {
      NormalizeIsRedundant(ts[i], ps[0]);
      var ts' := UpdateById(ts, None, id, ps[0]).0;
      assert ts' == ts[i := ts[i].Update(ps[0])];
      IndexOfUnique(ts', i);
      UpdateByIdAllStores(ts', id, ps[1..]);
    }
  }

  // ---------- life cycle ----------

  /** State and timestamps agree. */
  predicate LifeCycle(t: Task) {
    match t.state
    case Scheduled => t.cancelledAt.None? && t.dispatchedAt.None? && t.doneAt.None?
    case Cancelled => t.cancelledAt.Some? && t.dispatchedAt.None? && t.doneAt.None?
    case Dispatched => t.cancelledAt.None? && t.dispatchedAt.Some? && t.doneAt.None?
    case Done => t.cancelledAt.None? && t.dispatchedAt.Some? && t.doneAt.Some?
    case Failed => t.cancelledAt.None? && t.dispatchedAt.Some? && t.doneAt.Some?
    case Unknown(_) => false
  }

  predicate TaskOk(t: Task) {
    LifeCycle(t) && TimesAligned(t) && t.id != ""
  }

  /** The invariant of a repository filled by its own operations. */
  ghost predicate WellFormed(ts: seq<Task>) {
    DistinctIds(ts) && forall i :: 0 <= i < |ts| ==> TaskOk(ts[i])
  }

  /** How one call may change one task. */
  predicate StepOf(t: Task, t': Task) {
    && t'.id == t.id && t'.createdAt == t.createdAt
    && (t' == t
        || (t.state == Scheduled && t'.state in {Scheduled, Cancelled, Dispatched})
        || (t.state == Dispatched && t'.state in {Done, Failed}))
  }

  lemma NewTaskOk(param: TaskUpdateParam, id: string, now: Time)
    ensures
      var t := param.Normalize().ToTask(id, now);
      && t.id == id && t.state == Scheduled && LifeCycle(t) && TimesAligned(t)
      && t.createdAt == NormalizeTime(now) && t.priority == param.priority.GetOr(0)
      && t.scheduledAt == NormalizeTime(param.scheduledAt.GetOr(0))
  {
  }

  lemma UpdatedOk(t: Task, param: TaskUpdateParam)
    requires t.state == Scheduled && TaskOk(t)
    ensures
      var t' := t.Update(param.Normalize());
      && TaskOk(t') && t'.state == Scheduled && StepOf(t, t')
      && t'.priority == param.priority.GetOr(t.priority)
      && t'.scheduledAt == NormalizeTime(param.scheduledAt.GetOr(t.scheduledAt))
  {
  }

  lemma RetiredOk(t: Task, workErr: Option<string>, now: Time)
    requires TaskOk(t)
    ensures t.state == Scheduled ==> TaskOk(AsCancelled(t, now)) && TaskOk(AsDispatched(t, now))
    ensures t.state == Dispatched ==> TaskOk(AsDone(t, workErr, now))
  {
  }

  datatype Op =
    | Add(param: TaskUpdateParam, newId: string)
    | Update(id: string, param: TaskUpdateParam)
    | CancelTask(id: string)
    | Dispatch(id: string)
    | Finish(id: string, workErr: Option<string>)

  /** One call at clock time `now`; ids are fresh, as those of `uuid.NewString` are. */
  function Call(ts: seq<Task>, op: Op, ctxErr: Option<Error>, now: Time): seq<Task> {
    match op
    case Add(param, newId) => if Has(ts, newId) then ts else AddTask(ts, ctxErr, param, newId, now).0
    case Update(id, param) => UpdateById(ts, ctxErr, id, param).0
    case CancelTask(id) => Cancel(ts, ctxErr, id, now).0
    case Dispatch(id) => MarkAsDispatched(ts, ctxErr, id, now).0
    case Finish(id, workErr) => MarkAsDone(ts, ctxErr, id, workErr, now).0
  }

  /** From `ts` to `ts'` every task takes at most one step, and the invariant is kept. */
  ghost predicate Evolves(ts: seq<Task>, ts': seq<Task>) {
    && WellFormed(ts') && |ts| <= |ts'|
    && forall i :: 0 <= i < |ts| ==> StepOf(ts[i], ts'[i])
  }

  lemma OneStep(ts: seq<Task>, i: nat, t': Task)
    requires WellFormed(ts) && i < |ts| && TaskOk(t') && StepOf(ts[i], t')
    ensures Evolves(ts, ts[i := t'])
  {
  }

  lemma AddEvolves(ts: seq<Task>, ctxErr: Option<Error>, param: TaskUpdateParam, id: string, now: Time)
    requires WellFormed(ts) && !Has(ts, id)
    ensures Evolves(ts, AddTask(ts, ctxErr, param, id, now).0)
  {
    NewTaskOk(param, id, now);
    assert forall i :: 0 <= i < |ts| ==> ts[i].id != id;
  }

  lemma ChangeEvolves(ts: seq<Task>, ctxErr: Option<Error>, id: string, change: Task -> Task)
    requires WellFormed(ts)
    requires forall t :: TaskOk(t) && t.state == Scheduled ==> TaskOk(change(t)) && StepOf(t, change(t))
    ensures Evolves(ts, ChangeScheduled(ts, ctxErr, id, change).0)
  {
    if Has(ts, id) && ts[IndexOf(ts, id)].state == Scheduled {
      OneStep(ts, IndexOf(ts, id), change(ts[IndexOf(ts, id)]));
    }
  }

  lemma UpdateEvolves(ts: seq<Task>, ctxErr: Option<Error>, id: string, param: TaskUpdateParam)
    requires WellFormed(ts)
    ensures Evolves(ts, UpdateById(ts, ctxErr, id, param).0)
  {
    forall t | TaskOk(t) && t.state == Scheduled
      ensures TaskOk(t.Update(param.Normalize())) && StepOf(t, t.Update(param.Normalize()))
    {
      UpdatedOk(t, param);
    }
    ChangeEvolves(ts, ctxErr, id, (t: Task) => t.Update(param.Normalize()));
  }

  lemma CancelEvolves(ts: seq<Task>, ctxErr: Option<Error>, id: string, now: Time)
    requires WellFormed(ts)
    ensures Evolves(ts, Cancel(ts, ctxErr, id, now).0)
  {
    forall t | TaskOk(t) ensures t.state == Scheduled ==> TaskOk(AsCancelled(t, now)) {
      RetiredOk(t, None, now);
    }
    ChangeEvolves(ts, ctxErr, id, (t: Task) => AsCancelled(t, now));
  }

  lemma DispatchEvolves(ts: seq<Task>, ctxErr: Option<Error>, id: string, now: Time)
    requires WellFormed(ts)
    ensures Evolves(ts, MarkAsDispatched(ts, ctxErr, id, now).0)
  {
    forall t | TaskOk(t) ensures t.state == Scheduled ==> TaskOk(AsDispatched(t, now)) {
      RetiredOk(t, None, now);
    }
    ChangeEvolves(ts, ctxErr, id, (t: Task) => AsDispatched(t, now));
  }

  lemma DoneEvolves(ts: seq<Task>, ctxErr: Option<Error>, id: string, workErr: Option<string>, now: Time)
    requires WellFormed(ts)
    ensures Evolves(ts, MarkAsDone(ts, ctxErr, id, workErr, now).0)
  {
    if Has(ts, id) && ts[IndexOf(ts, id)].state == Dispatched {
      RetiredOk(ts[IndexOf(ts, id)], workErr, now);
      OneStep(ts, IndexOf(ts, id), AsDone(ts[IndexOf(ts, id)], workErr, now));
    }
  }

  /** Every call takes every task at most one step of its life cycle. */
  lemma CallEvolves(ts: seq<Task>, op: Op, ctxErr: Option<Error>, now: Time)
    requires WellFormed(ts)
    ensures Evolves(ts, Call(ts, op, ctxErr, now))
  {
    match op {
      case Add(param, newId) => if !Has(ts, newId) { AddEvolves(ts, ctxErr, param, newId, now); }
      case Update(id, param) => UpdateEvolves(ts, ctxErr, id, param);
      case CancelTask(id) => CancelEvolves(ts, ctxErr, id, now);
      case Dispatch(id) => DispatchEvolves(ts, ctxErr, id, now);
      case Finish(id, workErr) => DoneEvolves(ts, ctxErr, id, workErr, now);
    }
  }

  datatype TimedOp = TimedOp(op: Op, ctxErr: Option<Error>, now: Time)

  function RunCalls(ts: seq<Task>, ops: seq<TimedOp>): seq<Task> {
    if ops == [] then ts
    else
      var last := ops[|ops| - 1];
      Call(RunCalls(ts, ops[..|ops| - 1]), last.op, last.ctxErr, last.now)
  }

  predicate Ended(s: State) {
    s in {Cancelled, Done, Failed}
  }

  /** Over every run the timestamps agree with the state, ids keep their place, and ended tasks never change again. */
  lemma {:induction false} RunKeepsLifeCycle(ts: seq<Task>, ops: seq<TimedOp>)
    requires WellFormed(ts)
    ensures WellFormed(RunCalls(ts, ops)) && |ts| <= |RunCalls(ts, ops)|
    ensures forall i :: 0 <= i < |ts| ==> RunCalls(ts, ops)[i].id == ts[i].id
    ensures forall i :: 0 <= i < |ts| && Ended(ts[i].state) ==> RunCalls(ts, ops)[i] == ts[i]
    ensures forall i :: 0 <= i < |ts| && ts[i].state != Scheduled ==> RunCalls(ts, ops)[i].state != Scheduled
  {
    if ops != [] {
      var last := ops[|ops| - 1];
      RunKeepsLifeCycle(ts, ops[..|ops| - 1]);
      CallEvolves(RunCalls(ts, ops[..|ops| - 1]), last.op, last.ctxErr, last.now);
    }
  }

  // ---------- refusals ----------

  /** The kind that fits an ended or dispatched state. */
  function KindOf(s: State): ErrorKind
    requires s != Scheduled && !s.Unknown?
  {
    match s
    case Cancelled => AlreadyCancelled
    case Dispatched => AlreadyDispatched
    case _ => AlreadyDone
  }

  /**
   A refusal is reported exactly when some timestamp is set; the state is never looked at.
   So a task whose state is not scheduled but which carries no timestamp is refused with a nil error.
   */
  lemma RefusalReported(t: Task)
    ensures ErrKindScheduledOnly(t).Some? <==> t.doneAt.Some? || t.cancelledAt.Some? || t.dispatchedAt.Some?
    ensures ErrKindMarkAsDone(t).Some? <==> t.doneAt.Some? || t.cancelledAt.Some? || t.dispatchedAt.None?
  {
  }

  /** Along a well-formed repository every refusal names the task and the kind of its state. */
  lemma NoSilentRefusal(ts: seq<Task>, id: string, change: Task -> Task, workErr: Option<string>, now: Time)
    requires WellFormed(ts)
    ensures
      var err := ChangeScheduled(ts, None, id, change).1;
      if !Has(ts, id) then err == Some(RepositoryError(id, IdNotFound))
      else
        var t := ts[IndexOf(ts, id)];
        if t.state == Scheduled then err == None else err == Some(RepositoryError(id, KindOf(t.state)))
    ensures
      var err := MarkAsDone(ts, None, id, workErr, now).1;
      if !Has(ts, id) then err == Some(RepositoryError(id, IdNotFound))
      else
        var t := ts[IndexOf(ts, id)];
        if t.state == Dispatched then err == None
        else if t.state == Scheduled then err == Some(RepositoryError(id, NotDispatched))
        else err == Some(RepositoryError(id, KindOf(t.state)))
  {
  }

  /** A call that returns an error changes nothing, and a call that returns none took effect. */
  lemma ErrorsMeanUnchanged(ts: seq<Task>, ctxErr: Option<Error>, id: string, now: Time)
    requires WellFormed(ts)
    ensures
      var (ts', err) := Cancel(ts, ctxErr, id, now);
      if err.Some? then ts' == ts
      else Has(ts, id) && ts[IndexOf(ts, id)].state == Scheduled && ts'[IndexOf(ts, id)].state == Cancelled
    ensures
      var (ts', err) := MarkAsDispatched(ts, ctxErr, id, now);
      if err.Some? then ts' == ts
      else Has(ts, id) && ts[IndexOf(ts, id)].state == Scheduled && ts'[IndexOf(ts, id)].state == Dispatched
  {
    if Has(ts, id) {
      RefusalReported(ts[IndexOf(ts, id)]);
      assert TaskOk(ts[IndexOf(ts, id)]);
    }
  }

  // ---------- save and load ----------

  /** What is loaded from pairs that name and hold the tasks of a list. */
  lemma LoadOfPairs(ts: seq<Task>, kv: seq<KeyValue>)
    requires WellFormed(ts) && |kv| == |ts| && forall i :: 0 <= i < |ts| ==> kv[i] == KeyValue(ts[i].id, ts[i])
    ensures Values(kv) == ts && Consistent(kv)
    ensures AllValid(kv) <==> forall i :: 0 <= i < |ts| ==> ts[i].IsValid()
  {
    assert Values(kv) == ts;
    if !AllValid(kv) {
      var i :| 0 <= i < |kv| && !kv[i].value.IsValid();
      assert !ts[i].IsValid();
    }
  }

  /** Loading what was saved restores the list, and with it every later answer, exactly if every task is valid. */
  lemma SaveLoadRoundTrip(ts: seq<Task>, other: seq<Task>)
    requires WellFormed(ts)
    ensures Consistent(Save(ts))
    ensures Load(other, Save(ts)) == (ts, None) <==> forall i :: 0 <= i < |ts| ==> ts[i].IsValid()
    ensures Load(other, Save(ts)).1 == Some(InvalidTask) <==> exists i :: 0 <= i < |ts| && !ts[i].IsValid()
  {
    LoadOfPairs(ts, Save(ts));
  }

  /** `UpdateById` does not test validity: these are the parameters that make a valid task invalid. */
  lemma UpdateKeepsValidity(t: Task, param: TaskUpdateParam)
    requires t.state == Scheduled && TaskOk(t) && t.IsValid()
    ensures t.Update(param.Normalize()).IsValid() <==>
            param.workId != Some("") && !(param.scheduledAt.Some? && NormalizeTime(param.scheduledAt.value) == 0)
  {
    UpdatedOk(t, param);
  }

  // ---------- draining ----------

  function CountScheduled(ts: seq<Task>): nat {
    if ts == [] then 0 else CountScheduled(ts[..|ts| - 1]) + if ts[|ts| - 1].state == Scheduled then 1 else 0
  }

  lemma {:induction false} RetireOne(ts: seq<Task>, i: nat, t': Task)
    requires i < |ts| && ts[i].state == Scheduled && t'.state != Scheduled
    ensures CountScheduled(ts[i := t']) == CountScheduled(ts) - 1
    decreases |ts|
  {
    var n := |ts| - 1;
    if i == n {
      assert ts[i := t'][..n] == ts[..n];
    } else {
      assert ts[i := t'][..n] == ts[..n][i := t'];
      RetireOne(ts[..n], i, t');
    }
  }

  /** The positions that `GetNext` reports when each reported task is then taken out of the scheduled state. */
  function Drain(ts: seq<Task>, retire: Task -> Task): (order: seq<nat>)
    requires forall t :: retire(t).state != Scheduled
    decreases CountScheduled(ts)
  {
    match NextIndex(ts)
    case None => []
    case Some(i) =>
      RetireOne(ts, i, retire(ts[i]));
      [i] + Drain(ts[i := retire(ts[i])], retire)
  }

  /** Position `i` comes before position `j`: by the user-visible order, and by insertion among equals. */
  predicate ComesBefore(ts: seq<Task>, i: nat, j: nat)
    requires i < |ts| && j < |ts|
  {
    Precedes(ts[i], ts[j]) || (!Precedes(ts[j], ts[i]) && i < j)
  }

  /** `order` lists every scheduled position exactly once, each before all later ones. */
  ghost predicate SortedEnumeration(ts: seq<Task>, order: seq<nat>) {
    && (forall k :: 0 <= k < |order| ==> order[k] < |ts| && ts[order[k]].state == Scheduled)
    && (forall i :: 0 <= i < |ts| && ts[i].state == Scheduled ==> i in order)
    && (forall k, l :: 0 <= k < l < |order| ==> order[k] != order[l] && ComesBefore(ts, order[k], order[l]))
  }

  lemma PrependNext(ts: seq<Task>, i: nat, t': Task, order': seq<nat>)
    requires IsNext(ts, i) && t'.state != Scheduled && SortedEnumeration(ts[i := t'], order')
    ensures SortedEnumeration(ts, [i] + order')
  {
    var ts', order := ts[i := t'], [i] + order';
    forall k | 0 <= k < |order|
      ensures order[k] < |ts| && ts[order[k]].state == Scheduled && (k > 0 ==> order[k] != i && order[k] == order'[k - 1])
    {
    }
    forall j | 0 <= j < |ts| && ts[j].state == Scheduled
      ensures j in order
    {
      if j != i {
        assert ts'[j].state == Scheduled;
      }
    }
    forall k, l | 0 <= k < l < |order|
      ensures order[k] != order[l] && ComesBefore(ts, order[k], order[l])
    {
      if k > 0 {
        assert ComesBefore(ts', order'[k - 1], order'[l - 1]);
      }
    }
  }

  /** Draining visits every scheduled task exactly once, in sorted order. */
  lemma {:induction false} DrainSorts(ts: seq<Task>, retire: Task -> Task)
    requires forall t :: retire(t).state != Scheduled
    ensures SortedEnumeration(ts, Drain(ts, retire)) && |Drain(ts, retire)| == CountScheduled(ts)
    decreases CountScheduled(ts)
  {
    match NextIndex(ts)
    case None => NoneScheduled(ts);
    case Some(i) =>
      RetireOne(ts, i, retire(ts[i]));
      DrainSorts(ts[i := retire(ts[i])], retire);
      PrependNext(ts, i, retire(ts[i]), Drain(ts[i := retire(ts[i])], retire));
  }

  lemma NoneScheduled(ts: seq<Task>)
    requires NothingScheduled(ts)
    ensures CountScheduled(ts) == 0
  {
    if ts != [] {
      NoneScheduled(ts[..|ts| - 1]);
    }
  }

  /** Each step of the drain is `GetNext` followed by `MarkAsDispatched` (or `Cancel`) of the id it returned. */
  lemma DrainStep(ts: seq<Task>, now: Time)
    requires DistinctIds(ts) && NextIndex(ts).Some?
    ensures
      var i := NextIndex(ts).value;
      && GetNext(ts) == Ok(ts[i])
      && MarkAsDispatched(ts, None, ts[i].id, now) == (ts[i := AsDispatched(ts[i], now)], None)
      && Cancel(ts, None, ts[i].id, now) == (ts[i := AsCancelled(ts[i], now)], None)
  {
    IndexOfUnique(ts, NextIndex(ts).value);
  }
}
