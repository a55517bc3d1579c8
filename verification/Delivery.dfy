/** Every task is dispatched at most once, never after it was cancelled, and work in flight is conserved. */
module Delivery {
  import opened Wrappers
  import opened Def
  import opened TaskList
  import opened TaskListLaws
  import opened System

  function Status(ts: seq<Task>, id: string): Option<State> {
    if Has(ts, id) then Some(ts[IndexOf(ts, id)].state) else None
  }

  predicate WasMarked(st: Option<State>) {
    st.Some? && (st.value.Dispatched? || st.value.Done? || st.value.Failed?)
  }

  function One(b: bool): nat {
    if b then 1 else 0
  }

  /** What the history says of one id agrees with the task's state. */
  ghost predicate Ledger(s: Sys, id: string) {
    && s.log[CancelOk(id)] == One(Status(s.ts, id) == Some(Cancelled))
    && s.log[Marked(id)] == One(WasMarked(Status(s.ts, id)))
    && s.log[StateDispatched(id)] <= s.log[Marked(id)]
    && s.log[StateTaskDone(id)] + s.queue[id] == s.log[StateDispatched(id)]
  }

  /** A task in state dispatched is exactly a reserved result or one whose consumed result was context.Canceled. */
  ghost predicate InFlight(s: Sys, id: string) {
    One(Status(s.ts, id) == Some(State.Dispatched)) == s.queue[id] + s.abandoned[id]
  }

  ghost predicate Books(s: Sys) {
    WellFormed(s.ts) && forall id :: Ledger(s, id)
  }

  ghost predicate Conserved(s: Sys) {
    forall id :: InFlight(s, id)
  }

  /** The contexts of the fetcher and of `MarkAsDone` are live. */
  predicate Live(e: Event) {
    match e
    case StepDispatch(_, _, getErr) => getErr.None?
    case StepResult(_, _, ctxErr) => ctxErr.None?
    case _ => true
  }

  // ---------- one id across the list operations ----------

  lemma StatusAfterSet(ts: seq<Task>, i: nat, t': Task, id: string)
    requires DistinctIds(ts) && i < |ts| && t'.id == ts[i].id
    ensures Status(ts[i := t'], id) == if id == ts[i].id then Some(t'.state) else Status(ts, id)
  {
    var ts' := ts[i := t'];
    IndexOfUnique(ts, i);
    IndexOfUnique(ts', i);
    if Has(ts, id) { IndexOfUnique(ts', IndexOf(ts, id)); }
    if Has(ts', id) { IndexOfUnique(ts, IndexOf(ts', id)); }
  }

  lemma StatusAfterAppend(ts: seq<Task>, t: Task, id: string)
    requires DistinctIds(ts + [t])
    ensures Status(ts + [t], id) == if id == t.id then Some(t.state) else Status(ts, id)
  {
    var ts' := ts + [t];
    IndexOfUnique(ts', |ts|);
    if Has(ts, id) {
      assert ts'[IndexOf(ts, id)] == ts[IndexOf(ts, id)];
      IndexOfUnique(ts', IndexOf(ts, id));
    }
    if Has(ts', id) && id != t.id {
      assert ts[IndexOf(ts', id)].id == id;
    }
  }

  /** A successful change takes one id out of state scheduled and leaves the status of every other id. */
  lemma ChangeSeen(ts: seq<Task>, ctxErr: Option<Error>, target: string, change: Task -> Task)
    requires WellFormed(ts) && ChangeScheduled(ts, ctxErr, target, change).1.None?
    requires forall t :: change(t).id == t.id
    ensures Status(ts, target) == Some(Scheduled)
    ensures forall id :: Status(ChangeScheduled(ts, ctxErr, target, change).0, id)
                         == (if id == target then Some(change(ts[IndexOf(ts, target)]).state) else Status(ts, id))
  {
    NoSilentRefusal(ts, target, change, None, 0);
    forall id {
      StatusAfterSet(ts, IndexOf(ts, target), change(ts[IndexOf(ts, target)]), id);
    }
  }

  // ---------- every step ----------

  ghost predicate KeepsBooks(s: Sys, s': Sys, live: bool) {
    Books(s') && (Conserved(s) && live ==> Conserved(s'))
  }

  /** Steps that touch no status, no history and no queue entry. */
  lemma SameBooks(s: Sys, s': Sys)
    requires Books(s) && WellFormed(s'.ts)
    requires forall id :: Status(s'.ts, id) == Status(s.ts, id)
    requires s'.log == s.log && s'.queue == s.queue && s'.abandoned == s.abandoned
    ensures KeepsBooks(s, s', true)
  {
    forall id ensures Ledger(s', id) && (Conserved(s) ==> InFlight(s', id)) {
      assert Ledger(s, id);
      if Conserved(s) { assert InFlight(s, id); }
    }
  }

  lemma AddKeepsBooks(s: Sys, param: TaskUpdateParam, id: string, ctxErr: Option<Error>)
    requires Books(s)
    ensures KeepsBooks(s, Apply(s, CoreAdd(param, id, ctxErr)), true)
  {
    var s' := Apply(s, CoreAdd(param, id, ctxErr));
    var (ts', r) := AddTask(s.ts, ctxErr, param, id, s.now);
    if !Has(s.ts, id) && r.Ok? {
      AddEvolves(s.ts, ctxErr, param, id, s.now);
      NewTaskOk(param, id, s.now);
      forall x ensures Ledger(s', x) && (Conserved(s) ==> InFlight(s', x)) {
        StatusAfterAppend(s.ts, r.value, x);
        assert Ledger(s, x);
        if Conserved(s) { assert InFlight(s, x); }
      }
    }
  }

  lemma UpdateKeepsBooks(s: Sys, id: string, param: TaskUpdateParam, ctxErr: Option<Error>)
    requires Books(s)
    ensures KeepsBooks(s, Apply(s, CoreUpdate(id, param, ctxErr)), true)
  {
    if UpdateById(s.ts, ctxErr, id, param).1.None? {
      UpdateEvolves(s.ts, ctxErr, id, param);
      ChangeSeen(s.ts, ctxErr, id, (t: Task) => t.Update(param.Normalize()));
    }
    SameBooks(s, Apply(s, CoreUpdate(id, param, ctxErr)));
  }

  lemma CancelKeepsBooks(s: Sys, id: string, ctxErr: Option<Error>)
    requires Books(s)
    ensures KeepsBooks(s, Apply(s, CoreCancel(id, ctxErr)), true)
  {
    var s' := Apply(s, CoreCancel(id, ctxErr));
    if Cancel(s.ts, ctxErr, id, s.now).1.None? {
      CancelEvolves(s.ts, ctxErr, id, s.now);
      ChangeSeen(s.ts, ctxErr, id, (t: Task) => AsCancelled(t, s.now));
      forall x ensures Ledger(s', x) && (Conserved(s) ==> InFlight(s', x)) {
        assert Ledger(s, x);
        if Conserved(s) { assert InFlight(s, x); }
      }
    }
  }

  /** One id across a successful dispatch, whose result is reserved if `reserved`. */
  lemma DispatchSeen(s: Sys, s': Sys, id: string, reserved: bool, x: string)
    requires Ledger(s, x) && Status(s'.ts, id).Some?
    requires Status(s.ts, id) == Some(Scheduled) && Status(s'.ts, id) == Some(State.Dispatched)
    requires x != id ==> Status(s'.ts, x) == Status(s.ts, x)
    requires s'.abandoned == s.abandoned && Reserved(s, s', id, reserved)
    ensures Ledger(s', x) && (InFlight(s, x) && reserved ==> InFlight(s', x))
  {
  }

  ghost predicate Reserved(s: Sys, s': Sys, id: string, reserved: bool) {
    if reserved
    then s'.queue == s.queue + multiset{id} && s'.log == s.log + multiset{Marked(id)} + multiset{Obs.StateDispatched(id)}
    else s'.queue == s.queue && s'.log == s.log + multiset{Marked(id)}
  }

  lemma DispatchKeepsBooks(s: Sys, next: Task, markErr: Option<Error>, getErr: Option<Error>)
    requires Books(s)
    ensures KeepsBooks(s, AfterDispatch(s, next, markErr, getErr), getErr.None?)
  {
    var s' := AfterDispatch(s, next, markErr, getErr);
    if MarkAsDispatched(s.ts, markErr, next.id, s.now).1.None? {
      DispatchEvolves(s.ts, markErr, next.id, s.now);
      ChangeSeen(s.ts, markErr, next.id, (t: Task) => AsDispatched(t, s.now));
      assert Status(s'.ts, next.id).Some?;
      var reserved := GetById(s'.ts, getErr, next.id).Ok?;
      assert Reserved(s, s', next.id, reserved);
      forall x ensures Ledger(s', x) && (InFlight(s, x) && getErr.None? ==> InFlight(s', x)) {
        assert Ledger(s, x);
        DispatchSeen(s, s', next.id, reserved, x);
      }
      if Conserved(s) && getErr.None? {
        forall x ensures InFlight(s', x) {
          assert InFlight(s, x);
        }
      }
    } else {
      NoSilentRefusal(s.ts, next.id, (t: Task) => AsDispatched(t, s.now), None, s.now);
      SameBooks(s, s');
    }
  }

  lemma DoneSeen(ts: seq<Task>, ctxErr: Option<Error>, target: string, workErr: Option<string>, now: Time)
    requires WellFormed(ts)
    ensures
      var ts' := MarkAsDone(ts, ctxErr, target, workErr, now).0;
      forall id :: Status(ts', id)
                   == (if id == target && ctxErr.None? && Status(ts, id) == Some(State.Dispatched)
                       then Some(if workErr.None? then Done else Failed) else Status(ts, id))
  {
    var i := IndexOf(ts, target);
    if Has(ts, target) && ts[i].state == State.Dispatched {
      forall id {
        StatusAfterSet(ts, i, AsDone(ts[i], workErr, now), id);
      }
    }
  }

  lemma ResultKeepsBooks(s: Sys, id: string, outcome: WorkOutcome, ctxErr: Option<Error>)
    requires Books(s) && id in s.queue
    ensures KeepsBooks(s, AfterResult(s, id, outcome, ctxErr), ctxErr.None?)
  {
    var s' := AfterResult(s, id, outcome, ctxErr);
    if outcome.Finished? {
      DoneEvolves(s.ts, ctxErr, id, outcome.workErr, s.now);
      DoneSeen(s.ts, ctxErr, id, outcome.workErr, s.now);
    }
    forall x ensures Ledger(s', x) && (Conserved(s) && ctxErr.None? ==> InFlight(s', x)) {
      assert Ledger(s, x);
      if Conserved(s) { assert InFlight(s, x); }
    }
  }

  lemma WorkKeepsBooks(s: Sys, e: Event)
    requires Books(s) && (e.StepDispatch? || e.StepResult?)
    ensures KeepsBooks(s, Apply(s, e), Live(e))
  {
    match e {
      case StepDispatch(reaches, markErr, getErr) =>
        if reaches && s.pc.Inside? && s.lastTask.Some? {
          DispatchKeepsBooks(s, s.lastTask.value, markErr, getErr);
        } else {
          SameBooks(s, Apply(s, e));
        }
      case StepResult(id, outcome, ctxErr) =>
        if s.pc.Inside? && s.lastTask.None? && id in s.queue {
          ResultKeepsBooks(s, id, outcome, ctxErr);
        }
    }
  }

  lemma MutationKeepsBooks(s: Sys, e: Event)
    requires Books(s) && (e.CoreAdd? || e.CoreUpdate? || e.CoreCancel?)
    ensures KeepsBooks(s, Apply(s, e), Live(e))
  {
    match e {
      case CoreAdd(param, id, ctxErr) => AddKeepsBooks(s, param, id, ctxErr);
      case CoreUpdate(id, param, ctxErr) => UpdateKeepsBooks(s, id, param, ctxErr);
      case CoreCancel(id, ctxErr) => CancelKeepsBooks(s, id, ctxErr);
    }
  }

  lemma StepKeepsBooks(s: Sys, e: Event)
    requires Books(s)
    ensures KeepsBooks(s, Apply(s, e), Live(e))
  {
    if e.CoreAdd? || e.CoreUpdate? || e.CoreCancel? {
      MutationKeepsBooks(s, e);
    } else if e.StepDispatch? || e.StepResult? {
      WorkKeepsBooks(s, e);
    } else {
      SameBooks(s, Apply(s, e));
    }
  }

  lemma {:induction false} RunKeepsBooks(s: Sys, es: seq<Event>)
    requires Books(s)
    ensures Books(Run(s, es))
    ensures Conserved(s) && (forall i :: 0 <= i < |es| ==> Live(es[i])) ==> Conserved(Run(s, es))
  {
    if es != [] {
      RunKeepsBooks(s, es[..|es| - 1]);
      StepKeepsBooks(Run(s, es[..|es| - 1]), es[|es| - 1]);
    }
  }

  // ---------- the theorems ----------

  /**
   In every run each id passes `MarkAsDispatched` at most once, and never if it was ever cancelled;
   it yields at most one Dispatched state, and a TaskDone state at most once and only after that.
   */
  lemma DispatchedAtMostOnce(now: Time, farFuture: Time, es: seq<Event>, id: string)
    ensures
      var log := Run(Initial(now, farFuture), es).log;
      && log[Marked(id)] + log[CancelOk(id)] <= 1
      && log[StateTaskDone(id)] <= log[StateDispatched(id)] <= log[Marked(id)] <= 1
  {
    RunKeepsBooks(Initial(now, farFuture), es);
    assert Ledger(Run(Initial(now, farFuture), es), id);
  }

  /** With live contexts the tasks in state dispatched are exactly the reserved results and those that ended in context.Canceled. */
  lemma WorkInFlightConserved(now: Time, farFuture: Time, es: seq<Event>, id: string)
    requires forall i :: 0 <= i < |es| ==> Live(es[i])
    ensures
      var s := Run(Initial(now, farFuture), es);
      && (Status(s.ts, id) == Some(State.Dispatched) <==> id in s.queue || id in s.abandoned)
      && s.queue[id] + s.abandoned[id] <= 1
  {
    RunKeepsBooks(Initial(now, farFuture), es);
    assert InFlight(Run(Initial(now, farFuture), es), id);
  }
}
