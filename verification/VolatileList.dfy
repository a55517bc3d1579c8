/**
 `volatileTaskRepo` on values, and what passes the scheduler's fetcher in any run over it.
 */
module VolatileList {
  import opened Wrappers
  import opened Def
  import opened CronList
  import TaskList
  import opened CronItems

  // ---------- on values ----------

  datatype State = State(store: Store, record: map<string, Task>)

  function Head(s: Store): Result<Task, Error> {
    TaskList.GetNext(TasksOf(s.pending))
  }

  predicate IsHead(s: Store, id: string) {
    Head(s).Ok? && Head(s).value.id == id
  }

  function GetById(v: State, id: string): Result<Task, Error> {
    if id in v.record then Ok(v.record[id]) else Err(RepositoryError(id, IdNotFound))
  }

  function GetNext(v: State): (State, Result<Task, Error>) {
    match Head(v.store)
    case Err(e) => (v, Err(e))
    case Ok(t) => (v.(record := v.record[t.id := t]), Ok(t))
  }

  ghost function MarkAsDispatched(v: State, id: string, c: Call): (State, Option<Error>)
    requires OneEach(v.store)
  {
    match Head(v.store)
    case Err(e) => (v, Some(e))
    case Ok(t) =>
      if t.id == id then (v.(store := Outcome(v.store, c).0), None)
      // an id that was never shown is not reported
      else if id in v.record then (v.(record := v.record - {id}), Some(RepositoryError(id, AlreadyCancelled)))
      else (v, None)
  }

  /** Dispatching the head pops it; anything else leaves the store alone. */
  lemma MarkCases(v: State, id: string, c: Call)
    requires OneEach(v.store)
    ensures
      var (w, err) := MarkAsDispatched(v, id, c);
      if Head(v.store).Ok? && Head(v.store).value.id == id
      then w == v.(store := Outcome(v.store, c).0) && err.None? && Outcome(v.store, c).1 == Ok(Head(v.store).value)
      else w.store == v.store && forall j :: j in w.record <==> j in v.record && (Head(v.store).Ok? ==> j != id)
  {
  }

  function MarkAsDone(v: State, id: string): State {
    v.(record := v.record - {id})
  }

  /** `GetById` knows exactly what was shown and neither finished nor withdrawn since. */
  lemma RecordTells(v: State, id: string, other: string, c: Call)
    requires OneEach(v.store)
    ensures Head(v.store).Ok? ==>
      GetById(GetNext(v).0, other) == if other == Head(v.store).value.id then Ok(Head(v.store).value) else GetById(v, other)
    ensures GetById(MarkAsDone(v, id), other) ==
      if other == id then Err(RepositoryError(id, IdNotFound)) else GetById(v, other)
    ensures GetById(MarkAsDispatched(v, id, c).0, other) ==
      if other == id && Head(v.store).Ok? && Head(v.store).value.id != id then Err(RepositoryError(id, IdNotFound))
      else GetById(v, other)
  {
  }

  /** The scheduler's fetcher: `MarkAsDispatched`, and then `GetById`. */
  ghost function Fetch(v: State, id: string, c: Call): (State, Result<Task, Error>)
    requires OneEach(v.store)
  {
    var (w, err) := MarkAsDispatched(v, id, c);
    (w, if err.Some? then Err(err.value) else GetById(w, id))
  }

  // ---------- runs ----------

  datatype Event =
    | Next
    | Fetching(id: string, c: Call)
    | Finished(id: string)
    | Editing(removed: set<Key>, added: Store)       // EditTask of the cron store
    | Swapping(store: Store)                         // UpdateTasks

  /** An edit that is refused changes nothing. */
  ghost predicate Accepted(s: Store, removed: set<Key>, added: Store) {
    OneEach(added) && (s.entries.Keys - removed) !! added.entries.Keys
  }

  /** One event, and the task that passed the fetcher. */
  ghost function Step(v: State, e: Event): (State, Option<Task>)
    requires OneEach(v.store)
  {
    match e
    case Next => (GetNext(v).0, None)
    case Finished(id) => (MarkAsDone(v, id), None)
    case Fetching(id, c) =>
      var (w, r) := Fetch(v, id, c);
      (w, match r case Ok(t) => Some(t) case Err(_) => None)
    case Editing(removed, added) =>
      (if Accepted(v.store, removed, added) then v.(store := Edited(v.store, removed, added)) else v, None)
    case Swapping(store) => (if OneEach(store) then v.(store := store) else v, None)
  }

  lemma StepKeepsOneEach(v: State, e: Event)
    requires OneEach(v.store)
    ensures OneEach(Step(v, e).0.store)
  {
    if e.Fetching? {
      MarkCases(v, e.id, e.c);
      OutcomeKeepsOneEach(v.store, e.c);
    }
    if e.Editing? && Accepted(v.store, e.removed, e.added) {
      EditKeepsOneEach(v.store, e.removed, e.added);
    }
  }

  lemma OutcomeKeepsOneEach(s: Store, c: Call)
    requires OneEach(s)
    ensures OneEach(Outcome(s, c).0)
  {
    PopKeepsOneEach(s, c);
  }

  /** A run: the final state, and the tasks that passed the fetcher, in order. */
  ghost function Run(v: State, events: seq<Event>): (r: (State, seq<Task>))
    requires OneEach(v.store)
    ensures OneEach(r.0.store)
  {
    if events == [] then (v, [])
    else
      var (w, fetched) := Run(v, events[..|events| - 1]);
      StepKeepsOneEach(w, events[|events| - 1]);
      var (w', passed) := Step(w, events[|events| - 1]);
      (w', After(fetched, passed))
  }

  /** The fetcher succeeds exactly for the head, and only after it was shown; it pops the head then. */
  lemma FetchSucceedsIff(v: State, id: string, c: Call)
    requires OneEach(v.store)
    ensures Fetch(v, id, c).1.Ok? <==> Head(v.store).Ok? && Head(v.store).value.id == id && id in v.record
    ensures Fetch(v, id, c).1.Ok? ==> Fetch(v, id, c) == (State(Outcome(v.store, c).0, v.record), Ok(v.record[id]))
  {
  }

  /** Dispatching a head that was never shown pops it all the same: the occurrence is lost. */
  lemma FetchOfUnshownLoses(v: State, id: string, c: Call)
    requires OneEach(v.store) && Head(v.store).Ok? && Head(v.store).value.id == id && id !in v.record
    ensures Fetch(v, id, c) == (v.(store := Outcome(v.store, c).0), Err(RepositoryError(id, IdNotFound)))
  {
  }

  // ---------- at most once ----------

  /** The ids that an event generates. */
  function IdsIn(e: Event): set<string> {
    match e
    case Fetching(_, c) => {c.id}
    case Editing(_, added) => PendingIds(added)
    case Swapping(store) => PendingIds(store)
    case _ => {}
  }

  function IdsOf(events: seq<Event>): set<string> {
    if events == [] then {} else IdsOf(events[..|events| - 1]) + IdsIn(events[|events| - 1])
  }

  /** The ids that the event generates are all different and none of them was used before. */
  ghost predicate Fresh(e: Event, used: set<string>) {
    && IdsIn(e) !! used
    && (e.Editing? ==> PendingApart(e.added.pending, IdsIn(e)))
    && (e.Swapping? ==> PendingApart(e.store.pending, IdsIn(e)))
  }

  ghost predicate FreshIds(events: seq<Event>, used: set<string>) {
    forall i :: 0 <= i < |events| ==> Fresh(events[i], used + IdsOf(events[..i]))
  }

  ghost predicate PendingApart(ps: seq<Pending>, used: set<string>) {
    && (forall i :: 0 <= i < |ps| ==> ps[i].task.id in used)
    && (forall i, j :: 0 <= i < j < |ps| ==> ps[i].task.id != ps[j].task.id)
  }

  /** What was recorded of a pending occurrence is that occurrence. */
  ghost predicate Recorded(ps: seq<Pending>, record: map<string, Task>) {
    forall i :: 0 <= i < |ps| && ps[i].task.id in record ==> record[ps[i].task.id] == ps[i].task
  }

  /** What was fetched was fetched once, and is no longer pending. */
  ghost predicate FetchedApart(fetched: seq<Task>, ps: seq<Pending>, used: set<string>) {
    && (forall k :: 0 <= k < |fetched| ==> fetched[k].id in used)
    && (forall k, i :: 0 <= k < |fetched| && 0 <= i < |ps| ==> fetched[k].id != ps[i].task.id)
    && TaskList.DistinctIds(fetched)
  }

  ghost predicate RecordKnown(record: map<string, Task>, used: set<string>) {
    forall id :: id in record ==> id in used
  }

  ghost predicate Orderly(v: State, fetched: seq<Task>, used: set<string>) {
    && OneEach(v.store) && PendingApart(v.store.pending, used)
    && Recorded(v.store.pending, v.record) && RecordKnown(v.record, used)
    && FetchedApart(fetched, v.store.pending, used)
  }

  /** Popping replaces the occurrence at `i` by one with an id that was never used. */
  lemma PopKeepsApart(ps: seq<Pending>, i: nat, x: Pending, used: set<string>, record: map<string, Task>, fetched: seq<Task>)
    requires i < |ps| && PendingApart(ps, used) && Recorded(ps, record) && RecordKnown(record, used)
    requires FetchedApart(fetched, ps, used) && x.task.id !in used
    ensures
      var qs, used' := Rotated(ps, i, x), used + {x.task.id};
      && PendingApart(qs, used') && Recorded(qs, record)
      && FetchedApart(fetched, qs, used') && FetchedApart(fetched + [ps[i].task], qs, used')
  {
    var qs := Rotated(ps, i, x);
    forall j | 0 <= j < |qs| - 1
      ensures qs[j].task.id in used && qs[j].task.id != ps[i].task.id && qs[j] in ps
    {
      assert qs[j] == ps[if j < i then j else j + 1];
    }
    forall a, b | 0 <= a < b < |qs|
      ensures qs[a].task.id != qs[b].task.id
    {
      if b < |qs| - 1 {
        assert qs[a] == ps[if a < i then a else a + 1] && qs[b] == ps[if b < i then b else b + 1];
      }
    }
  }

  lemma PassedOf(v: State, e: Event, i: nat)
    requires OneEach(v.store) && e.Fetching? && Recorded(v.store.pending, v.record)
    requires TaskList.NextIndex(TasksOf(v.store.pending)) == Some(i) && v.store.pending[i].task.id == e.id
    ensures var x := FollowUp(v.store, i, e.c);
      && Step(v, e).0 == State(Replaced(v.store, i, x), v.record) && x.task.id == e.c.id
      && Step(v, e).1 == if e.id in v.record then Some(v.store.pending[i].task) else None
  {
    OutcomeOfSome(v.store, e.c, i);
  }

  lemma PopKeepsOrderly(v: State, e: Event, fetched: seq<Task>, used: set<string>, i: nat)
    requires Orderly(v, fetched, used) && e.Fetching? && e.c.id !in used
    requires TaskList.NextIndex(TasksOf(v.store.pending)) == Some(i) && v.store.pending[i].task.id == e.id
    ensures Orderly(Step(v, e).0, After(fetched, Step(v, e).1), used + {e.c.id})
  {
    StepKeepsOneEach(v, e);
    PassedOf(v, e, i);
    PopKeepsApart(v.store.pending, i, FollowUp(v.store, i, e.c), used, v.record, fetched);
  }

  function After(fetched: seq<Task>, passed: Option<Task>): seq<Task> {
    if passed.Some? then fetched + [passed.value] else fetched
  }

  /** Everything but a pop leaves what is pending, lets nothing pass, and records at most the head. */
  lemma OtherwiseUnpopped(v: State, e: Event)
    requires OneEach(v.store)
    requires !e.Editing? && !e.Swapping? && !(e.Fetching? && Head(v.store).Ok? && Head(v.store).value.id == e.id)
    ensures Step(v, e).0.store == v.store && Step(v, e).1 == None
    ensures forall id :: id in Step(v, e).0.record ==>
      || (id in v.record && Step(v, e).0.record[id] == v.record[id])
      || (Head(v.store).Ok? && id == Head(v.store).value.id && Step(v, e).0.record[id] == Head(v.store).value)
  {
  }

  lemma RestKeepsOrderly(v: State, record: map<string, Task>, fetched: seq<Task>, used: set<string>, used': set<string>)
    requires Orderly(v, fetched, used) && used <= used'
    requires forall id :: id in record ==>
      || (id in v.record && record[id] == v.record[id])
      || (Head(v.store).Ok? && id == Head(v.store).value.id && record[id] == Head(v.store).value)
    ensures Orderly(v.(record := record), fetched, used')
  {
    var ps := v.store.pending;
    assert PendingApart(ps, used');
    assert FetchedApart(fetched, ps, used');
    if Head(v.store).Ok? {
      var i := TaskList.NextIndex(TasksOf(ps)).value;
      assert Head(v.store).value == ps[i].task;
    }
    assert RecordKnown(record, used');
    assert Recorded(ps, record);
  }

  lemma SnocApart(ps: seq<Pending>, p: Pending, used: set<string>)
    requires PendingApart(ps, used) && p.task.id in used
    requires forall q :: q in ps ==> q.task.id != p.task.id
    ensures PendingApart(ps + [p], used)
  {
  }

  /** What is kept by an edit is some of what was pending. */
  lemma {:induction false} WithoutApart(ps: seq<Pending>, removed: set<Key>, used: set<string>, n: nat)
    requires PendingApart(ps, used) && n <= |ps|
    ensures PendingApart(Without(ps[..n], removed), used)
  {
    if n > 0 {
      WithoutApart(ps, removed, used, n - 1);
      WithoutSnoc(ps, removed, n - 1);
      if ps[n - 1].key !in removed {
        SnocApart(Without(ps[..n - 1], removed), ps[n - 1], used);
      }
    }
  }

  /** New occurrences beside old ones. */
  lemma JoinedApart(ps: seq<Pending>, qs: seq<Pending>, used: set<string>, made: set<string>)
    requires PendingApart(ps, used) && PendingApart(qs, made) && made !! used
    ensures PendingApart(ps + qs, used + made)
  {
  }

  /** The store was exchanged for one that holds occurrences of the old one and new ones. */
  lemma ExchangeKeepsOrderly(v: State, s: Store, fetched: seq<Task>, used: set<string>, made: set<string>)
    requires Orderly(v, fetched, used) && OneEach(s) && PendingApart(s.pending, used + made) && made !! used
    requires forall p :: p in s.pending ==> p in v.store.pending || p.task.id in made
    ensures Orderly(v.(store := s), fetched, used + made)
  {
    forall i | 0 <= i < |s.pending|
      ensures s.pending[i].task.id in v.record ==> v.record[s.pending[i].task.id] == s.pending[i].task
      ensures forall k :: 0 <= k < |fetched| ==> fetched[k].id != s.pending[i].task.id
    {
      assert s.pending[i] in s.pending;
    }
  }

  lemma EditKeepsOrderly(v: State, e: Event, fetched: seq<Task>, used: set<string>)
    requires Orderly(v, fetched, used) && Fresh(e, used) && e.Editing? && Accepted(v.store, e.removed, e.added)
    ensures Orderly(Step(v, e).0, fetched, used + IdsIn(e))
  {
    FullSlice(v.store.pending);
    WithoutApart(v.store.pending, e.removed, used, |v.store.pending|);
    JoinedApart(Without(v.store.pending, e.removed), e.added.pending, used, IdsIn(e));
    EditKeepsOneEach(v.store, e.removed, e.added);
    ExchangeKeepsOrderly(v, Edited(v.store, e.removed, e.added), fetched, used, IdsIn(e));
  }

  lemma StepKeepsOrderly(v: State, e: Event, fetched: seq<Task>, used: set<string>)
    requires Orderly(v, fetched, used) && Fresh(e, used)
    ensures Orderly(Step(v, e).0, After(fetched, Step(v, e).1), used + IdsIn(e))
  {
    if e.Fetching? && Head(v.store).Ok? && Head(v.store).value.id == e.id {
      PopKeepsOrderly(v, e, fetched, used, TaskList.NextIndex(TasksOf(v.store.pending)).value);
    } else if e.Editing? && Accepted(v.store, e.removed, e.added) {
      EditKeepsOrderly(v, e, fetched, used);
    } else if e.Swapping? && OneEach(e.store) {
      ExchangeKeepsOrderly(v, e.store, fetched, used, IdsIn(e));
    } else if e.Editing? || e.Swapping? {
      RestKeepsOrderly(v, v.record, fetched, used, used + IdsIn(e));
    } else {
      OtherwiseUnpopped(v, e);
      RestKeepsOrderly(v, Step(v, e).0.record, fetched, used, used + IdsIn(e));
    }
  }

  lemma FreshPrefix(events: seq<Event>, used: set<string>)
    requires events != [] && FreshIds(events, used)
    ensures FreshIds(events[..|events| - 1], used)
    ensures Fresh(events[|events| - 1], used + IdsOf(events[..|events| - 1]))
  {
    var n := |events| - 1;
    forall i | 0 <= i < n
      ensures Fresh(events[..n][i], used + IdsOf(events[..n][..i]))
    {
      assert events[..n][..i] == events[..i];
    }
  }

  lemma {:induction false} RunKeepsOrderly(v: State, events: seq<Event>, used: set<string>)
    requires Orderly(v, [], used) && FreshIds(events, used)
    ensures Orderly(Run(v, events).0, Run(v, events).1, used + IdsOf(events))
    decreases |events|
  {
    if events != [] {
      var n := |events| - 1;
      FreshPrefix(events, used);
      RunKeepsOrderly(v, events[..n], used);
      var (w, fetched) := Run(v, events[..n]);
      StepKeepsOrderly(w, events[n], fetched, used + IdsOf(events[..n]));
      assert used + IdsOf(events) == used + IdsOf(events[..n]) + IdsIn(events[n]);
    } else {
      assert used + IdsOf(events) == used;
    }
  }

  /** However the scheduler calls it, whatever is edited or exchanged meanwhile, no occurrence of a cron store passes the fetcher twice. */
  lemma FetchedAtMostOnce(v: State, events: seq<Event>)
    requires OneEach(v.store) && v.record == map[]
    requires PendingApart(v.store.pending, PendingIds(v.store)) && FreshIds(events, PendingIds(v.store))
    ensures TaskList.DistinctIds(Run(v, events).1)
  {
    RunKeepsOrderly(v, events, PendingIds(v.store));
  }

  function PendingIds(s: Store): set<string> {
    set i | 0 <= i < |s.pending| :: s.pending[i].task.id
  }
}
