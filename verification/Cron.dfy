/**
 `CronStore`: one pending occurrence per entry, kept in the index-maintaining heap; popping an
 occurrence pushes the next one of its entry.
 */
module Cron {
  import opened Wrappers
  import opened Def
  import opened SortableTask
  import opened Mutator
  import opened HookTimer
  import opened CronList
  import opened CronItems
  import opened CronEdits
  import TaskList

  class CronStore {
    var insertionOrderCount: nat
    const schedule: TaskHeap<Wrapped>
    var entries: map<Key, Entry>
    var clock: Timer
    // how `mutators` reads a duration
    const parse: string -> Option<int>
    // the pending occurrences from the oldest to the newest, and what the store stands for
    ghost var items: seq<Item>
    ghost var store: Store

    /** An empty store, with a clock that was never armed. */
    constructor Empty(parse: string -> Option<int>)
      ensures Valid() && fresh(schedule) && fresh(schedule.Repr) && entries == map[] && items == [] && store == Store(map[], [])
      ensures clock == Idle && this.parse == parse && insertionOrderCount == 0
    {
      insertionOrderCount := 0;
      schedule := new TaskHeap<Wrapped>();
      entries := map[];
      clock := Idle;
      this.parse := parse;
      items := [];
      store := Store(map[], []);
    }

    /** The objects stand for the store. */
    ghost predicate Shaped()
      reads this`items, this`store, this`entries, this`insertionOrderCount
      reads items`task, schedule`inner, schedule`Repr, schedule.Repr`task, entries.Values`prev
    {
      && Holds(items, store.pending) && Increasing(items, 0, insertionOrderCount)
      && EntriesHold(entries, store.entries)
      && schedule.Ordered()
    }

    ghost predicate Valid()
      reads this`items, this`store, this`entries, this`insertionOrderCount
      reads items`task, schedule`inner, schedule`Repr, schedule.Repr`task, entries.Values`prev
    {
      Shaped() && OneEach(store) && multiset(schedule.inner) == multiset(items)
    }

    lemma AllRemain()
      requires Valid()
      ensures Remaining(TasksOf(store.pending), items, schedule.inner) && EachOnce(schedule.inner)
    {
      IncreasingOnce(items, insertionOrderCount);
      SameElements(schedule.inner, items);
      assert forall i :: 0 <= i < |items| ==> items[i] in items;
    }

    /** The heap's root is the occurrence that a scan of the pending ones finds. */
    lemma HeadIsNext() returns (i: nat)
      requires Valid() && |schedule.inner| > 0
      ensures i < |items| && items[i] == schedule.inner[0]
      ensures TaskList.NextIndex(TasksOf(store.pending)) == Some(i)
    {
      AllRemain();
      i := RootRemains(TasksOf(store.pending), items, insertionOrderCount, schedule);
    }

    lemma NothingPending()
      requires Valid() && |schedule.inner| == 0
      ensures store.pending == []
    {
      assert |multiset(items)| == |items|;
    }

    method SetClock(t: Timer)
      requires Valid()
      modifies this`clock
      ensures Valid() && clock == t
    {
      clock := t;
      assert Holds(items, store.pending);
      assert EntriesHold(entries, store.entries);
      assert schedule.Ordered();
    }

    /** `clock.Stop`, and a non-blocking receive if it was not running. */
    method StopTimer()
      requires Valid()
      modifies this`clock
      ensures Valid() && clock == Idle
    {
      var stopped := clock.Armed?;
      if stopped || clock.Fired? {
        SetClock(Idle);
      }
    }

    method ResetTimer(now: Time)
      requires Valid()
      modifies this`clock
      ensures Valid() && clock == HeadTimer(store)
    {
      StopTimer();
      var at := NextScheduled();
      if at.Some? {
        SetClock(Armed(now + (at.value - now)));
      }
    }

    method StartTimer(now: Time)
      requires Valid()
      modifies this`clock
      ensures clock == HeadTimer(store)
    {
      ResetTimer(now);
    }

    method Peek() returns (r: Result<Task, Error>)
      requires Valid()
      ensures r == TaskList.GetNext(TasksOf(store.pending))
    {
      if |schedule.inner| == 0 {
        NothingPending();
        return Err(RepositoryError("", Exhausted));
      }
      ghost var i := HeadIsNext();
      var head := schedule.Peek();
      return Ok(head.task);
    }

    method NextScheduled() returns (r: Option<Time>)
      requires Valid()
      ensures r == if HeadTimer(store).Armed? then Some(HeadTimer(store).at) else None
    {
      if |schedule.inner| > 0 {
        ghost var i := HeadIsNext();
        var head := schedule.Peek();
        return Some(head.task.scheduledAt);
      }
      NothingPending();
      return None;
    }

    /** Applies the mutators, and wraps the task of the outcome. */
    method Wrap(next: TaskUpdateParam, w: Wrapped, c: Call) returns (x: Item)
      requires CanApply(w.mutators)
      modifies this`insertionOrderCount
      ensures fresh(x) && x.payload == w
      ensures x.insertionOrder == insertionOrderCount == old(insertionOrderCount) + 1
      ensures x.task == Apply(w.mutators, next, c.now, c.draw).ToTask(c.id, c.now)
    {
      var mutated := ApplyAll(w.mutators, next, c.now, c.draw);
      insertionOrderCount := insertionOrderCount + 1;
      x := new IndexedTask<Wrapped>(mutated.ToTask(c.id, c.now), insertionOrderCount, w);
    }

    /** `Next` of the entry under one key. */
    method AdvanceEntry(k: Key) returns (next: TaskUpdateParam)
      requires EntriesHold(entries, store.entries) && k in entries
      modifies entries.Values`prev
      ensures next == NextParam(store.entries[k].schedule, store.entries[k].prev)
      ensures EntriesHold(entries, store.entries[k := Advance(store.entries[k])])
    {
      var ent := entries[k];
      next := ent.Next();
    }

    /** Wraps what an entry delivered, and pushes it. */
    method PushWrapped(next: TaskUpdateParam, w: Wrapped, c: Call) returns (x: Item)
      requires CanApply(w.mutators) && schedule.Ordered()
      modifies this`insertionOrderCount, schedule`inner, schedule`Repr, schedule.Repr`index
      ensures schedule.Ordered() && schedule.Repr == old(schedule.Repr) + {x}
      ensures multiset(schedule.inner) == old(multiset(schedule.inner)) + multiset{x}
      ensures fresh(x) && x.payload == w
      ensures x.insertionOrder == insertionOrderCount == old(insertionOrderCount) + 1
      ensures x.task == Apply(w.mutators, next, c.now, c.draw).ToTask(c.id, c.now)
    {
      x := Wrap(next, w, c);
      schedule.Push(x);
    }

    /** From now on the objects are `newItems`, and stand for the given entries and occurrences. */
    ghost method Become(newItems: seq<Item>, newEntries: map<Key, EntryState>, newPending: seq<Pending>)
      requires Holds(newItems, newPending) && Increasing(newItems, 0, insertionOrderCount)
      requires EntriesHold(entries, newEntries) && schedule.Ordered()
      modifies this`items, this`store
      ensures Shaped() && items == newItems && store == Store(newEntries, newPending)
    {
      items := newItems;
      store := Store(newEntries, newPending);
    }

    /** `x` has replaced the object at `i`. */
    ghost method BecomeRotated(i: nat, x: Item, p: Pending, es: map<Key, EntryState>)
      requires Holds(items, store.pending) && i < |items|
      requires insertionOrderCount > 0 && Increasing(items, 0, insertionOrderCount - 1) && x.insertionOrder == insertionOrderCount
      requires x.task == p.task && x.payload == Wrapped(p.key, p.mutators)
      requires EntriesHold(entries, es) && schedule.Ordered()
      modifies this`items, this`store
      ensures Shaped() && store == Store(es, Rotated(old(store).pending, i, p))
      ensures multiset(items) == old(multiset(items)) - multiset{old(items[i])} + multiset{x}
    {
      RotatedHolds(items, store.pending, i, x, p, insertionOrderCount - 1);
      Become(Rotated(items, i, x), es, Rotated(store.pending, i, p));
    }

    /** Pushes what follows the occurrence at `i`, which the heap no longer holds; `es` is what the entries stand for by now. */
    method PushInstead(next: TaskUpdateParam, t: Item, c: Call, ghost i: nat, ghost p: Pending, ghost es: map<Key, EntryState>)
      returns (x: Item)
      requires Holds(items, store.pending) && Increasing(items, 0, insertionOrderCount) && EntriesHold(entries, es)
      requires schedule.Ordered() && i < |items| && items[i] == t && CanApply(t.payload.mutators)
      requires multiset(schedule.inner) == multiset(items) - multiset{t}
      requires t.payload == Wrapped(p.key, p.mutators)
      requires p.task == Apply(p.mutators, next, c.now, c.draw).ToTask(c.id, c.now)
      modifies this`insertionOrderCount, this`items, this`store, schedule`inner, schedule`Repr, schedule.Repr`index
      ensures Shaped() && multiset(schedule.inner) == multiset(items)
      ensures store == Store(es, Rotated(old(store).pending, i, p))
      ensures fresh(x) && schedule.Repr == old(schedule.Repr) + {x}
    {
      x := PushWrapped(next, t.payload, c);
      BecomeRotated(i, x, p, es);
    }

    /** `t`, the occurrence at `i`, was just popped from the heap. */
    method PushNext(t: Item, c: Call, ghost i: nat) returns (x: Item)
      requires Shaped() && i < |items| && items[i] == t
      requires t.payload.key in entries && CanApply(t.payload.mutators)
      requires multiset(schedule.inner) == multiset(items) - multiset{t}
      modifies this`insertionOrderCount, this`items, this`store, schedule`inner, schedule`Repr, schedule.Repr`index, entries.Values`prev
      ensures Shaped() && multiset(schedule.inner) == multiset(items)
      ensures store == Replaced(old(store), i, FollowUp(old(store), i, c))
      ensures fresh(x) && schedule.Repr == old(schedule.Repr) + {x}
    {
      ghost var p := FollowUp(store, i, c);
      var next := AdvanceEntry(t.payload.key);
      x := PushInstead(next, t, c, i, p, store.entries[p.key := Advance(store.entries[p.key])]);
    }

    method PopHead(c: Call, ghost i: nat) returns (t: Item, ghost x: Item)
      requires Valid() && i < |items| && |schedule.inner| > 0 && items[i] == schedule.inner[0]
      modifies this`insertionOrderCount, this`items, this`store, schedule`inner, schedule`Repr, schedule.Repr`index, entries.Values`prev
      ensures Shaped() && multiset(schedule.inner) == multiset(items)
      ensures t.task == old(store).pending[i].task && store == Replaced(old(store), i, FollowUp(old(store), i, c))
      ensures fresh(x) && schedule.Repr == old(schedule.Repr) + {x}
    {
      t := schedule.Pop();
      x := PushNext(t, c, i);
    }

    /** `Pop` of a store that is not empty, but for the timer. */
    method PopSome(c: Call) returns (r: Result<Task, Error>)
      requires Valid() && |schedule.inner| > 0
      modifies this`insertionOrderCount, this`items, this`store, schedule`inner, schedule`Repr, schedule.Repr`index, entries.Values`prev
      ensures r.Ok? && Valid() && (store, r) == Outcome(old(store), c)
    {
      ghost var i := HeadIsNext();
      OutcomeOfSome(store, c, i);
      var t, _ := PopHead(c, i);
      return Ok(t.task);
    }

    method Pop(c: Call) returns (r: Result<Task, Error>)
      requires Valid()
      modifies this`insertionOrderCount, this`items, this`store, this`clock, schedule`inner, schedule`Repr, schedule.Repr`index, entries.Values`prev
      ensures Valid() && (store, r) == Outcome(old(store), c)
      ensures if r.Ok? then clock == HeadTimer(store) else clock == old(clock)
    {
      if |schedule.inner| == 0 {
        NothingPending();
        OutcomeOfEmpty(store, c);
        return Err(RepositoryError("", Exhausted));
      }
      r := PopSome(c);
      ResetTimer(c.now);
    }

    /** The entry's key is taken although nothing removes it. */
    predicate Overlaps(key: Key, removed: set<Key>, newEntries: map<Key, Entry>)
      reads this`entries
    {
      key !in removed && (key in entries || key in newEntries)
    }

    /** `Next` of an entry that is new under its key. */
    method AdvanceNew(ent: Entry, ghost newEntries: map<Key, Entry>, ghost tasks: map<Key, Item>, ghost b: Batch, ghost lo: nat)
      returns (next: TaskUpdateParam)
      requires KeyStable(ent.schedule) && EntriesHold(newEntries, b.store.entries)
      requires Gathered(tasks, b, lo, insertionOrderCount)
      modifies ent`prev
      ensures Gathered(tasks, b, lo, insertionOrderCount)
      ensures next == NextParam(ent.schedule, old(ent.prev)) && CronList.KeyOf(next) == KeyFor(ent.schedule)
      ensures EntriesHold(newEntries[KeyFor(ent.schedule) := ent],
                          WithEntry(b.store.entries, KeyFor(ent.schedule), EntryState(old(ent.prev), ent.schedule)))
    {
      ghost var k, e := KeyFor(ent.schedule), EntryState(ent.prev, ent.schedule);
      assert forall k' :: k' in newEntries && k' != k ==> newEntries[k'] != ent;
      next := ent.Next();
      assert Holds(b.news, b.store.pending);
      ExtendedStands(newEntries, b.store.entries, k, ent, e);
    }

    /** `Wrap`, which disturbs nothing that was collected so far. */
    method WrapBeside(next: TaskUpdateParam, key: Key, mutators: seq<Mutator>, c: Call,
                      ghost tasks: map<Key, Item>, ghost b: Batch, ghost lo: nat, ghost plan: Plan,
                      ghost newEntries: map<Key, Entry>)
      returns (x: Item)
      requires EntriesHold(newEntries, WithEntry(b.store.entries, key, EntryState(plan.start, plan.schedule)))
      requires CanApply(mutators) && next == NextParam(plan.schedule, plan.start) && plan.mutators == mutators
      requires Gathered(tasks, b, lo, insertionOrderCount)
      modifies this`insertionOrderCount
      ensures fresh(x) && x.payload == Wrapped(key, mutators) && x.task == Single(key, plan, c).pending[0].task
      ensures x.insertionOrder == insertionOrderCount == old(insertionOrderCount) + 1
      ensures Gathered(tasks, b, lo, old(insertionOrderCount))
      ensures EntriesHold(newEntries, WithEntry(b.store.entries, key, EntryState(plan.start, plan.schedule)))
    {
      SingleTask(key, plan, c);
      x := Wrap(next, Wrapped(key, mutators), c);
      assert Holds(b.news, b.store.pending);
      assert EntriesHold(newEntries, WithEntry(b.store.entries, key, EntryState(plan.start, plan.schedule)));
    }

    /** Wraps the first occurrence of a new entry. */
    method WrapNew(next: TaskUpdateParam, key: Key, mutators: seq<Mutator>, c: Call,
                   ghost tasks: map<Key, Item>, ghost b: Batch, ghost lo: nat, ghost plan: Plan,
                   ghost newEntries: map<Key, Entry>)
      returns (x: Item)
      requires EntriesHold(newEntries, WithEntry(b.store.entries, key, EntryState(plan.start, plan.schedule)))
      requires CanApply(mutators) && next == NextParam(plan.schedule, plan.start) && plan.mutators == mutators
      requires lo <= insertionOrderCount && Gathered(tasks, b, lo, insertionOrderCount)
      modifies this`insertionOrderCount
      ensures old(insertionOrderCount) <= insertionOrderCount && fresh(x)
      ensures Gathered(tasks[key := x], Extended(b, key, x, plan, c), lo, insertionOrderCount)
      ensures EntriesHold(newEntries, Extended(b, key, x, plan, c).store.entries)
    {
      x := WrapBeside(next, key, mutators, c, tasks, b, lo, plan, newEntries);
      ExtendedEntries(newEntries, b, key, x, plan, c);
      GatherOne(tasks, b, lo, insertionOrderCount, key, x, plan, c);
    }

    method Check(next: TaskUpdateParam, key: Key, removed: set<Key>, newEntries: map<Key, Entry>)
      returns (mutators: Result<seq<Mutator>, Error>)
      requires key == CronList.KeyOf(next) && next.meta.Some? && next.meta.value.Entries?
      ensures mutators.Err? <==> Overlaps(key, removed, newEntries) || MutatorsFor(key, parse).Err?
      ensures mutators.Ok? ==> mutators == MutatorsFor(key, parse)
    {
      if Overlaps(key, removed, newEntries) {
        return Err(OtherError("overlap"));
      }
      return LoadMutators(next.meta.value, parse);
    }

    /** One round of the first loop of `updateTask`; the caller then enters the entry and its occurrence under the key. */
    method Admit(ent: Entry, c: Call, removed: set<Key>, newEntries: map<Key, Entry>,
                 ghost tasks: map<Key, Item>, ghost b: Batch, ghost lo: nat, ghost made: set<Item>)
      returns (key: Key, r: Result<Item, Error>, ghost b': Batch)
      requires KeyStable(ent.schedule) && Usable(ent.schedule, parse)
      requires Batched(newEntries, tasks, b, lo, insertionOrderCount, made)
      modifies this`insertionOrderCount, ent`prev
      ensures key == KeyFor(ent.schedule) && old(insertionOrderCount) <= insertionOrderCount
      ensures r.Err? <==> Overlaps(key, removed, newEntries) || MutatorsFor(key, parse).Err?
      ensures r.Ok? ==> fresh(r.value)
      ensures r.Ok? ==> Batched(newEntries[key := ent], tasks[key := r.value], b', lo, insertionOrderCount, made + {r.value})
      ensures r.Ok? ==> b'.plans == PlansAfter(b.plans, [], {key}, map[key := PlanFor(ent.schedule, old(ent.prev), parse)])
    {
      ghost var plan := PlanFor(ent.schedule, ent.prev, parse);
      b' := b;
      var next := AdvanceNew(ent, newEntries, tasks, b, lo);
      key := CronList.KeyOf(next);
      var mutators := Check(next, key, removed, newEntries);
      if mutators.Err? {
        r := Err(mutators.error);
        return;
      }
      var x := WrapNew(next, key, mutators.value, c, tasks, b, lo, plan, newEntries[key := ent]);
      r := Ok(x);
      b' := Extended(b, key, x, plan, c);
      ExtendedNews(b, key, x, plan, c, made);
    }

    /** `Admit` of the `i`-th added entry; the later ones have not advanced. */
    method AdmitAt(ent: Entry, ghost added: seq<Entry>, ghost i: nat, c: Call, removed: set<Key>, newEntries: map<Key, Entry>,
                   ghost tasks: map<Key, Item>, ghost b: Batch, ghost lo: nat, ghost made: set<Item>,
                   ghost before: map<Entry, Time>)
      returns (key: Key, r: Result<Item, Error>, ghost b': Batch)
      requires i < |added| && ent == added[i] && KeyStable(ent.schedule) && Usable(ent.schedule, parse)
      requires Batched(newEntries, tasks, b, lo, insertionOrderCount, made) && NotYet(added, i, before)
      modifies this`insertionOrderCount, ent`prev
      ensures key == KeyFor(ent.schedule) && old(insertionOrderCount) <= insertionOrderCount && NotYet(added, i + 1, before)
      ensures r.Err? <==> Overlaps(key, removed, newEntries) || MutatorsFor(key, parse).Err?
      ensures r.Ok? ==> fresh(r.value)
      ensures r.Ok? ==> Batched(newEntries[key := ent], tasks[key := r.value], b', lo, insertionOrderCount, made + {r.value})
      ensures r.Ok? ==> b'.plans == PlansAfter(b.plans, [], {key}, map[key := PlanFor(ent.schedule, old(ent.prev), parse)])
    {
      key, r, b' := Admit(ent, c, removed, newEntries, tasks, b, lo, made);
      assert NotYet(added, i + 1, before);
    }

    /** `AdmitAt`, and what it means for the whole list. */
    method Round(ent: Entry, ghost added: seq<Entry>, ghost i: nat, c: Call, removed: set<Key>, newEntries: map<Key, Entry>,
                 ghost tasks: map<Key, Item>, ghost b: Batch, ghost lo: nat, ghost made: set<Item>,
                 ghost starts: map<Entry, Time>, ghost before: map<Entry, Time>)
      returns (key: Key, r: Result<Item, Error>, ghost b': Batch)
      requires i < |added| && ent == added[i] && KeyStable(ent.schedule) && Usable(ent.schedule, parse)
      requires Batched(newEntries, tasks, b, lo, insertionOrderCount, made)
      requires Progress(newEntries, b.plans, starts, added, i, before, entries.Keys, removed, parse)
      requires NotYet(added, i, before)
      modifies this`insertionOrderCount, ent`prev
      ensures NotYet(added, i + 1, before) && old(insertionOrderCount) <= insertionOrderCount
      ensures key == KeyFor(ent.schedule)
      ensures r.Err? ==> !NoneRefused(Schedules(added), entries.Keys, removed, parse)
      ensures r.Ok? ==> fresh(r.value)
      ensures r.Ok? ==> Batched(newEntries[key := ent], tasks[key := r.value], b', lo, insertionOrderCount, made + {r.value})
      ensures r.Ok? ==> Progress(newEntries[key := ent], b'.plans, starts[ent := old(ent.prev)],
                                 added, i + 1, before, entries.Keys, removed, parse)
    {
      ghost var start := ent.prev;
      key, r, b' := AdmitAt(ent, added, i, c, removed, newEntries, tasks, b, lo, made, before);
      RoundTells(newEntries, b.plans, starts, added, i, before, entries.Keys, removed, parse, start, r.Err?, b'.plans);
    }

    /** The first loop of `updateTask`: advances every added entry, and collects the entries and their occurrences by key. */
    method Prepare(added: seq<Entry>, calls: nat -> Call, removed: set<Key>, ghost before: map<Entry, Time>)
      returns (err: Option<Error>, newEntries: map<Key, Entry>, tasks: map<Key, Item>, ghost b: Batch, ghost starts: map<Entry, Time>)
      requires forall e :: e in added ==> KeyStable(e.schedule) && Usable(e.schedule, parse)
      requires NotYet(added, 0, before)
      modifies this`insertionOrderCount, added`prev
      ensures old(insertionOrderCount) <= insertionOrderCount && AllNew(tasks.Values)
      ensures err.None? <==> NoneRefused(Schedules(added), entries.Keys, removed, parse)
      ensures err.None? ==> Ready(newEntries, tasks, b, old(insertionOrderCount), insertionOrderCount, starts,
                                  added, before, entries.Keys, removed, parse)
    {
      newEntries, tasks, b, err, starts := map[], map[], EMPTY_BATCH, None, map[];
      ghost var lo, made: set<Item> := insertionOrderCount, {};
      FullSlice(Schedules(added));
      for i := 0 to |added|
        invariant lo <= insertionOrderCount && AllNew(made)
        invariant Batched(newEntries, tasks, b, lo, insertionOrderCount, made)
        invariant Progress(newEntries, b.plans, starts, added, i, before, entries.Keys, removed, parse)
        invariant NotYet(added, i, before)
      {
        ghost var start := added[i].prev;
        var key, r, b' := Round(added[i], added, i, calls(i), removed, newEntries, tasks, b, lo, made, starts, before);
        if r.Err? {
          err, tasks := Some(r.error), map[];
          return;
        }
        OneMoreNew(made, r.value);
        newEntries, tasks := newEntries[key := added[i]], tasks[key := r.value];
        b, made, starts := b', made + {r.value}, starts[added[i] := start];
      }
      TasksAreMade(tasks, b, lo, insertionOrderCount, made);
    }

    method Enter(k: Key, entry: Entry, x: Item)
      requires schedule.Ordered()
      modifies this`entries, schedule`inner, schedule`Repr, schedule.Repr`index, x`index
      ensures schedule.Ordered() && schedule.Repr == old(schedule.Repr) + {x}
      ensures entries == old(entries)[k := entry]
      ensures multiset(schedule.inner) == old(multiset(schedule.inner)) + multiset{x}
    {
      entries := entries[k := entry];
      schedule.Push(x);
    }

    /** The last loop of `updateTask`. */
    method EnterAll(newEntries: map<Key, Entry>, tasks: map<Key, Item>)
      requires schedule.Ordered() && newEntries.Keys == tasks.Keys
      requires forall k :: k in tasks ==> tasks[k].payload.key == k
      modifies this`entries, schedule`inner, schedule`Repr, schedule.Repr`index, tasks.Values`index
      ensures entries == old(entries) + newEntries
      ensures schedule.Ordered() && schedule.Repr <= old(schedule.Repr) + tasks.Values
      ensures multiset(schedule.inner) == old(multiset(schedule.inner)) + multiset(tasks.Values)
    {
      var rest := tasks.Keys;
      NonePushed(tasks, newEntries, entries);
      while rest != {}
        invariant rest <= tasks.Keys
        invariant schedule.Ordered() && schedule.Repr <= old(schedule.Repr) + tasks.Values
        invariant entries == old(entries) + (newEntries - rest)
        invariant multiset(schedule.inner) == old(multiset(schedule.inner)) + multiset(Pushed(tasks, rest))
      {
        var k :| k in rest;
        OneMoreEntry(old(entries), newEntries, rest, k);
        PushedNext(tasks, rest, k);
        Enter(k, newEntries[k], tasks[k]);
        rest := rest - {k};
      }
      AllPushed(tasks, newEntries);
    }

    /** What stands for the objects that an edit is about to exchange. */
    ghost predicate Standing(before: map<Key, Entry>, es: map<Key, EntryState>, newEntries: map<Key, Entry>, es': map<Key, EntryState>,
                             its: seq<Item>, ps: seq<Pending>)
      reads its`task, before.Values`prev, newEntries.Values`prev
    {
      Holds(its, ps) && EntriesHold(before, es) && EntriesHold(newEntries, es')
    }

    method Delete(removedKeys: set<Key>, ghost before: map<Key, Entry>, ghost es: map<Key, EntryState>,
                  ghost newEntries: map<Key, Entry>, ghost es': map<Key, EntryState>, ghost its: seq<Item>, ghost ps: seq<Pending>)
      requires Standing(before, es, newEntries, es', its, ps) && schedule.Ordered()
      modifies this`entries
      ensures Standing(before, es, newEntries, es', its, ps) && schedule.Ordered()
      ensures entries == WithoutKeys(old(entries), removedKeys)
    {
      entries := entries - removedKeys;
      assert Holds(its, ps);
      assert EntriesHold(before, es);
      assert EntriesHold(newEntries, es');
    }

    /** The removed keys leave the heap. */
    method Drop(removed: seq<Entry>, removedKeys: set<Key>, ghost before: map<Key, Entry>, ghost es: map<Key, EntryState>,
                ghost newEntries: map<Key, Entry>, ghost es': map<Key, EntryState>, ghost its: seq<Item>, ghost ps: seq<Pending>)
      requires Standing(before, es, newEntries, es', its, ps)
      requires schedule.Ordered() && multiset(schedule.inner) == multiset(items)
      requires removed == [] ==> removedKeys == {}
      modifies schedule`inner, schedule.Repr`index
      ensures Standing(before, es, newEntries, es', its, ps) && schedule.Ordered()
      ensures multiset(schedule.inner) == multiset(Kept(items, Doomed(removedKeys)))
    {
      if |removed| > 0 {
        KeptOfPermutation(schedule.inner, items, Doomed(removedKeys));
        schedule.Filter(Doomed(removedKeys));
        assert Holds(its, ps);
        assert EntriesHold(before, es);
        assert EntriesHold(newEntries, es');
      } else {
        KeptAll(items);
      }
    }

    method EnterNew(newEntries: map<Key, Entry>, tasks: map<Key, Item>, ghost before: map<Key, Entry>, ghost es: map<Key, EntryState>,
                    ghost es': map<Key, EntryState>, ghost its: seq<Item>, ghost ps: seq<Pending>)
      requires Standing(before, es, newEntries, es', its, ps)
      requires schedule.Ordered() && newEntries.Keys == tasks.Keys
      requires forall k :: k in tasks ==> tasks[k].payload.key == k
      modifies this`entries, schedule`inner, schedule`Repr, schedule.Repr`index, tasks.Values`index
      ensures Standing(before, es, newEntries, es', its, ps)
      ensures schedule.Ordered() && entries == old(entries) + newEntries
      ensures multiset(schedule.inner) == old(multiset(schedule.inner)) + multiset(tasks.Values)
    {
      EnterAll(newEntries, tasks);
      assert Holds(its, ps);
      assert EntriesHold(before, es);
      assert EntriesHold(newEntries, es');
    }

    /** What a commit is going to leave behind. */
    lemma BeforeCommit(removedKeys: set<Key>, tasks: map<Key, Item>, b: Batch, lo: nat)
      requires Shaped() && OneEach(store) && lo <= insertionOrderCount && Increasing(items, 0, lo)
      requires Gathered(tasks, b, lo, insertionOrderCount)
      requires (entries.Keys - removedKeys) !! tasks.Keys
      ensures
        var its, after := Kept(items, Doomed(removedKeys)) + b.news, Edited(store, removedKeys, b.store);
        && Holds(its, after.pending) && Increasing(its, 0, insertionOrderCount) && OneEach(after)
        && (forall k :: k in tasks ==> tasks[k].payload.key == k)
        && multiset(its) == multiset(Kept(items, Doomed(removedKeys))) + multiset(tasks.Values)
    {
      NewsAreTasks(tasks, b, lo, insertionOrderCount);
      EditHolds(items, store.pending, removedKeys, b.news, b.store.pending, 0, lo, insertionOrderCount);
      EditKeepsOneEach(store, removedKeys, b.store);
    }

    ghost method BecomeEdited(before: map<Key, Entry>, es: map<Key, EntryState>, removedKeys: set<Key>,
                              newEntries: map<Key, Entry>, es': map<Key, EntryState>, its: seq<Item>, ps: seq<Pending>)
      requires Standing(before, es, newEntries, es', its, ps)
      requires Increasing(its, 0, insertionOrderCount) && schedule.Ordered()
      requires entries == WithoutKeys(before, removedKeys) + newEntries
      modifies this`items, this`store
      ensures Shaped() && items == its && store == Store((es - removedKeys) + es', ps)
    {
      EditedEntriesHold(before, es, removedKeys, newEntries, es');
      Become(its, (es - removedKeys) + es', ps);
    }

    /** The new entries and their occurrences come in. */
    method Install(newEntries: map<Key, Entry>, tasks: map<Key, Item>, ghost before: map<Key, Entry>, ghost removedKeys: set<Key>,
                   ghost es: map<Key, EntryState>, ghost es': map<Key, EntryState>, ghost its: seq<Item>, ghost ps: seq<Pending>)
      requires Standing(before, es, newEntries, es', its, ps) && Increasing(its, 0, insertionOrderCount)
      requires schedule.Ordered() && newEntries.Keys == tasks.Keys
      requires forall k :: k in tasks ==> tasks[k].payload.key == k
      requires entries == WithoutKeys(before, removedKeys)
      requires multiset(its) == multiset(schedule.inner) + multiset(tasks.Values)
      modifies this`entries, this`items, this`store, schedule`inner, schedule`Repr, schedule.Repr`index, tasks.Values`index
      ensures Shaped() && multiset(schedule.inner) == multiset(items) && store == Store((es - removedKeys) + es', ps)
      ensures entries == WithoutKeys(before, removedKeys) + newEntries
    {
      EnterNew(newEntries, tasks, before, es, es', its, ps);
      BecomeEdited(before, es, removedKeys, newEntries, es', its, ps);
    }

    /** What is removed goes, what is new comes. */
    method Exchange(removed: seq<Entry>, removedKeys: set<Key>, newEntries: map<Key, Entry>, tasks: map<Key, Item>,
                    ghost es: map<Key, EntryState>, ghost es': map<Key, EntryState>, ghost its: seq<Item>, ghost ps: seq<Pending>)
      requires Standing(entries, es, newEntries, es', its, ps)
      requires schedule.Ordered() && multiset(schedule.inner) == multiset(items)
      requires newEntries.Keys == tasks.Keys && forall k :: k in tasks ==> tasks[k].payload.key == k
      requires removed == [] ==> removedKeys == {}
      requires Increasing(its, 0, insertionOrderCount)
      requires multiset(its) == multiset(Kept(items, Doomed(removedKeys))) + multiset(tasks.Values)
      modifies this`entries, this`items, this`store, schedule`inner, schedule`Repr, schedule.Repr`index, tasks.Values`index
      ensures Shaped() && multiset(schedule.inner) == multiset(items) && store == Store((es - removedKeys) + es', ps)
      ensures entries == WithoutKeys(old(entries), removedKeys) + newEntries
    {
      ghost var before := entries;
      Delete(removedKeys, before, es, newEntries, es', its, ps);
      Drop(removed, removedKeys, before, es, newEntries, es', its, ps);
      Install(newEntries, tasks, before, removedKeys, es, es', its, ps);
    }

    method KeysToRemove(removed: seq<Entry>) returns (keys: set<Key>)
      requires forall e :: e in removed ==> KeyStable(e.schedule)
      ensures keys == KeysFor(Schedules(removed))
    {
      keys := {};
      ghost var ss := Schedules(removed);
      assert ss[..0] == [];
      for i := 0 to |removed|
        invariant keys == KeysFor(ss[..i])
      {
        KeysForNext(ss, i);
        var p := removed[i].Param();
        keys := keys + {CronList.KeyOf(p)};
      }
      assert ss[..|removed|] == ss;
    }

    /** Nothing that `Valid` speaks of has changed but for the counter. */
    twostate lemma StillValid()
      requires old(Valid()) && old(insertionOrderCount) <= insertionOrderCount
      requires items == old(items) && store == old(store) && entries == old(entries)
      requires schedule.inner == old(schedule.inner) && schedule.Repr == old(schedule.Repr)
      requires unchanged(items`task) && unchanged(schedule.Repr`task) && unchanged(entries.Values`prev)
      ensures Valid() && Increasing(items, 0, old(insertionOrderCount))
    {
      assert Holds(items, store.pending);
      assert EntriesHold(entries, store.entries);
      assert schedule.Ordered();
    }

    /** `Prepare`, of entries that the store does not hold. */
    method PrepareEdit(added: seq<Entry>, calls: nat -> Call, removed: set<Key>, ghost before: map<Entry, Time>)
      returns (err: Option<Error>, newEntries: map<Key, Entry>, tasks: map<Key, Item>, ghost b: Batch, ghost starts: map<Entry, Time>)
      requires Valid() && forall e :: e in added ==> e !in entries.Values
      requires forall e :: e in added ==> KeyStable(e.schedule) && Usable(e.schedule, parse)
      requires NotYet(added, 0, before)
      modifies this`insertionOrderCount, added`prev
      ensures Valid() && Increasing(items, 0, old(insertionOrderCount)) && AllNew(tasks.Values)
      ensures err.None? <==> NoneRefused(Schedules(added), entries.Keys, removed, parse)
      ensures err.None? ==> Ready(newEntries, tasks, b, old(insertionOrderCount), insertionOrderCount, starts,
                                  added, before, entries.Keys, removed, parse)
    {
      err, newEntries, tasks, b, starts := Prepare(added, calls, removed, before);
      StillValid();
    }

    /** The second part of `updateTask`, once nothing was refused. */
    method Commit(added: seq<Entry>, removed: seq<Entry>, removedKeys: set<Key>, newEntries: map<Key, Entry>, tasks: map<Key, Item>,
                  ghost b: Batch, ghost lo: nat, ghost starts: map<Entry, Time>, ghost before: map<Entry, Time>)
      requires Valid() && Increasing(items, 0, lo) && (removed == [] ==> removedKeys == {})
      requires Ready(newEntries, tasks, b, lo, insertionOrderCount, starts, added, before, entries.Keys, removedKeys, parse)
      modifies this`entries, this`items, this`store, schedule`inner, schedule`Repr, schedule.Repr`index, tasks.Values`index
      ensures Valid()
      ensures Exchanged(old(entries), old(store), entries, store, added, removedKeys, before, parse, newEntries, b, starts)
    {
      ReadyIsApart(newEntries, tasks, b, lo, insertionOrderCount, starts, added, before, entries.Keys, removedKeys, parse);
      BeforeCommit(removedKeys, tasks, b, lo);
      Exchange(removed, removedKeys, newEntries, tasks, store.entries, b.store.entries,
               Kept(items, Doomed(removedKeys)) + b.news, Edited(store, removedKeys, b.store).pending);
    }

    method CommitUnless(err: Option<Error>, added: seq<Entry>, removed: seq<Entry>, removedKeys: set<Key>,
                        newEntries: map<Key, Entry>, tasks: map<Key, Item>,
                        ghost b: Batch, ghost lo: nat, ghost starts: map<Entry, Time>, ghost before: map<Entry, Time>)
      requires Valid() && Increasing(items, 0, lo) && (removed == [] ==> removedKeys == {})
      requires err.None? ==>
        Ready(newEntries, tasks, b, lo, insertionOrderCount, starts, added, before, entries.Keys, removedKeys, parse)
      modifies this`entries, this`items, this`store, schedule`inner, schedule`Repr, schedule.Repr`index, tasks.Values`index
      ensures Valid()
      ensures err.Some? ==> entries == old(entries) && items == old(items) && store == old(store) && schedule.inner == old(schedule.inner)
      ensures err.None? ==>
        Exchanged(old(entries), old(store), entries, store, added, removedKeys, before, parse, newEntries, b, starts)
    {
      if err.None? {
        Commit(added, removed, removedKeys, newEntries, tasks, b, lo, starts, before);
      }
    }

    /** `updateTask`; `b` and `newEntries` say what came in. */
    method UpdateTask(added: seq<Entry>, removed: seq<Entry>, calls: nat -> Call, ghost before: map<Entry, Time>)
      returns (err: Option<Error>, ghost newEntries: map<Key, Entry>, ghost b: Batch, ghost starts: map<Entry, Time>)
      requires Valid() && forall e :: e in added ==> e !in entries.Values
      requires forall e :: e in added ==> KeyStable(e.schedule) && Usable(e.schedule, parse)
      requires forall e :: e in removed ==> KeyStable(e.schedule)
      requires NotYet(added, 0, before)
      modifies this`insertionOrderCount, this`entries, this`items, this`store
      modifies schedule`inner, schedule`Repr, schedule.Repr`index, added`prev
      ensures Valid()
      ensures err.None? <==> NoneRefused(Schedules(added), old(entries.Keys), KeysFor(Schedules(removed)), parse)
      ensures err.Some? ==> entries == old(entries) && items == old(items) && store == old(store) && schedule.inner == old(schedule.inner)
      ensures err.None? ==>
        Exchanged(old(entries), old(store), entries, store, added, KeysFor(Schedules(removed)), before, parse, newEntries, b, starts)
    {
      var removedKeys := KeysToRemove(removed);
      ghost var lo := insertionOrderCount;
      var entered, tasks;
      err, entered, tasks, b, starts := PrepareEdit(added, calls, removedKeys, before);
      newEntries := entered;
      CommitUnless(err, added, removed, removedKeys, entered, tasks, b, lo, starts, before);
    }

    method Added(modified: seq<Entry>) returns (added: seq<Entry>)
      ensures added == Absent(modified, entries.Values)
    {
      added := [];
      for i := 0 to |modified|
        invariant added == Absent(modified[..i], entries.Values)
      {
        assert modified[..i + 1][..i] == modified[..i];
        if modified[i] !in entries.Values {
          added := added + [modified[i]];
        }
      }
      assert modified[..|modified|] == modified;
    }

    method Removed(modified: seq<Entry>) returns (removed: seq<Entry>)
      requires EntriesHold(entries, store.entries)
      ensures KeysFor(Schedules(removed)) == LeavingKeys(entries, modified)
      ensures forall e :: e in removed ==> KeyStable(e.schedule)
    {
      removed := [];
      var rest := entries.Keys;
      while rest != {}
        invariant rest <= entries.Keys
        invariant KeysFor(Schedules(removed)) == LeavingKeys(entries, modified) - rest
        invariant forall i :: 0 <= i < |removed| ==> KeyStable(removed[i].schedule)
      {
        var k :| k in rest;
        rest := rest - {k};
        assert Stands(k, entries[k], store.entries[k]);
        if entries[k] !in modified {
          KeysForNext(Schedules(removed + [entries[k]]), |removed|);
          assert Schedules(removed + [entries[k]])[..|removed|] == Schedules(removed);
          removed := removed + [entries[k]];
          assert Schedules(removed)[..|removed|] == Schedules(removed);
        }
      }
    }

    /** `EditTask`, before it resets the timer. */
    method Edit(modified: seq<Entry>, calls: nat -> Call)
      returns (err: Option<Error>, ghost newEntries: map<Key, Entry>, ghost b: Batch, ghost starts: map<Entry, Time>)
      requires Valid() && forall e :: e in modified ==> KeyStable(e.schedule) && Usable(e.schedule, parse)
      modifies this`insertionOrderCount, this`entries, this`items, this`store, this`clock
      modifies schedule`inner, schedule`Repr, schedule.Repr`index, modified`prev
      ensures Valid()
      ensures
        var added, leaving := Absent(modified, old(entries.Values)), LeavingKeys(old(entries), modified);
        err.None? <==> NoneRefused(Schedules(added), old(entries.Keys), leaving, parse)
      ensures err.Some? ==> entries == old(entries) && items == old(items) && store == old(store) && schedule.inner == old(schedule.inner)
      ensures err.None? ==>
        var added, leaving := Absent(modified, old(entries.Values)), LeavingKeys(old(entries), modified);
        var before := old(PrevsOf(modified));
        Exchanged(old(entries), old(store), entries, store, added, leaving, before, parse, newEntries, b, starts)
    {
      ghost var before := PrevsOf(modified);
      StopTimer();
      var added := Added(modified);
      var removed := Removed(modified);
      AbsentWithin(modified, entries.Values);
      err, newEntries, b, starts := UpdateTask(added, removed, calls, before);
    }

    /** `EditTask`, given the entries that the caller's function returned. */
    method EditTask(modified: seq<Entry>, calls: nat -> Call, now: Time)
      returns (err: Option<Error>, ghost newEntries: map<Key, Entry>, ghost b: Batch, ghost starts: map<Entry, Time>)
      requires Valid() && forall e :: e in modified ==> KeyStable(e.schedule) && Usable(e.schedule, parse)
      modifies this`insertionOrderCount, this`entries, this`items, this`store, this`clock
      modifies schedule`inner, schedule`Repr, schedule.Repr`index, modified`prev
      ensures Valid() && clock == HeadTimer(store)
      ensures
        var added, leaving := Absent(modified, old(entries.Values)), LeavingKeys(old(entries), modified);
        err.None? <==> NoneRefused(Schedules(added), old(entries.Keys), leaving, parse)
      // a refused edit changes neither the entries nor what is pending
      ensures err.Some? ==> entries == old(entries) && items == old(items) && store == old(store) && schedule.inner == old(schedule.inner)
      ensures err.None? ==>
        var added, leaving := Absent(modified, old(entries.Values)), LeavingKeys(old(entries), modified);
        var before := old(PrevsOf(modified));
        Exchanged(old(entries), old(store), entries, store, added, leaving, before, parse, newEntries, b, starts)
      ensures err.None? <==> NothingClashes(old(entries), modified, parse)
      ensures err.None? ==> Edits(old(entries), modified, entries, store.pending)
    {
      RefusedIffClash(entries, modified, parse);
      err, newEntries, b, starts := Edit(modified, calls);
      ExchangedIsEdit(old(entries), old(store), modified, entries, store, old(PrevsOf(modified)), parse, newEntries, b, starts);
      ResetTimer(now);
    }

    /** `NewCronStore`; the store is handed out only without an error. Its clock is not yet armed. */
    static method New(added: seq<Entry>, parse: string -> Option<int>, calls: nat -> Call)
      returns (c: CronStore, err: Option<Error>, ghost b: Batch, ghost starts: map<Entry, Time>)
      requires forall e :: e in added ==> KeyStable(e.schedule) && Usable(e.schedule, parse)
      modifies added`prev
      ensures fresh(c) && c.Valid() && c.clock == Idle && c.parse == parse
      ensures err.None? <==> NoneRefused(Schedules(added), {}, {}, parse)
      ensures err.None? ==> c.store == b.store && OnPlan(c.store, b.plans, [])
      ensures err.None? ==>
        Progress(c.entries, b.plans, starts, added, |added|, old(PrevsOf(added)), {}, {}, parse)
      ensures err.None? <==> NothingClashes(map[], added, parse)
      ensures err.None? ==> Edits(map[], added, c.entries, c.store.pending)
    {
      ghost var before := PrevsOf(added);
      c := new CronStore.Empty(parse);
      assert c.entries.Keys == {} && KeysFor(Schedules([])) == {};
      ghost var newEntries;
      err, newEntries, b, starts := c.UpdateTask(added, [], calls, before);
      FirstIsEdit(added, KeysFor(Schedules([])), c.entries, c.store, before, parse, newEntries, b, starts);
      if err.None? {
        FirstExchange(c.entries, c.store, added, KeysFor(Schedules([])), before, parse, newEntries, b, starts);
      }
    }

    /**
     `Schedule`: empties a clone of the heap. This overwrites the back-pointers of the shared
     objects, which is harmless only because the store never uses them.
     */
    method Schedule() returns (out: seq<Task>)
      requires Valid()
      modifies schedule.Repr`index
      ensures Valid()
      ensures out == Listed(TasksOf(store.pending))
    {
      AllRemain();
      out := EmptyClone(schedule, TasksOf(store.pending), items, insertionOrderCount);
      assert Holds(items, store.pending);
      assert EntriesHold(entries, store.entries);
    }
  }
}
