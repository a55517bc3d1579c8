/**
 The mutable objects of the cron store (entries, and wrapped tasks in a heap), what sequences and
 maps of them stand for, and what an edit collects before it commits.
 */
module CronItems {
  import opened Wrappers
  import opened Def
  import opened SortableTask
  import opened Mutator
  import opened HookTimer
  import opened CronList
  import TaskList
  import TaskListLaws

  class Entry {
    var prev: Time
    const schedule: Schedule

    constructor (t: Time, schedule: Schedule)
      ensures prev == t && this.schedule == schedule
    {
      prev := t;
      this.schedule := schedule;
    }

    /** The next parameter, without advancing. */
    method Param() returns (next: TaskUpdateParam)
      requires NoNilMeta(schedule)
      ensures next == NextParam(schedule, prev)
    {
      next := schedule.next(prev);
      MetaNotNil(schedule, next, prev);
      var meta := Or(next.meta, Some(Entries(map[])));
      next := next.(meta := Some(Entries(meta.value.m[META_KEY_SCHEDULE_HASH := schedule.hash])));
    }

    method Next() returns (next: TaskUpdateParam)
      requires NoNilMeta(schedule)
      modifies this`prev
      ensures next == NextParam(schedule, old(prev)) && prev == NextTime(schedule, old(prev))
    {
      next := Param();
      prev := next.scheduledAt.GetOr(0);
    }
  }

  datatype Wrapped = Wrapped(key: Key, mutators: seq<Mutator>)

  type Item = IndexedTask<Wrapped>

  // ---------- objects and what they stand for ----------

  ghost predicate Holds(items: seq<Item>, ps: seq<Pending>)
    reads items`task
  {
    && |items| == |ps|
    && forall i :: 0 <= i < |items| ==>
         items[i].task == ps[i].task && items[i].payload == Wrapped(ps[i].key, ps[i].mutators)
  }

  ghost predicate Increasing(items: seq<Item>, lo: nat, hi: nat) {
    && (forall i :: 0 <= i < |items| ==> lo < items[i].insertionOrder <= hi)
    && (forall i, j :: 0 <= i < j < |items| ==> items[i].insertionOrder < items[j].insertionOrder)
  }

  /** An entry and its key; the schedule's parameters all have that key. */
  ghost predicate Stands(k: Key, entry: Entry, e: EntryState)
    reads entry`prev
  {
    e == EntryState(entry.prev, entry.schedule) && KeyStable(entry.schedule) && KeyFor(entry.schedule) == k
  }

  ghost predicate EntriesHold(entries: map<Key, Entry>, es: map<Key, EntryState>)
    reads entries.Values`prev
  {
    && entries.Keys == es.Keys
    && forall k :: k in entries ==> Stands(k, entries[k], es[k])
  }

  function Doomed(removed: set<Key>): Wrapped -> bool {
    (w: Wrapped) => w.key in removed
  }

  lemma HoldsAppend(items: seq<Item>, ps: seq<Pending>, more: seq<Item>, qs: seq<Pending>)
    requires Holds(items, ps) && Holds(more, qs)
    ensures Holds(items + more, ps + qs)
  {
  }

  lemma {:induction false} KeptHolds(items: seq<Item>, ps: seq<Pending>, removed: set<Key>)
    requires Holds(items, ps)
    ensures Holds(Kept(items, Doomed(removed)), Without(ps, removed))
  {
    if items != [] {
      var n := |items| - 1;
      KeptHolds(items[..n], ps[..n], removed);
      if ps[n].key !in removed {
        HoldsAppend(Kept(items[..n], Doomed(removed)), Without(ps[..n], removed), [items[n]], [ps[n]]);
      }
    }
  }

  lemma {:induction false} KeptIncreasing(items: seq<Item>, removed: set<Key>, lo: nat, hi: nat)
    requires Increasing(items, lo, hi)
    ensures Increasing(Kept(items, Doomed(removed)), lo, hi)
  {
    if items != [] {
      var n := |items| - 1;
      KeptIncreasing(items[..n], removed, lo, hi);
      KeptWithin(items[..n], Doomed(removed));
      var kept := Kept(items[..n], Doomed(removed));
      forall i | 0 <= i < |kept|
        ensures kept[i].insertionOrder < items[n].insertionOrder
      {
        var j :| 0 <= j < n && items[..n][j] == kept[i];
        assert items[j].insertionOrder < items[n].insertionOrder;
      }
    }
  }

  /** An edit on the objects is the edit on what they stand for. */
  lemma EditHolds(items: seq<Item>, ps: seq<Pending>, removed: set<Key>, news: seq<Item>, qs: seq<Pending>,
                  lo: nat, mid: nat, hi: nat)
    requires Holds(items, ps) && Holds(news, qs)
    requires Increasing(items, lo, mid) && Increasing(news, mid, hi) && lo <= mid <= hi
    ensures Holds(Kept(items, Doomed(removed)) + news, Without(ps, removed) + qs)
    ensures Increasing(Kept(items, Doomed(removed)) + news, lo, hi)
  {
    KeptHolds(items, ps, removed);
    KeptIncreasing(items, removed, lo, mid);
  }

  lemma {:induction false} MultisetOfDistinct<T>(s: seq<T>, t: set<T>)
    requires forall i, j :: 0 <= i < j < |s| ==> s[i] != s[j]
    requires forall x :: x in s <==> x in t
    ensures multiset(s) == multiset(t)
  {
    if s == [] {
      assert t == {};
    } else {
      var n := |s| - 1;
      assert s == s[..n] + [s[n]];
      MultisetOfDistinct(s[..n], t - {s[n]});
    }
  }

  lemma RotatedElements<T>(s: seq<T>, i: nat, x: T)
    requires i < |s|
    ensures multiset(Rotated(s, i, x)) == multiset(s) - multiset{s[i]} + multiset{x}
  {
    assert Rotated(s, i, x) == s[..i] + s[i + 1..] + [x];
    assert s == s[..i] + [s[i]] + s[i + 1..];
  }

  /** Rotating the objects rotates what they stand for. */
  lemma RotatedHolds(items: seq<Item>, ps: seq<Pending>, i: nat, x: Item, p: Pending, hi: nat)
    requires Holds(items, ps) && Increasing(items, 0, hi) && i < |items|
    requires x.task == p.task && x.payload == Wrapped(p.key, p.mutators) && x.insertionOrder == hi + 1
    ensures Holds(Rotated(items, i, x), Rotated(ps, i, p)) && Increasing(Rotated(items, i, x), 0, hi + 1)
    ensures multiset(Rotated(items, i, x)) == multiset(items) - multiset{items[i]} + multiset{x}
  {
    RotatedElements(items, i, x);
  }

  /** The timer that `resetTimer` leaves behind. */
  ghost function HeadTimer(s: Store): (r: Timer)
    ensures r.Idle? <==> TaskList.NothingScheduled(TasksOf(s.pending))
    ensures !r.Idle? ==>
      exists i: nat :: TaskList.IsNext(TasksOf(s.pending), i) && r == Armed(s.pending[i].task.scheduledAt)
  {
    match TaskList.GetNext(TasksOf(s.pending))
    case Ok(t) => Armed(t.scheduledAt)
    case Err(_) => Idle
  }

  /** `CronStore.Pop` on the list: what remains, and the task that is handed out. */
  ghost function Outcome(s: Store, c: Call): (Store, Result<Task, Error>)
    requires OneEach(s)
  {
    var (t, r) := CronList.Pop(s, c);
    (t, match r case Ok(p) => Ok(p.task) case Err(e) => Err(e))
  }

  lemma OutcomeOfEmpty(s: Store, c: Call)
    requires OneEach(s) && s.pending == []
    ensures Outcome(s, c) == (s, Err(RepositoryError("", Exhausted)))
  {
  }

  lemma OutcomeOfSome(s: Store, c: Call, i: nat)
    requires OneEach(s) && TaskList.NextIndex(TasksOf(s.pending)) == Some(i)
    ensures Outcome(s, c) == (Replaced(s, i, FollowUp(s, i, c)), Ok(s.pending[i].task))
    ensures OneEach(Replaced(s, i, FollowUp(s, i, c)))
  {
    PopIs(s, c, i);
  }

  // ---------- listing in order ----------

  function Taken(t: Task): Task {
    t.(state := Unknown("taken"))
  }

  /** The pending tasks; those that left the heap are taken. */
  ghost predicate Remaining(ts: seq<Task>, items: seq<Item>, inner: seq<Item>)
    reads items`task
  {
    && |ts| == |items|
    && (forall x :: x in inner ==> x in items)
    && forall i :: 0 <= i < |items| ==>
         items[i].task.state == Scheduled && ts[i] == if items[i] in inner then items[i].task else Taken(items[i].task)
  }

  /** The root of what remains is what a scan of the tasks finds. */
  lemma RootRemains(ts: seq<Task>, items: seq<Item>, hi: nat, heap: TaskHeap<Wrapped>) returns (i: nat)
    requires Remaining(ts, items, heap.inner) && heap.Ordered() && |heap.inner| > 0 && Increasing(items, 0, hi)
    ensures i < |items| && items[i] == heap.inner[0] && ts[i] == items[i].task
    ensures TaskList.NextIndex(ts) == Some(i)
  {
    heap.RootIsMinimum();
    assert heap.inner[0] in items;
    i :| 0 <= i < |items| && items[i] == heap.inner[0];
    forall j | 0 <= j < |ts| && ts[j].state == Scheduled
      ensures if j < i then TaskList.Precedes(ts[i], ts[j]) else !TaskList.Precedes(ts[j], ts[i])
    {
      assert items[j] in heap.inner;
    }
    TaskList.NextIsUnique(ts, i);
  }

  /** The next task, then the next one without it, and so on. */
  function Listed(ts: seq<Task>): seq<Task>
    decreases TaskListLaws.CountScheduled(ts)
  {
    match TaskList.NextIndex(ts)
    case None => []
    case Some(i) =>
      TaskListLaws.RetireOne(ts, i, Taken(ts[i]));
      [ts[i]] + Listed(ts[i := Taken(ts[i])])
  }

  lemma ListedOne(ts: seq<Task>, i: nat)
    requires TaskList.NextIndex(ts) == Some(i)
    ensures Listed(ts) == [ts[i]] + Listed(ts[i := Taken(ts[i])])
  {
  }

  /** The listing is sorted, and lists every scheduled task once. */
  lemma {:induction false} ListedIsSorted(ts: seq<Task>) returns (order: seq<nat>)
    ensures TaskListLaws.SortedEnumeration(ts, order) && |order| == |Listed(ts)|
    ensures forall k :: 0 <= k < |order| ==> Listed(ts)[k] == ts[order[k]]
    decreases TaskListLaws.CountScheduled(ts)
  {
    match TaskList.NextIndex(ts)
    case None =>
      order := [];
    case Some(i) =>
      var ts' := ts[i := Taken(ts[i])];
      TaskListLaws.RetireOne(ts, i, Taken(ts[i]));
      var rest := ListedIsSorted(ts');
      TaskListLaws.PrependNext(ts, i, Taken(ts[i]), rest);
      order := [i] + rest;
      ListedOne(ts, i);
      forall k | 0 <= k < |rest|
        ensures Listed(ts')[k] == ts[rest[k]]
      {
        assert ts'[rest[k]].state == Scheduled;
      }
  }

  ghost predicate EachOnce<T>(s: seq<T>) {
    forall i :: 0 <= i < |s| ==> multiset(s)[s[i]] <= 1
  }

  lemma IncreasingOnce(items: seq<Item>, hi: nat)
    requires Increasing(items, 0, hi)
    ensures EachOnce(items)
  {
    MultisetOfDistinct(items, set x | x in items);
  }

  lemma RemoveOnce<T>(s: seq<T>, t: seq<T>, x: T)
    requires EachOnce(s) && x in s && multiset(t) == multiset(s) - multiset{x}
    ensures EachOnce(t) && forall y :: y in t <==> y in s && y != x
  {
    assert multiset(t)[x] == 0;
    WithoutOne(s, t, x);
  }

  lemma TakeOne(ts: seq<Task>, items: seq<Item>, inner: seq<Item>, inner': seq<Item>, i: nat, hi: nat)
    requires Remaining(ts, items, inner) && Increasing(items, 0, hi) && i < |items|
    requires forall y :: y in inner' <==> y in inner && y != items[i]
    ensures Remaining(ts[i := Taken(items[i].task)], items, inner')
  {
  }

  lemma NothingRemains(ts: seq<Task>, items: seq<Item>)
    requires Remaining(ts, items, [])
    ensures Listed(ts) == []
  {
  }

  method TakeNext(heap: TaskHeap<Wrapped>, ghost ts: seq<Task>, ghost items: seq<Item>, ghost hi: nat)
    returns (t: Task, ghost ts': seq<Task>)
    requires heap.Ordered() && |heap.inner| > 0
    requires Remaining(ts, items, heap.inner) && EachOnce(heap.inner) && Increasing(items, 0, hi)
    modifies heap`inner, heap.Repr`index
    ensures heap.Ordered() && |heap.inner| < |old(heap.inner)|
    ensures Remaining(ts', items, heap.inner) && EachOnce(heap.inner)
    ensures Listed(ts) == [t] + Listed(ts')
  {
    ghost var i := RootRemains(ts, items, hi, heap);
    ghost var before := heap.inner;
    var x := heap.Pop();
    assert |multiset(heap.inner)| == |heap.inner| && |multiset(before)| == |before|;
    RemoveOnce(before, heap.inner, x);
    TakeOne(ts, items, before, heap.inner, i, hi);
    ts' := ts[i := Taken(ts[i])];
    t := x.task;
  }

  lemma OneMoreListed(out: seq<Task>, t: Task, rest: seq<Task>)
    ensures out + ([t] + rest) == out + [t] + rest
  {
  }

  method EmptyOut(heap: TaskHeap<Wrapped>, ghost start: seq<Task>, ghost items: seq<Item>, ghost hi: nat) returns (out: seq<Task>)
    requires heap.Ordered()
    requires Remaining(start, items, heap.inner) && EachOnce(heap.inner) && Increasing(items, 0, hi)
    modifies heap`inner, heap.Repr`index
    ensures out == Listed(start)
  {
    out := [];
    ghost var ts := start;
    while |heap.inner| > 0
      invariant heap.Ordered() && Remaining(ts, items, heap.inner) && EachOnce(heap.inner)
      invariant out + Listed(ts) == Listed(start)
      decreases |heap.inner|
    {
      var t, ts' := TakeNext(heap, ts, items, hi);
      OneMoreListed(out, t, Listed(ts'));
      out := out + [t];
      ts := ts';
    }
    NothingRemains(ts, items);
  }

  method EmptyClone(heap: TaskHeap<Wrapped>, ghost start: seq<Task>, ghost items: seq<Item>, ghost hi: nat) returns (out: seq<Task>)
    requires heap.Ordered()
    requires Remaining(start, items, heap.inner) && EachOnce(heap.inner) && Increasing(items, 0, hi)
    modifies heap.Repr`index
    ensures heap.Ordered() && out == Listed(start)
  {
    var cloned := heap.Clone();
    out := EmptyOut(cloned, start, items, hi);
  }

  // ---------- what an edit collects ----------

  function WithEntry(es: map<Key, EntryState>, k: Key, e: EntryState): map<Key, EntryState> {
    (es - {k}) + map[k := Advance(e)]
  }

  /** New occurrences from the oldest to the newest, what they stand for, and where their entries start. */
  datatype Batch = Batch(news: seq<Item>, store: Store, plans: map<Key, Plan>)

  const EMPTY_BATCH: Batch := Batch([], Store(map[], []), map[])

  ghost predicate Gathered(tasks: map<Key, Item>, b: Batch, lo: nat, hi: nat)
    reads b.news`task
  {
    && Holds(b.news, b.store.pending) && Increasing(b.news, lo, hi)
    && OneEach(b.store) && OnPlan(b.store, b.plans, [])
    && tasks.Keys == b.store.entries.Keys && ByKey(tasks, b.news)
  }

  ghost predicate ByKey(tasks: map<Key, Item>, news: seq<Item>) {
    forall i :: 0 <= i < |news| ==> news[i].payload.key in tasks && tasks[news[i].payload.key] == news[i]
  }

  /** The batch with a new occurrence for `k`, instead of an older one if there is one. */
  function Extended(b: Batch, k: Key, x: Item, plan: Plan, c: Call): Batch
    requires CanApply(plan.mutators)
  {
    Batch(Kept(b.news, Doomed({k})) + [x],
          Edited(b.store, {k}, Single(k, plan, c)),
          PlansAfter(b.plans, [], {k}, map[k := plan]))
  }

  lemma GatherOne(tasks: map<Key, Item>, b: Batch, lo: nat, hi: nat, k: Key, x: Item, plan: Plan, c: Call)
    requires lo < hi && Gathered(tasks, b, lo, hi - 1) && CanApply(plan.mutators)
    requires x.insertionOrder == hi && x.payload == Wrapped(k, plan.mutators)
    requires x.task == Single(k, plan, c).pending[0].task
    ensures Gathered(tasks[k := x], Extended(b, k, x, plan, c), lo, hi)
  {
    EditHolds(b.news, b.store.pending, {k}, [x], Single(k, plan, c).pending, lo, hi - 1, hi);
    ExtendedOnPlan(b.store, b.plans, k, plan, c);
    ExtendedKeys(tasks, b.store.entries, k, x, Advance(EntryState(plan.start, plan.schedule)));
    ExtendedTasks(tasks, b.news, k, x);
  }

  lemma ExtendedKeys<A, B>(a: map<Key, A>, b: map<Key, B>, k: Key, x: A, y: B)
    requires a.Keys == b.Keys
    ensures a[k := x].Keys == ((b - {k}) + map[k := y]).Keys
  {
  }

  lemma ExtendedStands(entries: map<Key, Entry>, es: map<Key, EntryState>, k: Key, ent: Entry, e: EntryState)
    requires entries.Keys == es.Keys && Stands(k, ent, Advance(e))
    requires forall k' :: k' in entries && k' != k ==> Stands(k', entries[k'], es[k'])
    ensures EntriesHold(entries[k := ent], WithEntry(es, k, e))
  {
    ExtendedKeys(entries, es, k, ent, Advance(e));
  }

  lemma ExtendedEntries(entries: map<Key, Entry>, b: Batch, k: Key, x: Item, plan: Plan, c: Call)
    requires CanApply(plan.mutators)
    requires EntriesHold(entries, WithEntry(b.store.entries, k, EntryState(plan.start, plan.schedule)))
    ensures EntriesHold(entries, Extended(b, k, x, plan, c).store.entries)
  {
  }

  lemma ExtendedNews(b: Batch, k: Key, x: Item, plan: Plan, c: Call, made: set<Item>)
    requires CanApply(plan.mutators) && Within(b.news, made)
    ensures Within(Extended(b, k, x, plan, c).news, made + {x})
    ensures Extended(b, k, x, plan, c).plans == PlansAfter(b.plans, [], {k}, map[k := plan])
  {
    KeptWithin(b.news, Doomed({k}));
  }

  lemma ExtendedTasks(tasks: map<Key, Item>, news: seq<Item>, k: Key, x: Item)
    requires ByKey(tasks, news) && x.payload.key == k
    ensures ByKey(tasks[k := x], Kept(news, Doomed({k})) + [x])
  {
    KeptWithin(news, Doomed({k}));
    var kept := Kept(news, Doomed({k}));
    forall i | 0 <= i < |kept|
      ensures kept[i].payload.key != k && kept[i].payload.key in tasks && tasks[kept[i].payload.key] == kept[i]
    {
      var j :| 0 <= j < |news| && news[j] == kept[i];
    }
  }

  /** Applying the mutators that the schedule asks for does not panic. */
  ghost predicate Usable(s: Schedule, parse: string -> Option<int>) {
    MutatorsFor(KeyFor(s), parse).Ok? ==> CanApply(MutatorsFor(KeyFor(s), parse).value)
  }

  /** An entry's plan from `start` on, with the mutators that its key asks for. */
  function PlanFor(s: Schedule, start: Time, parse: string -> Option<int>): Plan {
    Plan(start, s, match MutatorsFor(KeyFor(s), parse) case Ok(ms) => ms case Err(_) => [])
  }

  /** The last position below `n` with the key, or -1. */
  function LastFor(added: seq<Entry>, n: nat, k: Key): (r: int)
    requires n <= |added|
    ensures -1 <= r < n
    ensures r >= 0 ==> KeyFor(added[r].schedule) == k
    ensures forall j :: r < j < n ==> KeyFor(added[j].schedule) != k
  {
    if n == 0 then -1
    else if KeyFor(added[n - 1].schedule) == k then n - 1
    else LastFor(added, n - 1, k)
  }

  /** The collected entries are added ones, the last one for every key of the first `n`. */
  ghost predicate FromAdded(newEntries: map<Key, Entry>, added: seq<Entry>, n: nat)
    requires n <= |added|
  {
    && newEntries.Keys == KeysFor(Schedules(added)[..n])
    && forall k :: k in newEntries ==> LastFor(added, n, k) >= 0 && newEntries[k] == added[LastFor(added, n, k)]
  }

  function Schedules(added: seq<Entry>): (ss: seq<Schedule>)
    ensures |ss| == |added|
    ensures forall i :: 0 <= i < |added| ==> ss[i] == added[i].schedule
  {
    seq(|added|, i requires 0 <= i < |added| => added[i].schedule)
  }

  lemma FromAddedNext(newEntries: map<Key, Entry>, added: seq<Entry>, i: nat)
    requires i < |added| && FromAdded(newEntries, added, i)
    ensures FromAdded(newEntries[KeyFor(added[i].schedule) := added[i]], added, i + 1)
  {
    KeysForNext(Schedules(added), i);
  }

  lemma OverlapRefuses(newEntries: map<Key, Entry>, added: seq<Entry>, i: nat,
                       existing: set<Key>, removed: set<Key>, parse: string -> Option<int>)
    requires i < |added| && FromAdded(newEntries, added, i)
    ensures
      var k := KeyFor(added[i].schedule);
      Refused(Schedules(added), i, existing, removed, parse) <==>
      (k !in removed && (k in existing || k in newEntries)) || MutatorsFor(k, parse).Err?
  {
  }

  twostate predicate AllNew(new made: set<Item>) {
    forall x :: x in made ==> !old(allocated(x))
  }

  twostate lemma OneMoreNew(new made: set<Item>, new x: Item)
    requires AllNew(made) && !old(allocated(x))
    ensures AllNew(made + {x})
  {
  }

  lemma OneMoreEntry(base: map<Key, Entry>, more: map<Key, Entry>, rest: set<Key>, k: Key)
    requires k in rest && k in more
    ensures (base + (more - rest))[k := more[k]] == base + (more - (rest - {k}))
  {
  }

  function WithoutKeys(entries: map<Key, Entry>, removed: set<Key>): map<Key, Entry> {
    entries - removed
  }

  /** The objects under all keys but `rest`. */
  ghost function Pushed(tasks: map<Key, Item>, rest: set<Key>): set<Item> {
    set k | k in tasks && k !in rest :: tasks[k]
  }

  lemma PushedNext(tasks: map<Key, Item>, rest: set<Key>, k: Key)
    requires k in rest && k in tasks
    requires forall j :: j in tasks ==> tasks[j].payload.key == j
    ensures Pushed(tasks, rest - {k}) == Pushed(tasks, rest) + {tasks[k]}
    ensures multiset(Pushed(tasks, rest - {k})) == multiset(Pushed(tasks, rest)) + multiset{tasks[k]}
  {
  }

  lemma NonePushed(tasks: map<Key, Item>, newEntries: map<Key, Entry>, base: map<Key, Entry>)
    requires newEntries.Keys == tasks.Keys
    ensures Pushed(tasks, tasks.Keys) == {} && base + (newEntries - tasks.Keys) == base
  {
  }

  lemma AllPushed(tasks: map<Key, Item>, newEntries: map<Key, Entry>)
    ensures Pushed(tasks, {}) == tasks.Values && newEntries - {} == newEntries
  {
  }

  lemma EditedEntriesHold(entries: map<Key, Entry>, es: map<Key, EntryState>, removed: set<Key>,
                          more: map<Key, Entry>, es': map<Key, EntryState>)
    requires EntriesHold(entries, es) && EntriesHold(more, es')
    ensures EntriesHold((entries - removed) + more, (es - removed) + es')
  {
    var all, all' := (entries - removed) + more, (es - removed) + es';
    assert all.Keys == all'.Keys;
    forall k | k in all
      ensures Stands(k, all[k], all'[k])
    {
      assert k in more || k in entries;
    }
  }

  lemma NewsAreTasks(tasks: map<Key, Item>, b: Batch, lo: nat, hi: nat)
    requires Gathered(tasks, b, lo, hi)
    ensures multiset(b.news) == multiset(tasks.Values)
    ensures forall k :: k in tasks ==> tasks[k] in b.news && tasks[k].payload.key == k
  {
    forall k | k in tasks
      ensures tasks[k] in b.news && tasks[k].payload.key == k
    {
      assert Awaits(b.store.pending, k);
      var i :| 0 <= i < |b.news| && b.store.pending[i].key == k;
      assert tasks[b.news[i].payload.key] == b.news[i];
    }
    forall x | x in b.news
      ensures x in tasks.Values
    {
      var i :| 0 <= i < |b.news| && b.news[i] == x;
      assert tasks[b.news[i].payload.key] == b.news[i];
    }
    MultisetOfDistinct(b.news, tasks.Values);
  }

  lemma KeptAll(s: seq<Item>)
    ensures multiset(Kept(s, Doomed({}))) == multiset(s)
  {
    var a, b := multiset(Kept(s, Doomed({}))), multiset(s);
    forall x ensures a[x] == b[x] {
      KeptCounts(s, Doomed({}), x);
    }
    SameCounts(a, b);
  }

  // ---------- where the collected entries start ----------

  ghost predicate Once(added: seq<Entry>, i: nat)
    requires i < |added|
  {
    forall j :: 0 <= j < |added| && added[j] == added[i] ==> j == i
  }

  /** Every collected entry follows its own schedule from the instant that `starts` records. */
  ghost predicate Planned(plans: map<Key, Plan>, newEntries: map<Key, Entry>, starts: map<Entry, Time>, parse: string -> Option<int>) {
    && plans.Keys == newEntries.Keys
    && forall k :: k in newEntries ==>
         newEntries[k] in starts && plans[k] == PlanFor(newEntries[k].schedule, starts[newEntries[k]], parse)
  }

  /** Of the first `n` entries, those that were added only once start where they were `before`. */
  ghost predicate StartsFrom(starts: map<Entry, Time>, added: seq<Entry>, n: nat, before: map<Entry, Time>)
    requires n <= |added|
  {
    forall i :: 0 <= i < n && Once(added, i) && added[i] in before ==>
      added[i] in starts && starts[added[i]] == before[added[i]]
  }

  ghost predicate NotYet(added: seq<Entry>, n: nat, before: map<Entry, Time>)
    reads added`prev
  {
    forall i :: n <= i < |added| && Once(added, i) && added[i] in before ==> added[i].prev == before[added[i]]
  }

  lemma StartsNext(starts: map<Entry, Time>, added: seq<Entry>, i: nat, before: map<Entry, Time>, start: Time)
    requires i < |added| && StartsFrom(starts, added, i, before)
    requires Once(added, i) && added[i] in before ==> start == before[added[i]]
    ensures StartsFrom(starts[added[i] := start], added, i + 1, before)
  {
  }

  lemma PlannedNext(plans: map<Key, Plan>, newEntries: map<Key, Entry>,
                    starts: map<Entry, Time>, parse: string -> Option<int>, ent: Entry, start: Time)
    requires Planned(plans, newEntries, starts, parse)
    requires forall k :: k in newEntries ==> KeyFor(newEntries[k].schedule) == k
    ensures
      var k := KeyFor(ent.schedule);
      Planned(PlansAfter(plans, [], {k}, map[k := PlanFor(ent.schedule, start, parse)]), newEntries[k := ent], starts[ent := start], parse)
  {
    var k, plan := KeyFor(ent.schedule), PlanFor(ent.schedule, start, parse);
    PlansAfterOne(plans, k, plan);
    PlannedWith(plans, newEntries, starts, parse, ent, start);
  }

  lemma PlannedWith(plans: map<Key, Plan>, newEntries: map<Key, Entry>, starts: map<Entry, Time>,
                    parse: string -> Option<int>, ent: Entry, start: Time)
    requires Planned(plans, newEntries, starts, parse)
    requires forall k :: k in newEntries ==> KeyFor(newEntries[k].schedule) == k
    ensures
      var k := KeyFor(ent.schedule);
      Planned(plans[k := PlanFor(ent.schedule, start, parse)], newEntries[k := ent], starts[ent := start], parse)
  {
  }

  /** What the rounds up to `n` have established. */
  ghost predicate Progress(newEntries: map<Key, Entry>, plans: map<Key, Plan>, starts: map<Entry, Time>,
                           added: seq<Entry>, n: nat, before: map<Entry, Time>,
                           existing: set<Key>, removed: set<Key>, parse: string -> Option<int>)
    requires n <= |added|
  {
    && FromAdded(newEntries, added, n) && Planned(plans, newEntries, starts, parse)
    && StartsFrom(starts, added, n, before)
    && NoneRefused(Schedules(added)[..n], existing, removed, parse)
  }

  lemma NextRound(newEntries: map<Key, Entry>, plans: map<Key, Plan>, starts: map<Entry, Time>,
                  added: seq<Entry>, i: nat, before: map<Entry, Time>,
                  existing: set<Key>, removed: set<Key>, parse: string -> Option<int>, start: Time)
    requires i < |added| && Progress(newEntries, plans, starts, added, i, before, existing, removed, parse)
    requires Once(added, i) && added[i] in before ==> start == before[added[i]]
    requires forall k :: k in newEntries ==> KeyFor(newEntries[k].schedule) == k
    ensures
      var k := KeyFor(added[i].schedule);
      Refused(Schedules(added), i, existing, removed, parse) <==>
      (k !in removed && (k in existing || k in newEntries)) || MutatorsFor(k, parse).Err?
    ensures !Refused(Schedules(added), i, existing, removed, parse) ==>
      var k := KeyFor(added[i].schedule);
      Progress(newEntries[k := added[i]], PlansAfter(plans, [], {k}, map[k := PlanFor(added[i].schedule, start, parse)]),
               starts[added[i] := start], added, i + 1, before, existing, removed, parse)
  {
    OverlapRefuses(newEntries, added, i, existing, removed, parse);
    if !Refused(Schedules(added), i, existing, removed, parse) {
      NoneRefusedNext(Schedules(added), i, existing, removed, parse);
      FromAddedNext(newEntries, added, i);
      PlannedNext(plans, newEntries, starts, parse, added[i], start);
      StartsNext(starts, added, i, before, start);
    }
  }

  /** What a round that met an overlap or unreadable mutators, or did not, means for the whole list. */
  lemma RoundTells(newEntries: map<Key, Entry>, plans: map<Key, Plan>, starts: map<Entry, Time>,
                   added: seq<Entry>, i: nat, before: map<Entry, Time>,
                   existing: set<Key>, removed: set<Key>, parse: string -> Option<int>, start: Time,
                   refused: bool, plans': map<Key, Plan>)
    requires i < |added| && Progress(newEntries, plans, starts, added, i, before, existing, removed, parse)
    requires Once(added, i) && added[i] in before ==> start == before[added[i]]
    requires forall k :: k in newEntries ==> KeyFor(newEntries[k].schedule) == k
    requires
      var k := KeyFor(added[i].schedule);
      refused <==> (k !in removed && (k in existing || k in newEntries)) || MutatorsFor(k, parse).Err?
    requires
      var k := KeyFor(added[i].schedule);
      !refused ==> plans' == PlansAfter(plans, [], {k}, map[k := PlanFor(added[i].schedule, start, parse)])
    ensures refused ==> !NoneRefused(Schedules(added), existing, removed, parse)
    ensures !refused ==>
      Progress(newEntries[KeyFor(added[i].schedule) := added[i]], plans', starts[added[i] := start],
               added, i + 1, before, existing, removed, parse)
  {
    NextRound(newEntries, plans, starts, added, i, before, existing, removed, parse, start);
  }

  /**
   A successful edit: the keys in `leaving` go with their occurrences and a batch of new entries comes
   in, one for every key of `added`. Each new entry has its own schedule's plan with the mutators its
   key asks for, and begins where it was before the edit unless it was added twice.
   */
  ghost predicate Exchanged(entries: map<Key, Entry>, store: Store, entries': map<Key, Entry>, store': Store,
                            added: seq<Entry>, leaving: set<Key>, before: map<Entry, Time>, parse: string -> Option<int>,
                            newEntries: map<Key, Entry>, b: Batch, starts: map<Entry, Time>)
  {
    && store' == Edited(store, leaving, b.store)
    && OneEach(b.store) && OnPlan(b.store, b.plans, []) && b.store.entries.Keys == newEntries.Keys
    && entries' == WithoutKeys(entries, leaving) + newEntries
    && Progress(newEntries, b.plans, starts, added, |added|, before, entries.Keys, leaving, parse)
  }

  /** An edit of nothing leaves just what came in. */
  lemma FirstExchange(entries: map<Key, Entry>, store: Store, added: seq<Entry>, leaving: set<Key>, before: map<Entry, Time>,
                      parse: string -> Option<int>, newEntries: map<Key, Entry>, b: Batch, starts: map<Entry, Time>)
    requires Exchanged(map[], Store(map[], []), entries, store, added, leaving, before, parse, newEntries, b, starts)
    requires leaving == {}
    ensures entries == newEntries && store == b.store && OnPlan(store, b.plans, [])
    ensures Progress(entries, b.plans, starts, added, |added|, before, {}, {}, parse)
  {
    var none: map<Key, Entry> := map[];
    assert none.Keys == {};
    FromNothing(newEntries, {});
    FromNothing(b.store.entries, {});
    assert Without([], {}) == [];
  }

  lemma FromNothing<V>(m: map<Key, V>, removed: set<Key>)
    ensures (map[] - removed) + m == m
  {
  }

  /** What the rounds collect: entries and occurrences by key, the objects among those just made. */
  ghost predicate Batched(newEntries: map<Key, Entry>, tasks: map<Key, Item>, b: Batch, lo: nat, hi: nat, made: set<Item>)
    reads b.news`task, newEntries.Values`prev
  {
    lo <= hi && Gathered(tasks, b, lo, hi) && EntriesHold(newEntries, b.store.entries) && Within(b.news, made)
  }

  /** What the first part of `updateTask` hands to the second. */
  ghost predicate Ready(newEntries: map<Key, Entry>, tasks: map<Key, Item>, b: Batch, lo: nat, hi: nat, starts: map<Entry, Time>,
                        added: seq<Entry>, before: map<Entry, Time>, existing: set<Key>, removed: set<Key>,
                        parse: string -> Option<int>)
    reads b.news`task, newEntries.Values`prev
  {
    && lo <= hi && Gathered(tasks, b, lo, hi) && EntriesHold(newEntries, b.store.entries)
    && Progress(newEntries, b.plans, starts, added, |added|, before, existing, removed, parse)
  }

  lemma TasksAreMade(tasks: map<Key, Item>, b: Batch, lo: nat, hi: nat, made: set<Item>)
    ensures Gathered(tasks, b, lo, hi) && Within(b.news, made) ==> tasks.Values <= made
  {
    if Gathered(tasks, b, lo, hi) {
      NewsAreTasks(tasks, b, lo, hi);
    }
  }

  lemma ReadyIsApart(newEntries: map<Key, Entry>, tasks: map<Key, Item>, b: Batch, lo: nat, hi: nat, starts: map<Entry, Time>,
                     added: seq<Entry>, before: map<Entry, Time>, existing: set<Key>, removed: set<Key>,
                     parse: string -> Option<int>)
    requires Ready(newEntries, tasks, b, lo, hi, starts, added, before, existing, removed, parse)
    ensures newEntries.Keys == tasks.Keys && (existing - removed) !! tasks.Keys
  {
    FullSlice(Schedules(added));
    NoneRefusedApart(Schedules(added), existing, removed, parse);
  }

  ghost function PrevsOf(modified: seq<Entry>): map<Entry, Time>
    reads modified`prev
  {
    map e | e in modified :: e.prev
  }
}
