/**
 The cron store without its heap: entries by key, and the pending occurrences in insertion order.

 `CronStore.Pop` is proved to compute `Pop`; here is proved what repeated pops deliver.
 */
module CronList {
  import opened Wrappers
  import opened Def
  import opened Mutator
  import opened TaskList

  const META_KEY_SCHEDULE_HASH := "ngicks.ScheduleHash"

  /** A `Schedule`: a hash, and the parameter of the first occurrence after an instant. */
  datatype Schedule = Schedule(hash: string, next: Time -> TaskUpdateParam)

  /** `serializable`; the JSON texts of the two maps are represented by the maps. */
  datatype Key = Key(workId: string, priority: int, param: map<string, string>, meta: map<string, string>)

  /** An absent, a nil and an empty map serialize alike. */
  function Content(m: Option<StrMap>): map<string, string> {
    if m.Some? && m.value.Entries? then m.value.m else map[]
  }

  function KeyOf(p: TaskUpdateParam): Key {
    Key(p.workId.GetOr(""), p.priority.GetOr(0), Content(p.param), Content(p.meta))
  }

  /** Writing into the meta map panics if the schedule hands out a nil map. */
  ghost predicate NoNilMeta(s: Schedule) {
    forall t :: s.next(t).meta != Some(Nil)
  }

  lemma MetaNotNil(s: Schedule, p: TaskUpdateParam, t: Time)
    requires NoNilMeta(s) && p == s.next(t)
    ensures p.meta != Some(Nil)
  {
    assert p.meta == s.next(t).meta;
  }

  /** `Entry.next`: the schedule's parameter, marked with the schedule's hash. */
  function NextParam(s: Schedule, prev: Time): TaskUpdateParam {
    var p := s.next(prev);
    p.(meta := Some(Entries(Content(p.meta)[META_KEY_SCHEDULE_HASH := s.hash])))
  }

  function NextTime(s: Schedule, prev: Time): Time {
    s.next(prev).scheduledAt.GetOr(0)
  }

  /** The key of the schedule's parameters does not depend on the instant. */
  ghost predicate KeyStable(s: Schedule) {
    NoNilMeta(s) && forall t :: KeyOf(NextParam(s, t)) == KeyFor(s)
  }

  function KeyFor(s: Schedule): Key {
    KeyOf(NextParam(s, 0))
  }

  lemma KeyHoldsHash(s: Schedule)
    ensures META_KEY_SCHEDULE_HASH in KeyFor(s).meta && KeyFor(s).meta[META_KEY_SCHEDULE_HASH] == s.hash
  {
    var p := NextParam(s, 0);
    assert Content(p.meta) == p.meta.value.m;
  }

  datatype EntryState = EntryState(prev: Time, schedule: Schedule)

  datatype Pending = Pending(key: Key, mutators: seq<Mutator>, task: Task)

  datatype Store = Store(entries: map<Key, EntryState>, pending: seq<Pending>)

  function TasksOf(ps: seq<Pending>): (ts: seq<Task>)
    ensures |ts| == |ps|
    ensures forall i :: 0 <= i < |ps| ==> ts[i] == ps[i].task
  {
    seq(|ps|, i requires 0 <= i < |ps| => ps[i].task)
  }

  ghost predicate DistinctKeys(ps: seq<Pending>) {
    forall i, j :: 0 <= i < j < |ps| ==> ps[i].key != ps[j].key
  }

  ghost predicate Awaits(ps: seq<Pending>, k: Key) {
    exists i :: 0 <= i < |ps| && ps[i].key == k
  }

  /** Every entry has exactly one pending occurrence, and no other occurrence is pending. */
  ghost predicate OneEach(s: Store) {
    && (forall i :: 0 <= i < |s.pending| ==>
          s.pending[i].key in s.entries && s.pending[i].task.state == Scheduled && CanApply(s.pending[i].mutators))
    && DistinctKeys(s.pending)
    && (forall k :: k in s.entries ==> Awaits(s.pending, k))
  }

  function Advance(e: EntryState): EntryState {
    e.(prev := NextTime(e.schedule, e.prev))
  }

  /** `s` without the element at `i`, and `x` at the end. */
  function Rotated<T>(s: seq<T>, i: nat, x: T): (r: seq<T>)
    requires i < |s|
    ensures |r| == |s|
    ensures forall j {:trigger r[j]} :: 0 <= j < |s| ==> r[j] == if j == |s| - 1 then x else if j < i then s[j] else s[j + 1]
  {
    seq(|s|, j requires 0 <= j < |s| => if j == |s| - 1 then x else if j < i then s[j] else s[j + 1])
  }

  /** One call: the generated id, the clock, and the numbers drawn. */
  datatype Call = Call(id: string, now: Time, draw: nat -> nat)

  /** The occurrence that is pending for an entry, as `pushNext` makes it. */
  function Occurrence(key: Key, e: EntryState, mutators: seq<Mutator>, c: Call): Pending
    requires CanApply(mutators)
  {
    Pending(key, mutators, Apply(mutators, NextParam(e.schedule, e.prev), c.now, c.draw).ToTask(c.id, c.now))
  }

  lemma OccurrenceScheduled(key: Key, e: EntryState, mutators: seq<Mutator>, c: Call)
    requires CanApply(mutators)
    ensures Occurrence(key, e, mutators, c).task.state == Scheduled
  {
  }

  /** Whatever the mutators do, an occurrence bears what its entry's key is made of, and its schedule's deadline. */
  lemma OccurrenceBearsKey(e: EntryState, mutators: seq<Mutator>, c: Call)
    requires KeyStable(e.schedule) && CanApply(mutators)
    ensures
      var key := KeyFor(e.schedule);
      var t := Occurrence(key, e, mutators, c).task;
      && t.id == c.id && t.state == Scheduled && t.createdAt == NormalizeTime(c.now)
      && t.workId == key.workId && t.priority == key.priority
      && Content(Some(t.param)) == key.param && t.meta == Entries(key.meta)
      && t.deadline == NormalizeOption(e.schedule.next(e.prev).deadline.GetOr(None))
  {
    var p := NextParam(e.schedule, e.prev);
    ApplyChangesTimes(mutators, p, c.now, c.draw);
    assert KeyOf(p) == KeyFor(e.schedule);
  }

  /** The occurrence stands for the instant `base`: exactly so without mutators, within the range with one random mutator. */
  ghost predicate StandsFor(p: Pending, base: Time) {
    && (p.mutators == [] ==> p.task.scheduledAt == NormalizeTime(base))
    && (|p.mutators| == 1 && p.mutators[0].RandomizeScheduledAt? ==>
          exists offset :: InRange(offset, p.mutators[0].min, p.mutators[0].max)
                           && p.task.scheduledAt == NormalizeTime(base + offset))
  }

  lemma OccurrenceStandsFor(key: Key, e: EntryState, mutators: seq<Mutator>, c: Call)
    requires CanApply(mutators)
    ensures StandsFor(Occurrence(key, e, mutators, c), NextTime(e.schedule, e.prev))
  {
    var p := NextParam(e.schedule, e.prev);
    if |mutators| == 1 && mutators[0].RandomizeScheduledAt? {
      assert mutators[..0] == [];
      var offset := MutateOffset(mutators[0], p, c.now, c.draw(0));
      assert Apply(mutators, p, c.now, c.draw) == Mutate(mutators[0], Apply(mutators[..0], p, c.now, c.draw), c.now, c.draw(0));
      assert Apply(mutators, p, c.now, c.draw).scheduledAt == Some(NextTime(e.schedule, e.prev) + offset);
    }
  }

  /** An entry that asks to be scheduled at once has its occurrence at the clock's reading, whatever its schedule says. */
  lemma OccurrenceAtNow(key: Key, e: EntryState, c: Call)
    ensures Occurrence(key, e, [ScheduleAtNow], c).task.scheduledAt == NormalizeTime(c.now)
  {
    var p := NextParam(e.schedule, e.prev);
    var ms := [ScheduleAtNow];
    assert ms[..0] == [];
    assert Apply(ms, p, c.now, c.draw) == Mutate(ms[0], Apply(ms[..0], p, c.now, c.draw), c.now, c.draw(0));
    MutateNow(p, c.now, c.draw(0));
  }

  /** `CronStore.Pop`: the first occurrence is replaced by the next one of the same entry. */
  ghost function Pop(s: Store, c: Call): (Store, Result<Pending, Error>)
    requires OneEach(s)
  {
    match NextIndex(TasksOf(s.pending))
    case None => (s, Err(RepositoryError("", Exhausted)))
    case Some(i) => (Replaced(s, i, FollowUp(s, i, c)), Ok(s.pending[i]))
  }

  /** The entry of `x` advanced, and `x` pending instead of the occurrence at `i`. */
  function Replaced(s: Store, i: nat, x: Pending): Store
    requires i < |s.pending| && x.key in s.entries
  {
    Store(s.entries[x.key := Advance(s.entries[x.key])], Rotated(s.pending, i, x))
  }

  /** `x` is what follows the occurrence at `i`. */
  ghost predicate Succeeds(s: Store, i: nat, x: Pending) {
    && i < |s.pending| && x.key == s.pending[i].key && x.mutators == s.pending[i].mutators
    && x.key in s.entries && x.task.state == Scheduled && CanApply(x.mutators)
    && StandsFor(x, Advance(s.entries[x.key]).prev)
  }

  /** The occurrence that follows the one at `i`. */
  function FollowUp(s: Store, i: nat, c: Call): Pending
    requires i < |s.pending| && s.pending[i].key in s.entries && CanApply(s.pending[i].mutators)
  {
    Occurrence(s.pending[i].key, s.entries[s.pending[i].key], s.pending[i].mutators, c)
  }

  lemma PopReplaces(s: Store, c: Call) returns (i: nat, x: Pending)
    requires OneEach(s) && NextIndex(TasksOf(s.pending)).Some?
    ensures NextIndex(TasksOf(s.pending)) == Some(i) && x == FollowUp(s, i, c) && Succeeds(s, i, x)
    ensures Pop(s, c) == (Replaced(s, i, x), Ok(s.pending[i]))
  {
    i := NextIndex(TasksOf(s.pending)).value;
    x := FollowUp(s, i, c);
    OccurrenceScheduled(x.key, s.entries[x.key], x.mutators, c);
    OccurrenceStandsFor(x.key, s.entries[x.key], x.mutators, c);
  }

  lemma RotateKeepsKeys(ps: seq<Pending>, i: nat, x: Pending)
    requires DistinctKeys(ps) && i < |ps| && x.key == ps[i].key
    ensures DistinctKeys(Rotated(ps, i, x))
    ensures forall k :: Awaits(ps, k) ==> Awaits(Rotated(ps, i, x), k)
  {
    var r := Rotated(ps, i, x);
    var n := |ps| - 1;
    forall k | Awaits(ps, k) ensures Awaits(r, k) {
      var j :| 0 <= j < |ps| && ps[j].key == k;
      assert r[if j == i then n else if j < i then j else j - 1].key == k;
    }
    forall a, b | 0 <= a < b < |r|
      ensures r[a].key != r[b].key
    {
      var a' := if a < i then a else a + 1;
      var b' := if b == n then i else if b < i then b else b + 1;
      assert r[a].key == ps[a'].key && r[b].key == ps[b'].key && a' != b';
    }
  }

  lemma ReplaceKeepsOneEach(s: Store, i: nat, x: Pending)
    requires OneEach(s) && Succeeds(s, i, x)
    ensures OneEach(Replaced(s, i, x))
  {
    RotateKeepsKeys(s.pending, i, x);
  }

  /** Whatever is popped, every entry still has exactly one pending occurrence. */
  lemma PopKeepsOneEach(s: Store, c: Call)
    requires OneEach(s)
    ensures OneEach(Pop(s, c).0) && Pop(s, c).0.entries.Keys == s.entries.Keys
  {
    if NextIndex(TasksOf(s.pending)).Some? {
      var i, x := PopReplaces(s, c);
      ReplaceKeepsOneEach(s, i, x);
    }
  }

  lemma PopIs(s: Store, c: Call, i: nat)
    requires OneEach(s) && NextIndex(TasksOf(s.pending)) == Some(i)
    ensures Pop(s, c) == (Replaced(s, i, FollowUp(s, i, c)), Ok(s.pending[i]))
    ensures OneEach(Replaced(s, i, FollowUp(s, i, c)))
  {
    var _, _ := PopReplaces(s, c);
    PopKeepsOneEach(s, c);
  }

  /** A run of pops: the final store, and what was popped, in order. */
  ghost function PopAll(s: Store, calls: seq<Call>): (r: (Store, seq<Pending>))
    requires OneEach(s)
    ensures OneEach(r.0) && r.0.entries.Keys == s.entries.Keys
  {
    if calls == [] then (s, [])
    else
      var (t, popped) := PopAll(s, calls[..|calls| - 1]);
      PopKeepsOneEach(t, calls[|calls| - 1]);
      var (t', r) := Pop(t, calls[|calls| - 1]);
      (t', if r.Ok? then popped + [r.value] else popped)
  }

  // ---------- the schedules behind the pops ----------

  /** What an entry was made from, and the mutators that its meta data asks for. */
  datatype Plan = Plan(start: Time, schedule: Schedule, mutators: seq<Mutator>)
  {
    /** The `n`-th occurrence after `start`, and `start` itself for 0. */
    function Iterate(n: nat): Time {
      if n == 0 then start else NextTime(schedule, Iterate(n - 1))
    }
  }

  /** How often an entry was popped. */
  function Count(popped: seq<Pending>, k: Key): nat {
    |Only(popped, k)|
  }

  /** What was popped of one entry, in order. */
  function Only(popped: seq<Pending>, k: Key): seq<Pending> {
    if popped == [] then []
    else Only(popped[..|popped| - 1], k) + if popped[|popped| - 1].key == k then [popped[|popped| - 1]] else []
  }

  lemma OnlySnoc(popped: seq<Pending>, p: Pending, k: Key)
    ensures Only(popped + [p], k) == if p.key == k then Only(popped, k) + [p] else Only(popped, k)
  {
    assert (popped + [p])[..|popped|] == popped;
  }

  ghost predicate FollowsPlan(p: Pending, plan: Plan, n: nat) {
    p.mutators == plan.mutators && StandsFor(p, plan.Iterate(n))
  }

  /** Every entry has advanced once more often than it was popped, and what is pending stands for where it is now. */
  ghost predicate OnPlan(s: Store, plans: map<Key, Plan>, popped: seq<Pending>) {
    EntriesOnPlan(s.entries, plans, popped) && PendingOnPlan(s.pending, plans, popped)
  }

  ghost predicate EntriesOnPlan(entries: map<Key, EntryState>, plans: map<Key, Plan>, popped: seq<Pending>) {
    && entries.Keys == plans.Keys
    && forall k :: k in plans ==> entries[k] == EntryState(plans[k].Iterate(Count(popped, k) + 1), plans[k].schedule)
  }

  ghost predicate PendingOnPlan(ps: seq<Pending>, plans: map<Key, Plan>, popped: seq<Pending>) {
    forall i :: 0 <= i < |ps| && ps[i].key in plans ==> FollowsPlan(ps[i], plans[ps[i].key], Count(popped, ps[i].key) + 1)
  }

  /** The `j`-th occurrence popped of each entry, counting from 1, stands for the `j`-th instant of its schedule. */
  ghost predicate DeliveredOnPlan(plans: map<Key, Plan>, popped: seq<Pending>) {
    forall k, j :: k in plans && 0 <= j < Count(popped, k) ==> FollowsPlan(Only(popped, k)[j], plans[k], j + 1)
  }

  lemma ReplacedStaysOnPlan(s: Store, i: nat, x: Pending, plans: map<Key, Plan>, popped: seq<Pending>)
    requires OneEach(s) && OnPlan(s, plans, popped) && Succeeds(s, i, x)
    ensures OnPlan(Replaced(s, i, x), plans, popped + [s.pending[i]])
  {
    var popped' := popped + [s.pending[i]];
    forall k ensures Count(popped', k) == Count(popped, k) + if x.key == k then 1 else 0 {
      OnlySnoc(popped, s.pending[i], k);
    }
    AdvancedOnPlan(s.entries, plans, popped, popped', x.key);
    RotatedFollowPlans(s.pending, i, x, plans, popped, popped');
  }

  lemma AdvancedOnPlan(es: map<Key, EntryState>, plans: map<Key, Plan>, popped: seq<Pending>, popped': seq<Pending>, key: Key)
    requires EntriesOnPlan(es, plans, popped) && key in es
    requires forall k :: Count(popped', k) == Count(popped, k) + if key == k then 1 else 0
    ensures EntriesOnPlan(es[key := Advance(es[key])], plans, popped')
    ensures Advance(es[key]).prev == plans[key].Iterate(Count(popped', key) + 1)
  {
    var plan, n := plans[key], Count(popped, key);
    assert plan.Iterate(n + 2) == NextTime(plan.schedule, plan.Iterate(n + 1));
  }

  lemma DeliveredSnoc(s: Store, i: nat, plans: map<Key, Plan>, popped: seq<Pending>)
    requires DeliveredOnPlan(plans, popped) && OnPlan(s, plans, popped) && i < |s.pending|
    ensures DeliveredOnPlan(plans, popped + [s.pending[i]])
  {
    var p := s.pending[i];
    forall k, j | k in plans && 0 <= j < Count(popped + [p], k)
      ensures FollowsPlan(Only(popped + [p], k)[j], plans[k], j + 1)
    {
      OnlySnoc(popped, p, k);
      if j < Count(popped, k) {
        assert Only(popped + [p], k)[j] == Only(popped, k)[j];
      }
    }
  }

  lemma RotatedFollowPlans(ps: seq<Pending>, i: nat, x: Pending, plans: map<Key, Plan>, popped: seq<Pending>, popped': seq<Pending>)
    requires i < |ps| && DistinctKeys(ps) && x.key == ps[i].key && PendingOnPlan(ps, plans, popped)
    requires x.key in plans && FollowsPlan(x, plans[x.key], Count(popped', x.key) + 1)
    requires forall k :: k != x.key ==> Count(popped', k) == Count(popped, k)
    ensures PendingOnPlan(Rotated(ps, i, x), plans, popped')
  {
    forall j | 0 <= j < |ps| - 1
      ensures Rotated(ps, i, x)[j].key != x.key
    {
      assert Rotated(ps, i, x)[j] == ps[if j < i then j else j + 1];
    }
  }

  /**
   No drift: however often the entries are popped, the `n`-th occurrence of each stands for its
   schedule iterated `n` times from the start, and mutated times do not feed back into the schedule.
   */
  lemma {:induction false} NoDrift(s: Store, calls: seq<Call>, plans: map<Key, Plan>)
    requires OneEach(s) && OnPlan(s, plans, [])
    ensures OnPlan(PopAll(s, calls).0, plans, PopAll(s, calls).1)
    ensures DeliveredOnPlan(plans, PopAll(s, calls).1)
    decreases |calls|
  {
    if calls != [] {
      var n := |calls| - 1;
      NoDrift(s, calls[..n], plans);
      var (t, popped) := PopAll(s, calls[..n]);
      if NextIndex(TasksOf(t.pending)).Some? {
        var i, x := PopReplaces(t, calls[n]);
        ReplacedStaysOnPlan(t, i, x, plans, popped);
        DeliveredSnoc(t, i, plans, popped);
      }
    }
  }

  // ---------- the merge ----------

  /** No schedule steps back. */
  ghost predicate Forward(s: Schedule) {
    forall t :: t <= NextTime(s, t)
  }

  ghost predicate Plain(plans: map<Key, Plan>) {
    forall k :: k in plans ==> plans[k].mutators == [] && Forward(plans[k].schedule)
  }

  lemma {:induction false} IterateGrows(plan: Plan, m: nat, n: nat)
    requires Forward(plan.schedule) && m <= n
    ensures plan.Iterate(m) <= plan.Iterate(n)
    decreases n - m
  {
    if m < n {
      IterateGrows(plan, m, n - 1);
      assert plan.Iterate(n) == NextTime(plan.schedule, plan.Iterate(n - 1));
    }
  }

  ghost predicate NonDecreasing(popped: seq<Pending>) {
    forall i, j :: 0 <= i < j < |popped| ==> popped[i].task.scheduledAt <= popped[j].task.scheduledAt
  }

  /** Nothing pending is earlier than anything popped. */
  ghost predicate Behind(popped: seq<Pending>, ps: seq<Pending>) {
    forall i, j :: 0 <= i < |popped| && 0 <= j < |ps| ==> popped[i].task.scheduledAt <= ps[j].task.scheduledAt
  }

  lemma HeadIsEarliest(s: Store, i: nat)
    requires OneEach(s) && NextIndex(TasksOf(s.pending)) == Some(i)
    ensures forall j :: 0 <= j < |s.pending| ==> s.pending[i].task.scheduledAt <= s.pending[j].task.scheduledAt
  {
    forall j | 0 <= j < |s.pending|
      ensures s.pending[i].task.scheduledAt <= s.pending[j].task.scheduledAt
    {
      assert TasksOf(s.pending)[j].state == Scheduled;
    }
  }

  ghost predicate Merged(s: Store, popped: seq<Pending>) {
    NonDecreasing(popped) && Behind(popped, s.pending)
  }

  lemma ReplacedStaysMerged(s: Store, i: nat, x: Pending, plans: map<Key, Plan>, popped: seq<Pending>)
    requires OneEach(s) && OnPlan(s, plans, popped) && Plain(plans)
    requires NextIndex(TasksOf(s.pending)) == Some(i) && Succeeds(s, i, x)
    requires Merged(s, popped)
    ensures Merged(Replaced(s, i, x), popped + [s.pending[i]])
  {
    HeadIsEarliest(s, i);
    assert FollowsPlan(s.pending[i], plans[x.key], Count(popped, x.key) + 1);
    var e := s.entries[x.key];
    NormalizeMonotone(e.prev, NextTime(e.schedule, e.prev));
    assert s.pending[i].task.scheduledAt <= x.task.scheduledAt;
    RotatedStaysBehind(s.pending, i, x, popped);
  }

  lemma RotatedStaysBehind(ps: seq<Pending>, i: nat, x: Pending, popped: seq<Pending>)
    requires i < |ps| && Behind(popped, ps) && ps[i].task.scheduledAt <= x.task.scheduledAt
    requires forall j :: 0 <= j < |ps| ==> ps[i].task.scheduledAt <= ps[j].task.scheduledAt
    ensures Behind(popped + [ps[i]], Rotated(ps, i, x))
  {
    forall a, j | 0 <= a < |popped + [ps[i]]| && 0 <= j < |ps|
      ensures (popped + [ps[i]])[a].task.scheduledAt <= Rotated(ps, i, x)[j].task.scheduledAt
    {
      if j < |ps| - 1 {
        assert Rotated(ps, i, x)[j] == ps[if j < i then j else j + 1];
      } else if a < |popped| {
        assert popped[a].task.scheduledAt <= ps[i].task.scheduledAt;
      }
    }
  }

  /** Every occurrence earlier than everything pending was popped. */
  ghost predicate NothingOmitted(s: Store, plans: map<Key, Plan>, popped: seq<Pending>) {
    forall k, n: nat :: k in plans
      && (forall i :: 0 <= i < |s.pending| ==> NormalizeTime(plans[k].Iterate(n)) < s.pending[i].task.scheduledAt)
      ==> n <= Count(popped, k)
  }

  lemma OnPlanOmitsNothing(s: Store, plans: map<Key, Plan>, popped: seq<Pending>)
    requires OneEach(s) && OnPlan(s, plans, popped) && Plain(plans)
    ensures NothingOmitted(s, plans, popped)
  {
    forall k, n: nat | k in plans
      && (forall i :: 0 <= i < |s.pending| ==> NormalizeTime(plans[k].Iterate(n)) < s.pending[i].task.scheduledAt)
      ensures n <= Count(popped, k)
    {
      assert Awaits(s.pending, k);
      var j :| 0 <= j < |s.pending| && s.pending[j].key == k;
      assert FollowsPlan(s.pending[j], plans[k], Count(popped, k) + 1);
      if n > Count(popped, k) {
        IterateGrows(plans[k], Count(popped, k) + 1, n);
        NormalizeMonotone(plans[k].Iterate(Count(popped, k) + 1), plans[k].Iterate(n));
      }
    }
  }

  /** What was popped of each entry is a prefix of its iterated schedule. */
  ghost predicate Prefixes(plans: map<Key, Plan>, popped: seq<Pending>) {
    forall k, j :: k in plans && 0 <= j < Count(popped, k) ==>
      Only(popped, k)[j].task.scheduledAt == NormalizeTime(plans[k].Iterate(j + 1))
  }

  lemma PlainPrefixes(plans: map<Key, Plan>, popped: seq<Pending>)
    requires Plain(plans) && DeliveredOnPlan(plans, popped)
    ensures Prefixes(plans, popped)
  {
    forall k, j | k in plans && 0 <= j < Count(popped, k)
      ensures Only(popped, k)[j].task.scheduledAt == NormalizeTime(plans[k].Iterate(j + 1))
    {
      assert FollowsPlan(Only(popped, k)[j], plans[k], j + 1);
    }
  }

  lemma {:induction false} PopStaysMerged(s: Store, calls: seq<Call>, plans: map<Key, Plan>)
    requires OneEach(s) && OnPlan(s, plans, []) && Plain(plans)
    ensures Merged(PopAll(s, calls).0, PopAll(s, calls).1)
    decreases |calls|
  {
    if calls != [] {
      var n := |calls| - 1;
      NoDrift(s, calls[..n], plans);
      PopStaysMerged(s, calls[..n], plans);
      var (t, popped) := PopAll(s, calls[..n]);
      if NextIndex(TasksOf(t.pending)).Some? {
        var i, x := PopReplaces(t, calls[n]);
        ReplacedStaysMerged(t, i, x, plans, popped);
      }
    }
  }

  /**
   Popping merges the schedules: times never decrease, each entry contributes a prefix of its
   iterated schedule, and nothing that is due before everything pending is left out.
   */
  lemma PopMerges(s: Store, calls: seq<Call>, plans: map<Key, Plan>)
    requires OneEach(s) && OnPlan(s, plans, []) && Plain(plans)
    ensures
      var (t, popped) := PopAll(s, calls);
      NonDecreasing(popped) && Behind(popped, t.pending) && Prefixes(plans, popped) && NothingOmitted(t, plans, popped)
  {
    NoDrift(s, calls, plans);
    PopStaysMerged(s, calls, plans);
    var (t, popped) := PopAll(s, calls);
    PlainPrefixes(plans, popped);
    OnPlanOmitsNothing(t, plans, popped);
  }

  /** A store with entries is never exhausted: every call pops. */
  lemma {:induction false} EveryCallPops(s: Store, calls: seq<Call>)
    requires OneEach(s) && s.entries.Keys != {}
    ensures |PopAll(s, calls).1| == |calls|
    decreases |calls|
  {
    if calls != [] {
      var n := |calls| - 1;
      EveryCallPops(s, calls[..n]);
      HasNext(PopAll(s, calls[..n]).0);
    }
  }

  lemma HasNext(t: Store)
    requires OneEach(t) && t.entries.Keys != {}
    ensures NextIndex(TasksOf(t.pending)).Some?
  {
    var k :| k in t.entries.Keys;
    assert Awaits(t.pending, k);
    var i :| 0 <= i < |t.pending| && t.pending[i].key == k;
    assert TasksOf(t.pending)[i].state == Scheduled;
  }

  // ---------- edits ----------

  function Without(ps: seq<Pending>, removed: set<Key>): (r: seq<Pending>)
    ensures forall p :: p in r <==> p in ps && p.key !in removed
  {
    if ps == [] then []
    else
      var n := |ps| - 1;
      assert ps == ps[..n] + [ps[n]];
      Without(ps[..n], removed) + if ps[n].key in removed then [] else [ps[n]]
  }

  /** `EditTask`: the removed keys go, with their occurrences, and a store of new entries is added. */
  function Edited(s: Store, removed: set<Key>, added: Store): Store {
    Store((s.entries - removed) + added.entries, Without(s.pending, removed) + added.pending)
  }

  lemma {:induction false} WithoutKeepsDistinct(ps: seq<Pending>, removed: set<Key>)
    requires DistinctKeys(ps)
    ensures DistinctKeys(Without(ps, removed))
  {
    if ps != [] {
      var n := |ps| - 1;
      WithoutKeepsDistinct(ps[..n], removed);
      var w := Without(ps[..n], removed);
      forall i | 0 <= i < |w|
        ensures w[i].key != ps[n].key
      {
        assert w[i] in ps[..n];
      }
    }
  }

  lemma WithoutSnoc(ps: seq<Pending>, removed: set<Key>, k: nat)
    requires k < |ps|
    ensures Without(ps[..k + 1], removed) == Without(ps[..k], removed) + if ps[k].key in removed then [] else [ps[k]]
  {
    assert ps[..k + 1][..k] == ps[..k];
  }

  lemma {:induction false} WithoutPrefix(ps: seq<Pending>, removed: set<Key>, i: nat, k: nat)
    requires i <= k <= |ps|
    ensures Without(ps[..i], removed) <= Without(ps[..k], removed)
    decreases k - i
  {
    if i < k {
      WithoutSnoc(ps, removed, i);
      WithoutPrefix(ps, removed, i + 1, k);
    }
  }

  /** Where an occurrence that is kept comes to be. */
  lemma WithoutKeepsAt(ps: seq<Pending>, removed: set<Key>, i: nat, k: nat)
    requires i < k <= |ps| && ps[i].key !in removed
    ensures |Without(ps[..i], removed)| < |Without(ps[..k], removed)|
    ensures Without(ps[..k], removed)[|Without(ps[..i], removed)|] == ps[i]
  {
    WithoutSnoc(ps, removed, i);
    WithoutPrefix(ps, removed, i + 1, k);
  }

  /** What an edit keeps stays in the same order. */
  lemma WithoutKeepsOrder(ps: seq<Pending>, removed: set<Key>, i: nat, j: nat) returns (a: nat, b: nat)
    requires i < j < |ps| && ps[i].key !in removed && ps[j].key !in removed
    ensures a < b < |Without(ps, removed)| && Without(ps, removed)[a] == ps[i] && Without(ps, removed)[b] == ps[j]
  {
    a, b := |Without(ps[..i], removed)|, |Without(ps[..j], removed)|;
    WithoutKeepsAt(ps, removed, i, j);
    WithoutKeepsAt(ps, removed, i, |ps|);
    WithoutKeepsAt(ps, removed, j, |ps|);
    assert ps[..|ps|] == ps;
  }

  lemma AppendAwaits(ps: seq<Pending>, qs: seq<Pending>, k: Key)
    ensures Awaits(ps + qs, k) <==> Awaits(ps, k) || Awaits(qs, k)
  {
    forall i | 0 <= i < |ps| ensures (ps + qs)[i] == ps[i] {
    }
    forall i | 0 <= i < |qs| ensures (ps + qs)[|ps| + i] == qs[i] {
    }
  }

  lemma WithoutAwaits(ps: seq<Pending>, removed: set<Key>, k: Key)
    requires Awaits(ps, k) && k !in removed
    ensures Awaits(Without(ps, removed), k)
  {
    var i :| 0 <= i < |ps| && ps[i].key == k;
    assert ps[i] in Without(ps, removed);
  }

  lemma AppendDistinct(ps: seq<Pending>, qs: seq<Pending>, ks: set<Key>)
    requires DistinctKeys(ps) && DistinctKeys(qs)
    requires forall p :: p in ps ==> p.key !in ks
    requires forall q :: q in qs ==> q.key in ks
    ensures DistinctKeys(ps + qs)
  {
  }

  /** An edit whose new keys collide with no kept key leaves exactly one occurrence per entry. */
  lemma EditKeepsOneEach(s: Store, removed: set<Key>, added: Store)
    requires OneEach(s) && OneEach(added) && (s.entries.Keys - removed) !! added.entries.Keys
    ensures OneEach(Edited(s, removed, added))
  {
    var t := Edited(s, removed, added);
    var w := Without(s.pending, removed);
    WithoutKeepsDistinct(s.pending, removed);
    AppendDistinct(w, added.pending, added.entries.Keys);
    forall i | 0 <= i < |t.pending|
      ensures t.pending[i].key in t.entries && t.pending[i].task.state == Scheduled && CanApply(t.pending[i].mutators)
    {
      assert t.pending[i] in w || t.pending[i] in added.pending;
    }
    forall k | k in t.entries
      ensures Awaits(t.pending, k)
    {
      AppendAwaits(w, added.pending, k);
      if k !in added.entries {
        WithoutAwaits(s.pending, removed, k);
      }
    }
  }

  /** Kept entries keep their state and their occurrence; removed ones lose theirs, and a key added again gets the new one. */
  lemma EditKeepsTheRest(s: Store, removed: set<Key>, added: Store)
    requires OneEach(s) && OneEach(added) && (s.entries.Keys - removed) !! added.entries.Keys
    ensures
      var t := Edited(s, removed, added);
      && (forall k :: k in t.entries <==> k in s.entries.Keys - removed || k in added.entries)
      && (forall k :: k in added.entries ==> t.entries[k] == added.entries[k])
      && (forall k :: k in s.entries.Keys - removed ==> t.entries[k] == s.entries[k])
      && (forall p :: p in t.pending <==> (p in s.pending && p.key !in removed) || p in added.pending)
  {
  }

  /** The plan as seen from its `n`-th occurrence. */
  function From(plan: Plan, n: nat): Plan {
    plan.(start := plan.Iterate(n))
  }

  lemma {:induction false} IterateFrom(plan: Plan, n: nat, m: nat)
    ensures From(plan, n).Iterate(m) == plan.Iterate(n + m)
  {
    if m > 0 {
      IterateFrom(plan, n, m - 1);
    }
  }

  function PlansAfter(plans: map<Key, Plan>, popped: seq<Pending>, removed: set<Key>, added: map<Key, Plan>): map<Key, Plan> {
    (map k | k in plans && k !in removed :: From(plans[k], Count(popped, k))) + added
  }

  lemma PlansAfterOne(plans: map<Key, Plan>, k: Key, plan: Plan)
    ensures PlansAfter(plans, [], {k}, map[k := plan]) == plans[k := plan]
  {
    assert forall j :: j in plans ==> From(plans[j], Count([], j)) == plans[j];
  }

  lemma PendingFollows(ps: seq<Pending>, plans: map<Key, Plan>, popped: seq<Pending>, p: Pending)
    requires PendingOnPlan(ps, plans, popped) && p in ps && p.key in plans
    ensures FollowsPlan(p, plans[p.key], Count(popped, p.key) + 1)
  {
    var i :| 0 <= i < |ps| && ps[i] == p;
  }

  lemma EntriesAfterEdit(entries: map<Key, EntryState>, plans: map<Key, Plan>, popped: seq<Pending>, removed: set<Key>,
                         added: map<Key, EntryState>, addedPlans: map<Key, Plan>)
    requires EntriesOnPlan(entries, plans, popped) && EntriesOnPlan(added, addedPlans, [])
    ensures EntriesOnPlan((entries - removed) + added, PlansAfter(plans, popped, removed, addedPlans), [])
  {
    var all, after := (entries - removed) + added, PlansAfter(plans, popped, removed, addedPlans);
    forall k | k in after
      ensures k in all && all[k] == EntryState(after[k].Iterate(1), after[k].schedule)
    {
      if k !in addedPlans {
        IterateFrom(plans[k], Count(popped, k), 1);
      }
    }
  }

  lemma PendingAfterEdit(ps: seq<Pending>, plans: map<Key, Plan>, popped: seq<Pending>, removed: set<Key>,
                         qs: seq<Pending>, addedPlans: map<Key, Plan>)
    requires PendingOnPlan(ps, plans, popped) && PendingOnPlan(qs, addedPlans, [])
    requires forall q :: q in qs ==> q.key in addedPlans
    requires forall p :: p in ps && p.key !in removed ==> p.key !in addedPlans
    ensures PendingOnPlan(Without(ps, removed) + qs, PlansAfter(plans, popped, removed, addedPlans), [])
  {
    var all, after := Without(ps, removed) + qs, PlansAfter(plans, popped, removed, addedPlans);
    forall i | 0 <= i < |all| && all[i].key in after
      ensures FollowsPlan(all[i], after[all[i].key], 1)
    {
      var p := all[i];
      if p.key in addedPlans {
        assert p !in Without(ps, removed);
        PendingFollows(qs, addedPlans, [], p);
      } else {
        PendingFollows(ps, plans, popped, p);
        IterateFrom(plans[p.key], Count(popped, p.key), 1);
      }
    }
  }

  /** After an edit the kept entries go on from the occurrence they had reached, and the new ones begin: `NoDrift` applies again. */
  lemma EditStaysOnPlan(s: Store, plans: map<Key, Plan>, popped: seq<Pending>,
                        removed: set<Key>, added: Store, addedPlans: map<Key, Plan>)
    requires OneEach(s) && OnPlan(s, plans, popped)
    requires OneEach(added) && OnPlan(added, addedPlans, [])
    requires (s.entries.Keys - removed) !! added.entries.Keys
    ensures OnPlan(Edited(s, removed, added), PlansAfter(plans, popped, removed, addedPlans), [])
  {
    EntriesAfterEdit(s.entries, plans, popped, removed, added.entries, addedPlans);
    PendingAfterEdit(s.pending, plans, popped, removed, added.pending, addedPlans);
  }

  /** A store of one new entry, which starts where the plan says and has advanced once. */
  function Single(k: Key, plan: Plan, c: Call): Store
    requires CanApply(plan.mutators)
  {
    var e := EntryState(plan.start, plan.schedule);
    Store(map[k := Advance(e)], [Occurrence(k, e, plan.mutators, c)])
  }

  lemma SingleTask(k: Key, plan: Plan, c: Call)
    requires CanApply(plan.mutators)
    ensures Single(k, plan, c).pending[0].task ==
            Apply(plan.mutators, NextParam(plan.schedule, plan.start), c.now, c.draw).ToTask(c.id, c.now)
  {
  }

  lemma SingleOnPlan(k: Key, plan: Plan, c: Call)
    requires CanApply(plan.mutators)
    ensures OneEach(Single(k, plan, c)) && OnPlan(Single(k, plan, c), map[k := plan], [])
  {
    var e := EntryState(plan.start, plan.schedule);
    OccurrenceScheduled(k, e, plan.mutators, c);
    OccurrenceStandsFor(k, e, plan.mutators, c);
    assert plan.Iterate(1) == NextTime(plan.schedule, plan.Iterate(0));
    assert Single(k, plan, c).pending[0].key == k;
  }

  lemma ExtendedOnPlan(s: Store, plans: map<Key, Plan>, k: Key, plan: Plan, c: Call)
    requires OneEach(s) && OnPlan(s, plans, []) && CanApply(plan.mutators)
    ensures OneEach(Edited(s, {k}, Single(k, plan, c)))
    ensures OnPlan(Edited(s, {k}, Single(k, plan, c)), PlansAfter(plans, [], {k}, map[k := plan]), [])
  {
    SingleOnPlan(k, plan, c);
    EditKeepsOneEach(s, {k}, Single(k, plan, c));
    EditStaysOnPlan(s, plans, [], {k}, Single(k, plan, c), map[k := plan]);
  }

  /** The mutators that the meta data in a key asks for. */
  function MutatorsFor(k: Key, parse: string -> Option<int>): Result<seq<Mutator>, Error> {
    LoadMutators(Entries(k.meta), parse)
  }

  /** The `i`-th added entry makes an edit fail: its key is taken and not being removed, or its mutators cannot be read. */
  ghost predicate Refused(added: seq<Schedule>, i: nat, existing: set<Key>, removed: set<Key>, parse: string -> Option<int>)
    requires i < |added|
  {
    var k := KeyFor(added[i]);
    || (k !in removed && (k in existing || k in KeysFor(added[..i])))
    || MutatorsFor(k, parse).Err?
  }

  ghost predicate NoneRefused(added: seq<Schedule>, existing: set<Key>, removed: set<Key>, parse: string -> Option<int>) {
    forall i :: 0 <= i < |added| ==> !Refused(added, i, existing, removed, parse)
  }

  lemma FullSlice<T>(s: seq<T>)
    ensures s[..0] == [] && s[..|s|] == s
  {
  }

  lemma NoneRefusedNext(added: seq<Schedule>, i: nat, existing: set<Key>, removed: set<Key>, parse: string -> Option<int>)
    requires i < |added| && NoneRefused(added[..i], existing, removed, parse)
    requires !Refused(added, i, existing, removed, parse)
    ensures NoneRefused(added[..i + 1], existing, removed, parse)
  {
    var ss := added[..i + 1];
    forall j | 0 <= j < |ss|
      ensures !Refused(ss, j, existing, removed, parse)
    {
      assert ss[j] == added[j] && ss[..j] == added[..j];
      if j < i {
        assert added[..i][..j] == added[..j];
        assert !Refused(added[..i], j, existing, removed, parse);
      }
    }
  }

  function KeysFor(added: seq<Schedule>): set<Key> {
    set i | 0 <= i < |added| :: KeyFor(added[i])
  }

  lemma KeysForNext(added: seq<Schedule>, i: nat)
    requires i < |added|
    ensures KeysFor(added[..i + 1]) == KeysFor(added[..i]) + {KeyFor(added[i])}
  {
    forall k | k in KeysFor(added[..i]) + {KeyFor(added[i])}
      ensures k in KeysFor(added[..i + 1])
    {
      var j :| 0 <= j <= i && KeyFor(added[j]) == k && (j < i ==> added[..i][j] == added[j]);
      assert added[..i + 1][j] == added[j];
    }
    forall k | k in KeysFor(added[..i + 1])
      ensures k in KeysFor(added[..i]) + {KeyFor(added[i])}
    {
      var j :| 0 <= j <= i && KeyFor(added[..i + 1][j]) == k;
      if j < i {
        assert added[..i][j] == added[j];
      }
    }
  }

  lemma NoneRefusedApart(added: seq<Schedule>, existing: set<Key>, removed: set<Key>, parse: string -> Option<int>)
    requires NoneRefused(added, existing, removed, parse)
    ensures (existing - removed) !! KeysFor(added)
  {
    forall k | k in existing - removed
      ensures k !in KeysFor(added)
    {
      forall i | 0 <= i < |added|
        ensures KeyFor(added[i]) != k
      {
        assert !Refused(added, i, existing, removed, parse);
      }
    }
  }
}
