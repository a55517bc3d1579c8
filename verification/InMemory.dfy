/**
 `InMemoryRepository`: a heap of the scheduled tasks and an insertion-ordered map of all of them,
 sharing mutable `IndexedTask` objects.
 */
module InMemory {
  import opened Wrappers
  import opened Def
  import opened SortableTask
  import opened Query
  import Effects
  import Finding
  import TaskList

  type Item = IndexedTask<()>

  class InMemoryRepository {
    var insertionOrderCount: nat
    var heap: TaskHeap<()>
    // the ordered map: its keys from oldest to newest, and its content
    var order: seq<string>
    var byId: map<string, Item>
    // the objects of the ordered map from oldest to newest, and their tasks
    ghost var items: seq<Item>
    ghost var Tasks: seq<Task>
    ghost var Repr: set<Item>

    ghost predicate ItemsValid()
      reads this, Repr`task
    {
      && |items| == |Tasks| && Within(items, Repr)
      && (forall i :: 0 <= i < |items| ==> items[i].task == Tasks[i])
      // later objects hold later insertions, so they are distinct
      && (forall i :: 0 <= i < |items| ==> items[i].insertionOrder <= insertionOrderCount)
      && (forall i, j :: 0 <= i < j < |items| ==> items[i].insertionOrder < items[j].insertionOrder)
    }

    ghost predicate MapValid()
      reads this, Repr`task
    {
      && ItemsValid() && |items| == |order|
      && (forall i :: 0 <= i < |order| ==> order[i] in byId && byId[order[i]] == items[i] && items[i].task.id == order[i])
      && (forall k :: k in byId ==> k in order)
    }

    /** The heap holds exactly the objects whose task is scheduled. */
    ghost predicate HeapMembers()
      reads this, Repr, heap
    {
      && (forall x :: x in heap.inner ==> x in items)
      && (forall x :: x in items && x in Repr ==> (x.task.state == Scheduled <==> x in heap.inner))
    }

    /** Moreover each is at the slot its index names, and they are in order. */
    ghost predicate HeapValid()
      reads this, Repr, heap, heap.Repr
    {
      heap.Repr <= Repr && heap.Indexed() && heap.Ordered() && HeapMembers()
    }

    /** The heap holds exactly the scheduled objects other than `x`, which it does not hold. */
    ghost predicate HeapBut(x: Item)
      reads this, Repr, heap
    {
      && x !in heap.inner && (forall y :: y in heap.inner ==> y in items)
      && (forall y :: y in items && y in Repr && y != x ==> (y.task.state == Scheduled <==> y in heap.inner))
    }

    ghost predicate Valid()
      reads this, Repr, heap, heap.Repr
    {
      MapValid() && HeapValid()
    }

    lemma IdsDistinct()
      requires MapValid()
      ensures TaskList.DistinctIds(Tasks)
    {
      forall i, j | 0 <= i < j < |items|
        ensures items[i].task.id != items[j].task.id
      {
        assert items[i].insertionOrder < items[j].insertionOrder;
      }
    }

    /** The map lookup finds the position the reference list finds. */
    lemma Locate(id: string) returns (i: nat)
      requires MapValid()
      ensures i == TaskList.IndexOf(Tasks, id)
      ensures id in byId <==> i < |items|
      ensures id in byId ==> byId[id] == items[i] && order[i] == id
    {
      IdsDistinct();
      if id in byId {
        var k :| 0 <= k < |order| && order[k] == id;
        TaskList.IndexOfUnique(Tasks, k);
      }
      i := TaskList.IndexOf(Tasks, id);
    }

    constructor ()
      ensures Valid() && fresh(heap) && items == [] && Tasks == []
    {
      insertionOrderCount := 0;
      heap := new TaskHeap<()>();
      order := [];
      byId := map[];
      items := [];
      Tasks := [];
      Repr := {};
    }

    ghost predicate Newest(wrapped: Item)
      reads this
    {
      && wrapped.insertionOrder == insertionOrderCount
      && forall i :: 0 <= i < |items| ==> items[i].insertionOrder < insertionOrderCount
    }

    /** `orderedMap.Set`: a new key goes to the end, a known key keeps its place. */
    method OrderedMapSet(key: string, wrapped: Item)
      modifies this`order, this`byId, this`items, this`Tasks, this`Repr
      ensures byId == old(byId)[key := wrapped] && Repr == old(Repr) + {wrapped}
      ensures items == old(items) + [wrapped] && Tasks == old(Tasks) + [wrapped.task]
      ensures old(ItemsValid() && Newest(wrapped)) ==> ItemsValid()
      ensures old(MapValid() && key !in byId && key == wrapped.task.id && Newest(wrapped)) ==> MapValid()
    {
      if key !in byId {
        order := order + [key];
      }
      byId := byId[key := wrapped];
      items := items + [wrapped];
      Tasks := Tasks + [wrapped.task];
      Repr := Repr + {wrapped};
    }

    /** `heap.Push` if the task is scheduled, then `orderedMap.Set`. */
    method Store(key: string, wrapped: Item)
      requires HeapValid() && Within(items, Repr) && wrapped !in Repr
      modifies this`order, this`byId, this`items, this`Tasks, this`Repr, heap`inner, heap`Repr, heap.Repr`index, wrapped`index
      ensures HeapValid() && heap.Repr <= old(heap.Repr) + {wrapped}
      ensures items == old(items) + [wrapped] && Tasks == old(Tasks) + [wrapped.task]
      ensures byId == old(byId)[key := wrapped] && Repr == old(Repr) + {wrapped}
      ensures old(ItemsValid() && Newest(wrapped)) ==> ItemsValid()
      ensures old(MapValid() && key !in byId && key == wrapped.task.id && Newest(wrapped)) ==> MapValid()
    {
      if wrapped.task.state == Scheduled {
        heap.Push(wrapped);
      }
      OrderedMapSet(key, wrapped);
    }

    /** `WrapTask`. */
    method Wrap(t: Task) returns (wrapped: Item)
      modifies this`insertionOrderCount
      ensures fresh(wrapped) && wrapped.task == t && wrapped.insertionOrder == insertionOrderCount
      ensures insertionOrderCount == old(insertionOrderCount) + 1
      ensures old(HeapValid()) ==> HeapValid()
      ensures old(ItemsValid()) ==> ItemsValid() && Newest(wrapped)
      ensures old(MapValid()) ==> MapValid()
    {
      insertionOrderCount := insertionOrderCount + 1;
      wrapped := new IndexedTask<()>(t, insertionOrderCount, ());
    }

    /** `WrapTask`, then `Store`. */
    method Insert(key: string, t: Task) returns (ghost wrapped: Item)
      requires HeapValid() && Within(items, Repr)
      modifies this`insertionOrderCount, this`order, this`byId, this`items, this`Tasks, this`Repr
      modifies heap`inner, heap`Repr, heap.Repr`index
      ensures HeapValid() && fresh(heap.Repr - old(heap.Repr))
      ensures fresh(wrapped) && wrapped.task == t && wrapped.insertionOrder == insertionOrderCount
      ensures insertionOrderCount == old(insertionOrderCount) + 1
      ensures items == old(items) + [wrapped] && Tasks == old(Tasks) + [t]
      ensures byId == old(byId)[key := wrapped] && Repr == old(Repr) + {wrapped}
      ensures old(ItemsValid()) ==> ItemsValid()
      ensures old(MapValid()) && key == t.id && key !in old(byId) ==> MapValid()
    {
      var x := Wrap(t);
      Store(key, x);
      wrapped := x;
    }

    method AddTask(ctxErr: Option<Error>, param: TaskUpdateParam, id: string, now: Time)
      returns (r: Result<Task, Error>)
      requires Valid() && id !in byId
      modifies this, heap, heap.Repr`index
      ensures Valid() && heap == old(heap)
      ensures fresh(Repr - old(Repr))
      ensures (Tasks, r) == TaskList.AddTask(old(Tasks), ctxErr, param, id, now)
      ensures Effects.Adds(old(Tasks), ctxErr, param, id, now, Tasks, r)
    {
      Effects.AddTaskDoes(Tasks, ctxErr, param, id, now);
      var p := param.Normalize();
      if ctxErr.Some? {
        return Err(ctxErr.value);
      }
      var t := p.ToTask(id, now);
      if !t.IsValid() {
        return Err(InvalidTask);
      }
      ghost var _ := Insert(id, t);
      return Ok(t);
    }

    /** Overwrites the task of one object. */
    method SetTask(x: Item, t: Task, ghost i: nat)
      requires MapValid() && i < |items| && items[i] == x && t.id == x.task.id
      modifies this`Tasks, x`task
      ensures MapValid() && x.task == t && Tasks == old(Tasks)[i := t]
    {
      assert forall j :: 0 <= j < |items| && items[j] == x ==> j == i;
      x.task := t;
      Tasks := Tasks[i := t];
    }

    /** `heap.Remove` by the object's back-pointer. */
    method Unheap(x: Item)
      requires Valid() && x in items && x.task.state == Scheduled
      modifies heap, heap.Repr`index
      ensures MapValid() && heap.Repr <= Repr && heap.Indexed() && heap.Ordered() && HeapBut(x)
    {
      SlotOf(x);
      var _ := heap.Remove(x.index);
    }

    /** `heap.Remove` of a scheduled object, whose task then leaves the scheduled state. */
    method Retire(x: Item, t: Task, ghost i: nat)
      requires Valid() && i < |items| && items[i] == x && x.task.state == Scheduled
      requires t.id == x.task.id && t.state != Scheduled
      modifies this`Tasks, heap, heap.Repr`index, x`task
      ensures Valid() && items == old(items) && Tasks == old(Tasks)[i := t]
    {
      Unheap(x);
      Conclude(x, t, i);
    }

    /** Nothing changed but the task of `x` and the list of tasks. */
    twostate predicate OnlyTaskOf(x: Item)
      reads this, Repr`task, Repr`index, heap, heap.Repr`task, heap.Repr`index
    {
      && heap == old(heap) && heap.inner == old(heap.inner) && heap.Repr == old(heap.Repr)
      && items == old(items) && Repr == old(Repr)
      && unchanged(Repr`index) && unchanged(heap.Repr`index)
      && (forall y :: y in Repr && y != x ==> y.task == old(y.task))
      && (forall y :: y in heap.Repr && y != x ==> y.task == old(y.task))
    }

    twostate lemma HeapAfterConclude(x: Item)
      requires OnlyTaskOf(x) && x in Repr && x in items && x.task.state != Scheduled
      requires old(heap.Repr <= Repr && heap.Indexed() && heap.Ordered() && HeapBut(x))
      ensures HeapValid()
    {
      assert heap.Ordered();
    }

    twostate lemma HeapAfterOverwrite(x: Item)
      requires OnlyTaskOf(x) && x in Repr && x in items && x.task.state == Scheduled
      requires old(HeapValid() && x.task.state == Scheduled)
      ensures heap.Repr <= Repr && heap.Indexed() && HeapMembers()
      ensures 0 <= x.index < |heap.inner| && heap.inner[x.index] == x
      ensures heap.OrderedBefore(x.index, old(x.Key()))
    {
      assert x in heap.inner;
      heap.OverwrittenAt(x.index);
    }

    /** Overwrites the task of an object outside the heap, which stays outside. */
    method Conclude(x: Item, t: Task, ghost i: nat)
      requires MapValid() && i < |items| && items[i] == x && t.id == x.task.id && t.state != Scheduled
      requires heap.Repr <= Repr && heap.Indexed() && heap.Ordered() && HeapBut(x)
      modifies this`Tasks, x`task
      ensures Valid() && items == old(items) && Tasks == old(Tasks)[i := t]
    {
      SetTask(x, t, i);
      HeapAfterConclude(x);
    }

    /** The heap was put into order, with the same elements. */
    twostate lemma StillMapped()
      requires old(MapValid() && heap.Repr <= Repr && HeapMembers())
      requires heap == old(heap) && heap.Repr == old(heap.Repr) && forall y :: y in heap.inner <==> y in old(heap.inner)
      requires unchanged(this) && unchanged(Repr`task)
      requires heap.Indexed() && heap.Ordered()
      ensures Valid()
    {
      assert MapValid();
    }

    /** Overwrites the task of a scheduled object that stays scheduled; the heap may now be out of order at its slot. */
    method Overwrite(x: Item, t: Task, ghost i: nat) returns (ghost before: SortKey)
      requires Valid() && i < |items| && items[i] == x && x.task.state == Scheduled
      requires t.id == x.task.id && t.state == Scheduled
      modifies this`Tasks, x`task
      ensures MapValid() && heap.Repr <= Repr && heap.Indexed() && HeapMembers()
      ensures 0 <= x.index < |heap.inner| && heap.OrderedBefore(x.index, before)
      ensures items == old(items) && Tasks == old(Tasks)[i := t]
    {
      before := x.Key();
      SetTask(x, t, i);
      HeapAfterOverwrite(x);
    }

    /** `Overwrite`, then `heap.Fix`. */
    method Reorder(x: Item, t: Task, ghost i: nat)
      requires Valid() && i < |items| && items[i] == x && x.task.state == Scheduled
      requires t.id == x.task.id && t.state == Scheduled
      modifies this`Tasks, heap, heap.Repr`index, x`task
      ensures Valid() && items == old(items) && Tasks == old(Tasks)[i := t]
    {
      ghost var before := Overwrite(x, t, i);
      label Overwritten:
      heap.Fix(x.index, before);
      StillMapped@Overwritten();
    }

    method GetById(ctxErr: Option<Error>, id: string) returns (r: Result<Task, Error>)
      requires Valid()
      ensures r == TaskList.GetById(Tasks, ctxErr, id)
      ensures Effects.Gets(Tasks, ctxErr, id, r)
    {
      Effects.GetByIdDoes(Tasks, ctxErr, id);
      if ctxErr.Some? {
        return Err(ctxErr.value);
      }
      ghost var i := Locate(id);
      if id !in byId {
        return Err(RepositoryError(id, IdNotFound));
      }
      return Ok(byId[id].task);
    }

    method UpdateById(ctxErr: Option<Error>, id: string, param: TaskUpdateParam) returns (err: Option<Error>)
      requires Valid()
      modifies this`Tasks, heap, heap.Repr`index, Repr`task
      ensures Valid() && items == old(items)
      ensures (Tasks, err) == TaskList.UpdateById(old(Tasks), ctxErr, id, param)
      ensures Effects.Updates(old(Tasks), ctxErr, id, param, Tasks, err)
    {
      Effects.UpdateByIdDoes(Tasks, ctxErr, id, param);
      var p := param.Normalize();
      if ctxErr.Some? {
        return ctxErr;
      }
      ghost var i := Locate(id);
      if id !in byId {
        return Some(RepositoryError(id, IdNotFound));
      }
      var task := byId[id];
      if task.task.state != Scheduled {
        return ErrKindScheduledOnly(task.task);
      }
      Reorder(task, task.task.Update(p), i);
      return None;
    }

    /** A scheduled object sits in the heap at the slot its index names. */
    lemma SlotOf(x: Item)
      requires Valid() && x in items && x.task.state == Scheduled
      ensures 0 <= x.index < |heap.inner| && heap.inner[x.index] == x
    {
    }

    method Cancel(ctxErr: Option<Error>, id: string, now: Time) returns (err: Option<Error>)
      requires Valid()
      modifies this`Tasks, heap, heap.Repr`index, Repr`task
      ensures Valid() && items == old(items)
      ensures (Tasks, err) == TaskList.Cancel(old(Tasks), ctxErr, id, now)
      ensures Effects.Cancels(old(Tasks), ctxErr, id, now, Tasks, err)
    {
      Effects.CancelDoes(Tasks, ctxErr, id, now);
      if ctxErr.Some? {
        return ctxErr;
      }
      ghost var i := Locate(id);
      if id !in byId {
        return Some(RepositoryError(id, IdNotFound));
      }
      var task := byId[id];
      if task.task.state != Scheduled {
        return ErrKindScheduledOnly(task.task);
      }
      Retire(task, task.task.(state := Cancelled, cancelledAt := Some(NormalizeTime(now))), i);
      return None;
    }

    method MarkAsDispatched(ctxErr: Option<Error>, id: string, now: Time) returns (err: Option<Error>)
      requires Valid()
      modifies this`Tasks, heap, heap.Repr`index, Repr`task
      ensures Valid() && items == old(items)
      ensures (Tasks, err) == TaskList.MarkAsDispatched(old(Tasks), ctxErr, id, now)
      ensures Effects.Dispatches(old(Tasks), ctxErr, id, now, Tasks, err)
    {
      Effects.MarkAsDispatchedDoes(Tasks, ctxErr, id, now);
      if ctxErr.Some? {
        return ctxErr;
      }
      ghost var i := Locate(id);
      if id !in byId {
        return Some(RepositoryError(id, IdNotFound));
      }
      var task := byId[id];
      if task.task.state != Scheduled {
        return ErrKindScheduledOnly(task.task);
      }
      Retire(task, task.task.(state := Dispatched, dispatchedAt := Some(NormalizeTime(now))), i);
      return None;
    }

    method MarkAsDone(ctxErr: Option<Error>, id: string, workErr: Option<string>, now: Time) returns (err: Option<Error>)
      requires Valid()
      modifies this`Tasks, Repr`task
      ensures Valid() && items == old(items)
      ensures (Tasks, err) == TaskList.MarkAsDone(old(Tasks), ctxErr, id, workErr, now)
      ensures Effects.Finishes(old(Tasks), ctxErr, id, workErr, now, Tasks, err)
    {
      Effects.MarkAsDoneDoes(Tasks, ctxErr, id, workErr, now);
      if ctxErr.Some? {
        return ctxErr;
      }
      ghost var i := Locate(id);
      if id !in byId {
        return Some(RepositoryError(id, IdNotFound));
      }
      var task := byId[id];
      if task.task.state != Dispatched {
        return ErrKindMarkAsDone(task.task);
      }
      var t := task.task;
      if workErr.None? {
        t := t.(state := Done);
      } else {
        t := t.(state := Failed, err := workErr.value);
      }
      Conclude(task, t.(doneAt := Some(NormalizeTime(now))), i);
      return None;
    }

    /** The heap's root is the task that the scan of the reference list finds. */
    lemma RootIsNext()
      requires Valid()
      ensures heap.inner == [] ==> TaskList.NothingScheduled(Tasks)
      ensures heap.inner != [] ==> TaskList.GetNext(Tasks) == Ok(heap.inner[0].task)
    {
      if heap.inner != [] {
        var r := RootBeatsAll();
        TaskList.NextIsUnique(Tasks, r);
      }
    }

    lemma RootBeatsAll() returns (r: nat)
      requires Valid() && heap.inner != []
      ensures r < |items| && items[r] == heap.inner[0] && TaskList.IsNext(Tasks, r)
    {
      heap.RootIsMinimum();
      assert heap.inner[0] in heap.inner;
      r :| 0 <= r < |items| && items[r] == heap.inner[0];
      forall i | 0 <= i < |Tasks| && Tasks[i].state == Scheduled
        ensures if i < r then TaskList.Precedes(Tasks[r], Tasks[i]) else !TaskList.Precedes(Tasks[i], Tasks[r])
      {
        assert items[i] in heap.inner;
      }
    }

    method GetNext() returns (r: Result<Task, Error>)
      requires Valid()
      ensures r == TaskList.GetNext(Tasks)
    {
      if |heap.inner| == 0 {
        return Err(RepositoryError("", Exhausted));
      }
      var top := heap.Peek();
      RootIsNext();
      return Ok(top.task);
    }

    /** The loop of `Find`, given the normalized query. */
    method Scan(matcher: TaskQueryParam, offset: int, limit: int, ghost q: TaskQueryParam) returns (out: seq<Task>)
      requires Valid() && matcher == q.Normalize()
      ensures out == TaskList.Find(Tasks, Accepted(q), offset, limit)
    {
      var skip, left := offset, limit;
      out := [];
      for k := 0 to |order|
        invariant TaskList.Paged(Tasks, Accepted(q), k, offset, limit, out, skip, left)
      {
        TaskList.FindRound(Tasks, Accepted(q), k, offset, limit, out, skip, left);
        var task := byId[order[k]].task;
        if matcher.Match(task) {
          if skip != 0 {
            skip := skip - 1;
          } else if left == 0 {
            return;
          } else {
            left := if left > 0 then left - 1 else left;
            out := out + [task];
          }
        }
      }
      assert Tasks[..|order|] == Tasks;
    }

    method Find(q: TaskQueryParam, offset: int, limit: int) returns (out: seq<Task>)
      requires Valid()
      ensures out == TaskList.Find(Tasks, Accepted(q), offset, limit)
      ensures Finding.Finds(q, Tasks, offset, limit, out)
    {
      out := Scan(q.Normalize(), offset, limit, q);
      Finding.FindFinds(q, Tasks, offset, limit);
    }

    method Save() returns (out: seq<TaskList.KeyValue>)
      requires Valid()
      ensures out == TaskList.Save(Tasks)
    {
      out := [];
      var k := 0;
      while k < |order|
        invariant k <= |order| == |Tasks| && |out| == k
        invariant forall i :: 0 <= i < k ==> out[i] == TaskList.KeyValue(Tasks[i].id, Tasks[i])
      {
        out := out + [TaskList.KeyValue(order[k], byId[order[k]].task)];
        k := k + 1;
      }
    }

    lemma KeyIsNew(kv: seq<TaskList.KeyValue>, k: nat)
      requires k < |kv| && Tasks == TaskList.Values(kv[..k])
      ensures MapValid() && TaskList.Consistent(kv) ==> kv[k].key == kv[k].value.id && kv[k].key !in byId
    {
      if MapValid() && TaskList.Consistent(kv) {
        forall i | 0 <= i < |order|
          ensures order[i] != kv[k].key
        {
          assert TaskList.Values(kv)[i].id != TaskList.Values(kv)[k].id;
        }
      }
    }

    /** The map built from the pairs holds the last object of each key. */
    static ghost predicate LastWins(kv: seq<TaskList.KeyValue>, items: seq<Item>, byId: map<string, Item>) {
      && |items| == |kv|
      && (forall key :: key in byId <==> TaskList.LastWith(kv, key) >= 0)
      && (forall key :: key in byId ==> byId[key] == items[TaskList.LastWith(kv, key)])
    }

    static lemma LastWinsStep(kv: seq<TaskList.KeyValue>, items: seq<Item>, byId: map<string, Item>, k: nat, x: Item)
      requires k < |kv| && LastWins(kv[..k], items, byId)
      ensures LastWins(kv[..k + 1], items + [x], byId[kv[k].key := x])
    {
      assert kv[..k + 1][..k] == kv[..k];
    }

    /** Every pair has made an object. */
    ghost predicate Loaded(kv: seq<TaskList.KeyValue>)
      reads this, Repr`task
    {
      ItemsValid() && Tasks == TaskList.Values(kv) && LastWins(kv, items, byId)
    }

    /** The heap holds exactly the scheduled objects of the map. */
    ghost predicate Agrees()
      reads this, heap, byId.Values`task
    {
      && (forall x :: x in heap.inner ==> x in byId.Values && x.task.state == Scheduled)
      && (forall x :: x in byId.Values && x.task.state == Scheduled ==> x in heap.inner)
    }

    /** The id of every task in the heap leads to it, so that what `GetNext` answers can be dispatched. */
    ghost predicate Reachable()
      reads this, heap, heap.Repr`task
    {
      forall x :: x in heap.inner && x in heap.Repr ==> x.task.id in byId && byId[x.task.id] == x
    }

    /** The object made from pair `i` is in the map exactly if no later pair has its key. */
    lemma InMapIff(kv: seq<TaskList.KeyValue>, i: nat)
      requires Loaded(kv) && i < |kv|
      ensures items[i] in byId.Values <==> TaskList.LastWith(kv, kv[i].key) == i
    {
      if items[i] in byId.Values {
        var key :| key in byId && byId[key] == items[i];
        assert TaskList.LastWith(kv, key) == i;
      } else {
        assert kv[i].key in byId;
      }
    }

    /** Nothing but the scheduled objects of the map is in the heap exactly if none of them lost its key. */
    lemma AgreesIff(kv: seq<TaskList.KeyValue>)
      requires Loaded(kv) && HeapValid()
      ensures Agrees() <==> TaskList.NoScheduledOverwritten(kv)
    {
      if Agrees() {
        forall i, j | 0 <= i < j < |kv| && kv[i].value.state == Scheduled
          ensures kv[i].key != kv[j].key
        {
          assert items[i] in heap.inner;
          InMapIff(kv, i);
        }
      }
      if TaskList.NoScheduledOverwritten(kv) {
        forall x | x in heap.inner
          ensures x in byId.Values && x.task.state == Scheduled
        {
          var i :| 0 <= i < |items| && items[i] == x;
          InMapIff(kv, i);
        }
      }
    }

    lemma ReachableIff(kv: seq<TaskList.KeyValue>)
      requires Loaded(kv) && HeapValid()
      ensures Reachable() <==> TaskList.NoScheduledOverwritten(kv) && TaskList.ScheduledKeysName(kv)
    {
      if Reachable() {
        forall i | 0 <= i < |kv| && kv[i].value.state == Scheduled
          ensures kv[i].key == kv[i].value.id && TaskList.LastWith(kv, kv[i].key) == i
        {
          assert items[i] in heap.inner;
        }
      }
      if TaskList.NoScheduledOverwritten(kv) && TaskList.ScheduledKeysName(kv) {
        forall x | x in heap.inner
          ensures x.task.id in byId && byId[x.task.id] == x
        {
          var i :| 0 <= i < |items| && items[i] == x;
          assert TaskList.LastWith(kv, kv[i].key) == i;
        }
      }
    }

    method LoadOne(kv: seq<TaskList.KeyValue>, k: nat)
      requires k < |kv| && Loaded(kv[..k]) && HeapValid()
      modifies this`insertionOrderCount, this`order, this`byId, this`items, this`Tasks, this`Repr
      modifies heap`inner, heap`Repr, heap.Repr`index
      ensures Loaded(kv[..k + 1]) && HeapValid()
      ensures fresh(Repr - old(Repr)) && fresh(heap.Repr - old(heap.Repr))
      ensures old(MapValid()) && TaskList.Consistent(kv) ==> MapValid()
    {
      KeyIsNew(kv, k);
      ghost var wrapped := Insert(kv[k].key, kv[k].value);
      LastWinsStep(kv, old(items), old(byId), k, wrapped);
      TaskList.ValuesSnoc(kv, k);
    }

    method Init()
      modifies this
      ensures Valid() && fresh(heap) && items == [] && byId == map[] && Repr == {}
    {
      insertionOrderCount := 0;
      heap := new TaskHeap<()>();
      order, byId, items, Tasks, Repr := [], map[], [], [], {};
    }

    /** The loop of `Load`, into a repository that `Init` just emptied. */
    method Refill(kv: seq<TaskList.KeyValue>)
      requires Valid() && items == [] && byId == map[]
      modifies this, heap, heap.Repr`index
      ensures heap == old(heap) && HeapValid() && Loaded(kv)
      ensures fresh(Repr - old(Repr)) && fresh(heap.Repr - old(heap.Repr))
      ensures TaskList.Consistent(kv) ==> MapValid()
    {
      var k := 0;
      while k < |kv|
        invariant k <= |kv|
        invariant heap == old(heap) && HeapValid() && Loaded(kv[..k])
        invariant fresh(Repr - old(Repr)) && fresh(heap.Repr - old(heap.Repr))
        invariant TaskList.Consistent(kv) ==> MapValid()
      {
        LoadOne(kv, k);
        k := k + 1;
      }
      assert kv[..k] == kv;
    }

    method CheckValid(kv: seq<TaskList.KeyValue>) returns (err: Option<Error>)
      ensures err == if TaskList.AllValid(kv) then None else Some(InvalidTask)
    {
      for k := 0 to |kv|
        invariant forall i :: 0 <= i < k ==> kv[i].value.IsValid()
      {
        if !kv[k].value.IsValid() {
          return Some(InvalidTask);
        }
      }
      return None;
    }

    /** `Init`, then the loop of `Load`. */
    method Reload(kv: seq<TaskList.KeyValue>)
      modifies this
      ensures fresh(heap) && fresh(Repr) && HeapValid() && Loaded(kv)
      ensures TaskList.Consistent(kv) ==> MapValid()
    {
      Init();
      Refill(kv);
    }

    /**
     Replaces the content. Keys are not checked: a scheduled task with a later pair of the same key
     stays in the heap but not in the map, and one whose key is not its id cannot be found by its id.
     */
    method Load(kv: seq<TaskList.KeyValue>) returns (err: Option<Error>)
      modifies this
      ensures err == if TaskList.AllValid(kv) then None else Some(InvalidTask)
      ensures err.Some? ==> unchanged(this)
      ensures err.None? ==> fresh(heap) && fresh(Repr) && HeapValid() && Loaded(kv)
      ensures err.None? ==> (Agrees() <==> TaskList.NoScheduledOverwritten(kv))
      ensures err.None? ==> (Reachable() <==> TaskList.NoScheduledOverwritten(kv) && TaskList.ScheduledKeysName(kv))
      ensures err.None? && TaskList.Consistent(kv) ==> Valid() && Tasks == TaskList.Values(kv)
    {
      err := CheckValid(kv);
      if err.None? {
        Reload(kv);
        AgreesIff(kv);
        ReachableIff(kv);
      }
    }
  }
}
