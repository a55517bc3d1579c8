/**
 The index-maintaining heap of `internal/sortable_task` over Go's `container/heap`.

 Elements are shared, mutable objects that carry a back-pointer `index` to their own slot.
 `Up`, `Down` and the operations built from them are the algorithms of `container/heap`;
 `Swap`, `Append` and `Truncate` are the `swap`, `push` and `pop` hooks of the repository.
 */
module SortableTask {
  import opened Def

  /** Everything `Less` looks at. */
  datatype SortKey = SortKey(at: Time, priority: int, created: Time, order: nat)

  /** Time ascending, then priority descending, then creation ascending, then insertion ascending. */
  predicate KeyLess(i: SortKey, j: SortKey) {
    if i.at != j.at then i.at < j.at
    else if i.priority != j.priority then i.priority > j.priority
    else if i.created != j.created then i.created < j.created
    else i.order < j.order
  }

  function KeyOf(t: Task, order: nat): SortKey {
    SortKey(t.scheduledAt, t.priority, t.createdAt, order)
  }

  class IndexedTask<P> {
    var task: Task
    var index: int
    const insertionOrder: nat
    const payload: P

    /** `WrapTask`, given the counter value that `count.Add(1)` returned. */
    constructor (task: Task, insertionOrder: nat, payload: P)
      ensures this.task == task && this.insertionOrder == insertionOrder && this.payload == payload
      ensures index == 0
    {
      this.task := task;
      this.insertionOrder := insertionOrder;
      this.payload := payload;
      index := 0;
    }

    function Key(): SortKey
      reads this`task
    {
      KeyOf(task, insertionOrder)
    }
  }

  // ---------- heap order, on values ----------

  predicate IsChild(p: int, c: int) {
    c == 2 * p + 1 || c == 2 * p + 2
  }

  /** On `elems`, `lt` is a strict weak order, so that `!lt(b, a)` is a total preorder. */
  ghost predicate StrictWeakOrder<T>(elems: set<T>, lt: (T, T) -> bool) {
    && (forall a, b :: a in elems && b in elems && lt(a, b) ==> !lt(b, a))
    && (forall a, b, c :: a in elems && b in elems && c in elems && !lt(a, b) && !lt(b, c) ==> !lt(a, c))
  }

  ghost predicate Within<T>(s: seq<T>, elems: set<T>) {
    forall k :: 0 <= k < |s| ==> s[k] in elems
  }

  /**
   Every parent-child pair below `n` whose parent is not before `lo` is in order, except those
   whose parent is `hole` or whose child is `skip`.
   */
  ghost predicate OrderedBut<T>(s: seq<T>, lt: (T, T) -> bool, lo: nat, n: int, hole: int, skip: int)
    requires n <= |s|
  {
    forall p, c :: lo <= p < c < n && IsChild(p, c) && p != hole && c != skip ==> !lt(s[c], s[p])
  }

  /** The children of `hole` are in order with the parent of `hole`. */
  ghost predicate Bridged<T>(s: seq<T>, lt: (T, T) -> bool, lo: nat, n: int, hole: int)
    requires n <= |s|
  {
    forall p, c :: lo <= p < hole < c < n && IsChild(p, hole) && IsChild(hole, c) ==> !lt(s[c], s[p])
  }

  ghost predicate HeapOrdered<T>(s: seq<T>, lt: (T, T) -> bool)
  {
    OrderedBut(s, lt, 0, |s|, -1, -1)
  }

  /** In a heap-ordered sequence nothing precedes the root. */
  lemma {:induction false} RootIsLeast<T>(s: seq<T>, elems: set<T>, lt: (T, T) -> bool, i: nat)
    requires HeapOrdered(s, lt) && Within(s, elems) && StrictWeakOrder(elems, lt) && i < |s|
    ensures !lt(s[i], s[0])
    decreases i
  {
    if i > 0 {
      var p := (i - 1) / 2;
      assert IsChild(p, i);
      RootIsLeast(s, elems, lt, p);
    }
  }

  function Swapped<T>(s: seq<T>, i: nat, j: nat): seq<T>
    requires i < |s| && j < |s|
  {
    s[i := s[j]][j := s[i]]
  }

  lemma SameElements<T>(s: seq<T>, t: seq<T>)
    requires multiset(s) == multiset(t)
    ensures forall y :: y in s <==> y in t
  {
    assert forall y :: y in s <==> y in multiset(s);
    assert forall y :: y in t <==> y in multiset(t);
  }

  lemma WithOneMore<T>(s: seq<T>, t: seq<T>, x: T)
    requires multiset(t) == multiset(s) + multiset{x}
    ensures forall y :: y in t <==> y in s || y == x
  {
    assert forall y :: y in s <==> y in multiset(s);
    assert forall y :: y in t <==> y in multiset(t);
  }

  lemma WithoutOne<T>(s: seq<T>, t: seq<T>, x: T)
    requires multiset(t) == multiset(s) - multiset{x}
    ensures x !in t ==> forall y :: y in t <==> y in s && y != x
  {
    assert forall y :: y in s <==> y in multiset(s);
    assert forall y :: y in t <==> y in multiset(t);
  }

  lemma SwapKeepsElements<T>(s: seq<T>, i: nat, j: nat)
    requires i < |s| && j < |s|
    ensures multiset(Swapped(s, i, j)) == multiset(s)
    ensures |Swapped(s, i, j)| == |s|
    ensures forall k :: 0 <= k < |s| ==> Swapped(s, i, j)[k] == if k == j then s[i] else if k == i then s[j] else s[k]
  {
  }

  lemma UpStep<T>(s: seq<T>, elems: set<T>, lt: (T, T) -> bool, n: nat, i: nat, j: nat)
    requires Within(s, elems) && StrictWeakOrder(elems, lt)
    requires j < n <= |s| && IsChild(i, j) && lt(s[j], s[i])
    requires OrderedBut(s, lt, 0, n, -1, j) && Bridged(s, lt, 0, n, j)
    ensures OrderedBut(Swapped(s, i, j), lt, 0, n, -1, i) && Bridged(Swapped(s, i, j), lt, 0, n, i)
  {
    var t := Swapped(s, i, j);
    forall p, c | 0 <= p < c < n && IsChild(p, c) && c != i
      ensures !lt(t[c], t[p])
    {
      if c != j { assert !lt(s[c], s[p]); }
    }
    forall p, c | 0 <= p < i < c < n && IsChild(p, i) && IsChild(i, c)
      ensures !lt(t[c], t[p])
    {
      assert !lt(s[i], s[p]);
      assert c != j ==> !lt(s[c], s[i]);
    }
  }

  lemma DownStep<T>(s: seq<T>, elems: set<T>, lt: (T, T) -> bool, lo: nat, n: nat, start: nat, i: nat, j: nat)
    requires lo <= start <= i < j < n <= |s| && IsChild(i, j)
    requires Within(s, elems) && StrictWeakOrder(elems, lt) && lt(s[j], s[i])
    requires LeastChild(s, lt, n, i, j)
    requires OrderedBut(s, lt, lo, n, i, if i == start then start else -1) && Bridged(s, lt, lo, n, i)
    ensures OrderedBut(Swapped(s, i, j), lt, lo, n, j, -1) && Bridged(Swapped(s, i, j), lt, lo, n, j)
  {
    var t := Swapped(s, i, j);
    forall p, c | lo <= p < c < n && IsChild(p, c) && p != j
      ensures !lt(t[c], t[p])
    {
      if c != i && p != i { assert !lt(s[c], s[p]); }
    }
    forall p, c | lo <= p < j < c < n && IsChild(p, j) && IsChild(j, c)
      ensures !lt(t[c], t[p])
    {
      assert p == i && !lt(s[c], s[j]);
    }
  }

  /** In a heap, moving the last element into slot `i` leaves a hole there that is bridged. */
  lemma HoleAfterSwap<T>(s: seq<T>, elems: set<T>, lt: (T, T) -> bool, i: nat, n: nat)
    requires Within(s, elems) && StrictWeakOrder(elems, lt)
    requires i < n == |s| - 1 && HeapOrdered(s, lt)
    ensures OrderedBut(Swapped(s, i, n), lt, 0, n, i, i) && Bridged(Swapped(s, i, n), lt, 0, n, i)
  {
    var t := Swapped(s, i, n);
    forall p, c | 0 <= p < i < c < n && IsChild(p, i) && IsChild(i, c)
      ensures !lt(t[c], t[p])
    {
      assert !lt(s[c], s[i]) && !lt(s[i], s[p]);
    }
  }

  /** `j` is a child of `i` below `n` that no other child of `i` below `n` precedes. */
  ghost predicate LeastChild<T>(s: seq<T>, lt: (T, T) -> bool, n: nat, i: nat, j: nat)
    requires n <= |s|
  {
    && i < j < n && IsChild(i, j)
    && forall c :: i < c < n && IsChild(i, c) ==> !lt(s[c], s[j])
  }

  /** Once the least child does not precede the hole, the hole is closed. */
  lemma DownStop<T>(s: seq<T>, elems: set<T>, lt: (T, T) -> bool, lo: nat, n: nat, start: nat, i: nat, j: nat)
    requires Within(s, elems) && StrictWeakOrder(elems, lt)
    requires lo <= start <= i < n <= |s|
    requires LeastChild(s, lt, n, i, j) && !lt(s[j], s[i])
    requires OrderedBut(s, lt, lo, n, i, if i == start then start else -1)
    ensures OrderedBut(s, lt, lo, n, -1, if i == start then start else -1)
  {
    forall p, c | lo <= p < c < n && IsChild(p, c) && p == i
      ensures !lt(s[c], s[p])
    {
      assert !lt(s[c], s[j]);
    }
  }

  // ---------- the heap ----------

  class TaskHeap<P> {
    var inner: seq<IndexedTask<P>>
    // every object that was ever pushed
    ghost var Repr: set<IndexedTask<P>>

    constructor ()
      ensures inner == [] && Repr == {}
    {
      inner := [];
      Repr := {};
    }

    /** `elems` contains every element and `lt` is `Less` on them as they are now. */
    ghost predicate Keyed(elems: set<IndexedTask<P>>, lt: (IndexedTask<P>, IndexedTask<P>) -> bool)
      reads this`inner, this`Repr, elems`task
    {
      && Within(inner, elems) && StrictWeakOrder(elems, lt)
      && (forall x, y :: x in elems && y in elems ==>
            lt(x, y) == KeyLess(KeyOf(x.task, x.insertionOrder), KeyOf(y.task, y.insertionOrder)))
    }

    ghost predicate Indexed()
      reads this`inner, this`Repr, Repr`index
    {
      forall i :: 0 <= i < |inner| ==> inner[i] in Repr && inner[i].index == i
    }

    method Less(i: nat, j: nat, ghost elems: set<IndexedTask<P>>, ghost lt: (IndexedTask<P>, IndexedTask<P>) -> bool)
      returns (r: bool)
      requires i < |inner| && j < |inner| && Keyed(elems, lt)
      ensures r == lt(inner[i], inner[j])
    {
      var a, b := inner[i], inner[j];
      if a.task.scheduledAt != b.task.scheduledAt {
        return a.task.scheduledAt < b.task.scheduledAt;
      }
      if a.task.priority != b.task.priority {
        return a.task.priority > b.task.priority;
      }
      if a.task.createdAt != b.task.createdAt {
        return a.task.createdAt < b.task.createdAt;
      }
      return a.insertionOrder < b.insertionOrder;
    }

    method Swap(i: nat, j: nat, ghost elems: set<IndexedTask<P>>, ghost lt: (IndexedTask<P>, IndexedTask<P>) -> bool)
      requires i < |inner| && j < |inner| && Keyed(elems, lt)
      modifies this`inner, elems`index
      ensures inner == Swapped(old(inner), i, j) && Keyed(elems, lt)
      ensures multiset(inner) == old(multiset(inner))
      ensures old(Indexed()) ==> Indexed()
    {
      SwapKeepsElements(inner, i, j);
      inner := inner[i := inner[j]][j := inner[i]];
      inner[i].index := i;
      inner[j].index := j;
    }

    /** `up` of `container/heap`: only the pair above `start` may be out of order. */
    method Up(start: nat, ghost n: nat, ghost elems: set<IndexedTask<P>>, ghost lt: (IndexedTask<P>, IndexedTask<P>) -> bool)
      requires start < n <= |inner| && Keyed(elems, lt)
      requires OrderedBut(inner, lt, 0, n, -1, start) && Bridged(inner, lt, 0, n, start)
      modifies this`inner, elems`index
      ensures |inner| == old(|inner|) && OrderedBut(inner, lt, 0, n, -1, -1) && Keyed(elems, lt)
      ensures forall k :: n <= k < |inner| ==> inner[k] == old(inner)[k]
      ensures multiset(inner) == old(multiset(inner))
      ensures old(Indexed()) ==> Indexed()
    {
      var j := start;
      while j > 0
        invariant j < n <= |inner| == old(|inner|) && Keyed(elems, lt)
        invariant OrderedBut(inner, lt, 0, n, -1, j) && Bridged(inner, lt, 0, n, j)
        invariant forall k :: n <= k < |inner| ==> inner[k] == old(inner)[k]
        invariant multiset(inner) == old(multiset(inner))
        invariant old(Indexed()) ==> Indexed()
      {
        var i := (j - 1) / 2;
        assert IsChild(i, j);
        var less := Less(j, i, elems, lt);
        if !less {
          break;
        }
        UpStep(inner, elems, lt, n, i, j);
        Swap(i, j, elems, lt);
        j := i;
      }
    }

    /** The child that `down` compares with its parent: the right one only if it precedes the left one. */
    method LesserChild(i: nat, n: nat, ghost elems: set<IndexedTask<P>>, ghost lt: (IndexedTask<P>, IndexedTask<P>) -> bool)
      returns (j: nat)
      requires 2 * i + 1 < n <= |inner| && Keyed(elems, lt)
      ensures LeastChild(inner, lt, n, i, j)
    {
      j := 2 * i + 1;
      if j + 1 < n {
        var less := Less(j + 1, j, elems, lt);
        if less {
          j := j + 1;
        }
      }
    }

    /** `down` of `container/heap` on the first `n` slots; says whether the element moved. */
    method Down(start: nat, n: nat, ghost lo: nat, ghost elems: set<IndexedTask<P>>, ghost lt: (IndexedTask<P>, IndexedTask<P>) -> bool)
      returns (moved: bool)
      requires lo <= start <= n <= |inner| && Keyed(elems, lt)
      requires OrderedBut(inner, lt, lo, n, start, start) && Bridged(inner, lt, lo, n, start)
      modifies this`inner, elems`index
      ensures |inner| == old(|inner|) && Keyed(elems, lt)
      ensures forall k :: n <= k < |inner| ==> inner[k] == old(inner)[k]
      ensures multiset(inner) == old(multiset(inner))
      ensures old(Indexed()) ==> Indexed()
      ensures moved ==> OrderedBut(inner, lt, lo, n, -1, -1)
      ensures !moved ==> inner == old(inner) && OrderedBut(inner, lt, lo, n, -1, start) && Bridged(inner, lt, lo, n, start)
    {
      var i := start;
      while true
        invariant start <= i <= n <= |inner| == old(|inner|) && Keyed(elems, lt)
        invariant forall k :: n <= k < |inner| ==> inner[k] == old(inner)[k]
        invariant multiset(inner) == old(multiset(inner))
        invariant old(Indexed()) ==> Indexed()
        invariant i == start ==> inner == old(inner)
        invariant OrderedBut(inner, lt, lo, n, i, if i == start then start else -1) && Bridged(inner, lt, lo, n, i)
        decreases n - i
      {
        var j := 2 * i + 1;
        if j >= n {
          break;
        }
        j := LesserChild(i, n, elems, lt);
        var less := Less(j, i, elems, lt);
        if !less {
          DownStop(inner, elems, lt, lo, n, start, i, j);
          break;
        }
        DownStep(inner, elems, lt, lo, n, start, i, j);
        Swap(i, j, elems, lt);
        i := j;
      }
      moved := i > start;
    }

    /** The tail that `container/heap` gives both `Fix` and `Remove`: sift down, or else up. */
    method Settle(i: nat, n: nat, ghost elems: set<IndexedTask<P>>, ghost lt: (IndexedTask<P>, IndexedTask<P>) -> bool)
      requires i < n <= |inner| && Keyed(elems, lt)
      requires OrderedBut(inner, lt, 0, n, i, i) && Bridged(inner, lt, 0, n, i)
      modifies this`inner, elems`index
      ensures |inner| == old(|inner|) && Keyed(elems, lt) && OrderedBut(inner, lt, 0, n, -1, -1)
      ensures forall k :: n <= k < |inner| ==> inner[k] == old(inner)[k]
      ensures multiset(inner) == old(multiset(inner))
      ensures old(Indexed()) ==> Indexed()
    {
      var moved := Down(i, n, 0, elems, lt);
      if !moved {
        Up(i, n, elems, lt);
      }
    }

    // ---------- operations ----------

    ghost function KeyAt(k: int): SortKey
      requires 0 <= k < |inner| && inner[k] in Repr
      reads this`inner, this`Repr, Repr`task
    {
      KeyOf(inner[k].task, inner[k].insertionOrder)
    }

    /** No element precedes its parent. */
    ghost predicate Ordered()
      reads this`inner, this`Repr, Repr`task
    {
      Within(inner, Repr) &&
      forall p, c :: 0 <= p < c < |inner| && IsChild(p, c) ==> !KeyLess(KeyAt(c), KeyAt(p))
    }

    /** The heap was in order when the element at `i` still had the key `before`. */
    ghost predicate OrderedBefore(i: nat, before: SortKey)
      reads this`inner, this`Repr, Repr`task
    {
      Within(inner, Repr) &&
      forall p, c :: 0 <= p < c < |inner| && IsChild(p, c) ==>
        !KeyLess(if c == i then before else KeyAt(c), if p == i then before else KeyAt(p))
    }

    /** Overwriting the task at `i` of a heap leaves it as `Fix` expects it. */
    twostate lemma OverwrittenAt(i: nat)
      requires old(Ordered() && Indexed()) && inner == old(inner) && Repr == old(Repr) && i < |inner|
      requires forall x :: x in Repr && x != inner[i] ==> x.task == old(x.task)
      ensures OrderedBefore(i, old(KeyAt(i)))
    {
      assert forall k :: 0 <= k < |inner| && k != i ==> old(inner[k].index) != old(inner[i].index);
    }

    /** Nothing precedes the element `Peek` returns. */
    lemma RootIsMinimum()
      requires Ordered() && |inner| > 0
      ensures forall x :: x in inner ==> !KeyLess(KeyOf(x.task, x.insertionOrder), KeyAt(0))
    {
      ghost var elems := Repr;
      ghost var lt := Snapshot(elems);
      forall x | x in inner
        ensures !KeyLess(KeyOf(x.task, x.insertionOrder), KeyAt(0))
      {
        var i :| 0 <= i < |inner| && inner[i] == x;
        RootIsLeast(inner, elems, lt, i);
      }
    }

    /** `Less` on `elems`, as a value that later assignments do not change. */
    static ghost function Snapshot(elems: set<IndexedTask<P>>): (lt: (IndexedTask<P>, IndexedTask<P>) -> bool)
      reads elems`task
      ensures StrictWeakOrder(elems, lt)
      ensures forall x, y :: x in elems && y in elems ==>
        lt(x, y) == KeyLess(KeyOf(x.task, x.insertionOrder), KeyOf(y.task, y.insertionOrder))
    {
      var keys := map x | x in elems :: KeyOf(x.task, x.insertionOrder);
      (x, y) => x in keys && y in keys && KeyLess(keys[x], keys[y])
    }

    method Peek() returns (x: IndexedTask<P>)
      requires |inner| > 0
      ensures x == inner[0]
    {
      return inner[0];
    }

    method Push(x: IndexedTask<P>)
      requires Ordered()
      modifies this`inner, this`Repr, Repr`index, x`index
      ensures Ordered()
      ensures multiset(inner) == old(multiset(inner)) + multiset{x}
      ensures forall y :: y in inner <==> y in old(inner) || y == x
      ensures old(Indexed()) && x !in old(inner) ==> Indexed()
      ensures Repr == old(Repr) + {x}
    {
      ghost var elems := Repr + {x};
      ghost var lt := Snapshot(elems);
      Repr := elems;
      x.index := |inner|;
      inner := inner + [x];
      Up(|inner| - 1, |inner|, elems, lt);
      WithOneMore(old(inner), inner, x);
    }

    /** The `pop` hook: drops the last slot and resets its back-pointer. */
    method Truncate(ghost elems: set<IndexedTask<P>>, ghost lt: (IndexedTask<P>, IndexedTask<P>) -> bool)
      returns (x: IndexedTask<P>)
      requires |inner| > 0 && elems == Repr && Keyed(elems, lt) && OrderedBut(inner, lt, 0, |inner| - 1, -1, -1)
      modifies this`inner, elems`index
      ensures Ordered()
      ensures x == old(inner)[|old(inner)| - 1] && x.index == -1
      ensures multiset(inner) == old(multiset(inner)) - multiset{x}
      ensures old(Indexed()) ==> Indexed() && x !in inner
    {
      x := inner[|inner| - 1];
      assert inner == inner[..|inner| - 1] + [x];
      inner := inner[..|inner| - 1];
      x.index := -1;
    }

    lemma OrderedIsHeap(elems: set<IndexedTask<P>>, lt: (IndexedTask<P>, IndexedTask<P>) -> bool)
      requires Ordered() && elems == Repr && Keyed(elems, lt)
      ensures HeapOrdered(inner, lt)
    {
    }

    method Pop() returns (x: IndexedTask<P>)
      requires Ordered() && |inner| > 0
      modifies this`inner, Repr`index
      ensures Ordered()
      ensures x == old(inner)[0] && x.index == -1
      ensures multiset(inner) == old(multiset(inner)) - multiset{x}
      ensures old(Indexed()) ==> Indexed()
    {
      ghost var elems := Repr;
      ghost var lt := Snapshot(elems);
      OrderedIsHeap(elems, lt);
      var n := |inner| - 1;
      Swap(0, n, elems, lt);
      var _ := Down(0, n, 0, elems, lt);
      x := Truncate(elems, lt);
    }

    /** Exchanges the element at `i` with the last one, and puts the others into order. */
    method MoveLast(i: nat, ghost elems: set<IndexedTask<P>>, ghost lt: (IndexedTask<P>, IndexedTask<P>) -> bool)
      requires i < |inner| - 1 && Keyed(elems, lt) && HeapOrdered(inner, lt)
      modifies this`inner, elems`index
      ensures |inner| == old(|inner|) && Keyed(elems, lt) && OrderedBut(inner, lt, 0, |inner| - 1, -1, -1)
      ensures inner[|inner| - 1] == old(inner)[i]
      ensures multiset(inner) == old(multiset(inner))
      ensures old(Indexed()) ==> Indexed()
    {
      var n := |inner| - 1;
      HoleAfterSwap(inner, elems, lt, i, n);
      Swap(i, n, elems, lt);
      Settle(i, n, elems, lt);
    }

    /** The first part of `Remove`: the doomed element is last, the others are in order. */
    method SendLast(i: nat, ghost elems: set<IndexedTask<P>>, ghost lt: (IndexedTask<P>, IndexedTask<P>) -> bool)
      requires i < |inner| && Keyed(elems, lt) && HeapOrdered(inner, lt)
      modifies this`inner, elems`index
      ensures |inner| == old(|inner|) && Keyed(elems, lt) && OrderedBut(inner, lt, 0, |inner| - 1, -1, -1)
      ensures inner[|inner| - 1] == old(inner)[i]
      ensures multiset(inner) == old(multiset(inner))
      ensures old(Indexed()) ==> Indexed()
    {
      if i != |inner| - 1 {
        MoveLast(i, elems, lt);
      }
    }

    method Remove(i: nat) returns (x: IndexedTask<P>)
      requires Ordered() && i < |inner|
      modifies this`inner, Repr`index
      ensures Ordered()
      ensures x == old(inner)[i] && x.index == -1
      ensures multiset(inner) == old(multiset(inner)) - multiset{x}
      ensures old(Indexed()) ==> Indexed() && forall y :: y in inner <==> y in old(inner) && y != x
    {
      ghost var elems := Repr;
      ghost var lt := Snapshot(elems);
      OrderedIsHeap(elems, lt);
      SendLast(i, elems, lt);
      x := Truncate(elems, lt);
      WithoutOne(old(inner), inner, x);
    }

    /** Re-establishes the order after the task at `i` was overwritten. */
    method Fix(i: nat, ghost before: SortKey)
      requires i < |inner| && OrderedBefore(i, before)
      modifies this`inner, Repr`index
      ensures Ordered()
      ensures multiset(inner) == old(multiset(inner))
      ensures forall y :: y in inner <==> y in old(inner)
      ensures old(Indexed()) ==> Indexed()
    {
      ghost var elems := Repr;
      ghost var lt := Snapshot(elems);
      Settle(i, |inner|, elems, lt);
      SameElements(old(inner), inner);
    }

    /** `Init` of `container/heap`. */
    method Init()
      requires Within(inner, Repr)
      modifies this`inner, Repr`index
      ensures Ordered() && multiset(inner) == old(multiset(inner))
    {
      ghost var elems := Repr;
      ghost var lt := Snapshot(elems);
      var n := |inner|;
      var i := n / 2;
      while i > 0
        invariant 0 <= i <= n == |inner| && Keyed(elems, lt)
        invariant OrderedBut(inner, lt, i, n, -1, -1)
        invariant multiset(inner) == old(multiset(inner))
      {
        i := i - 1;
        var _ := Down(i, n, i, elems, lt);
      }
    }

    /** `Filter`: drops the elements with a doomed payload from the slice, then `Init`. */
    method Filter(doomed: P -> bool)
      requires Ordered()
      modifies this`inner, Repr`index
      ensures Ordered()
      ensures multiset(inner) == multiset(Kept(old(inner), doomed))
    {
      var kept := [];
      for k := 0 to |inner|
        invariant kept == Kept(inner[..k], doomed)
      {
        assert inner[..k + 1][..k] == inner[..k];
        if !doomed(inner[k].payload) {
          kept := kept + [inner[k]];
        }
      }
      assert inner[..|inner|] == inner;
      KeptWithin(inner, doomed);
      inner := kept;
      Init();
    }

    /** A second heap over the same objects, whose back-pointers it will overwrite. */
    method Clone() returns (cloned: TaskHeap<P>)
      requires Ordered()
      ensures fresh(cloned) && cloned.inner == inner && cloned.Repr == Repr && cloned.Ordered()
    {
      cloned := new TaskHeap<P>();
      cloned.inner := inner;
      cloned.Repr := Repr;
    }
  }

  /** `slices.DeleteFunc`. */
  function Kept<P>(s: seq<IndexedTask<P>>, doomed: P -> bool): seq<IndexedTask<P>> {
    if s == [] then []
    else Kept(s[..|s| - 1], doomed) + if doomed(s[|s| - 1].payload) then [] else [s[|s| - 1]]
  }

  lemma {:induction false} KeptWithin<P>(s: seq<IndexedTask<P>>, doomed: P -> bool)
    ensures forall i :: 0 <= i < |Kept(s, doomed)| ==> Kept(s, doomed)[i] in s && !doomed(Kept(s, doomed)[i].payload)
  {
    if s != [] {
      KeptWithin(s[..|s| - 1], doomed);
      assert s == s[..|s| - 1] + [s[|s| - 1]];
    }
  }

  lemma {:induction false} KeptCounts<P>(s: seq<IndexedTask<P>>, doomed: P -> bool, x: IndexedTask<P>)
    ensures multiset(Kept(s, doomed))[x] == if doomed(x.payload) then 0 else multiset(s)[x]
  {
    if s != [] {
      KeptCounts(s[..|s| - 1], doomed, x);
      assert s == s[..|s| - 1] + [s[|s| - 1]];
    }
  }

  /** Which elements are kept does not depend on how they are arranged. */
  lemma KeptOfPermutation<P>(s: seq<IndexedTask<P>>, t: seq<IndexedTask<P>>, doomed: P -> bool)
    requires multiset(s) == multiset(t)
    ensures multiset(Kept(s, doomed)) == multiset(Kept(t, doomed))
  {
    var a, b := multiset(Kept(s, doomed)), multiset(Kept(t, doomed));
    forall x ensures a[x] == b[x] {
      KeptCounts(s, doomed, x);
      KeptCounts(t, doomed, x);
    }
    SameCounts(a, b);
  }

  lemma SameCounts<T>(a: multiset<T>, b: multiset<T>)
    requires forall x :: a[x] == b[x]
    ensures a == b
  {
  }
}
