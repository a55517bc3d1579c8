/**
 The reference repository: every task ever added, in insertion order, and no heap.

 `GetNext` scans for the first scheduled task that no other scheduled task precedes. The methods
 of `InMemoryRepository` are proved to compute exactly these functions.
 */
module TaskList {
  import opened Wrappers
  import opened Def

  // ---------- lookup ----------

  /** The first position holding `id`, or `|ts|`. */
  function IndexOf(ts: seq<Task>, id: string): (i: nat)
    ensures i <= |ts|
    ensures i < |ts| ==> ts[i].id == id
    ensures forall j :: 0 <= j < i ==> ts[j].id != id
  {
    if ts == [] then 0
    else if ts[0].id == id then 0
    else 1 + IndexOf(ts[1..], id)
  }

  predicate Has(ts: seq<Task>, id: string) {
    IndexOf(ts, id) < |ts|
  }

  ghost predicate DistinctIds(ts: seq<Task>) {
    forall i, j :: 0 <= i < j < |ts| ==> ts[i].id != ts[j].id
  }

  lemma IndexOfUnique(ts: seq<Task>, i: nat)
    requires DistinctIds(ts) && i < |ts|
    ensures IndexOf(ts, ts[i].id) == i
  {
  }

  // ---------- the next task ----------

  /** The user-visible order: time ascending, priority descending, creation ascending. */
  predicate Precedes(a: Task, b: Task) {
    if a.scheduledAt != b.scheduledAt then a.scheduledAt < b.scheduledAt
    else if a.priority != b.priority then a.priority > b.priority
    else a.createdAt < b.createdAt
  }

  /** Position `r` holds a scheduled task that comes first; ties go to the earlier insertion. */
  ghost predicate IsNext(ts: seq<Task>, r: nat) {
    && r < |ts| && ts[r].state == Scheduled
    && forall i :: 0 <= i < |ts| && ts[i].state == Scheduled ==>
         if i < r then Precedes(ts[r], ts[i]) else !Precedes(ts[i], ts[r])
  }

  ghost predicate NothingScheduled(ts: seq<Task>) {
    forall i :: 0 <= i < |ts| ==> ts[i].state != Scheduled
  }

  /** Scans from the left, keeping the first minimum. */
  function NextIndex(ts: seq<Task>): (r: Option<nat>)
    ensures r.Some? ==> IsNext(ts, r.value)
    ensures r.None? ==> NothingScheduled(ts)
  {
    if ts == [] then None
    else
      var n := |ts| - 1;
      var best := NextIndex(ts[..n]);
      assert forall i :: 0 <= i < n ==> ts[..n][i] == ts[i];
      if ts[n].state == Scheduled && (best.None? || Precedes(ts[n], ts[best.value])) then Some(n) else best
  }

  lemma NextIsUnique(ts: seq<Task>, r: nat)
    requires IsNext(ts, r)
    ensures NextIndex(ts) == Some(r)
  {
    var n := NextIndex(ts);
    assert ts[r].state == Scheduled;
    if n.None? {
      assert false;
    } else {
      assert ts[n.value].state == Scheduled;
    }
  }

  function GetNext(ts: seq<Task>): Result<Task, Error> {
    match NextIndex(ts)
    case None => Err(RepositoryError("", Exhausted))
    case Some(i) => Ok(ts[i])
  }

  // ---------- operations ----------

  function AddTask(ts: seq<Task>, ctxErr: Option<Error>, param: TaskUpdateParam, id: string, now: Time)
    : (seq<Task>, Result<Task, Error>)
  {
    var t := param.Normalize().ToTask(id, now);
    if ctxErr.Some? then (ts, Err(ctxErr.value))
    else if !t.IsValid() then (ts, Err(InvalidTask))
    else (ts + [t], Ok(t))
  }

  function GetById(ts: seq<Task>, ctxErr: Option<Error>, id: string): Result<Task, Error> {
    var i := IndexOf(ts, id);
    if ctxErr.Some? then Err(ctxErr.value)
    else if i == |ts| then Err(RepositoryError(id, IdNotFound))
    else Ok(ts[i])
  }

  /** What `UpdateById`, `Cancel` and `MarkAsDispatched` share: only a scheduled task may change. */
  function ChangeScheduled(ts: seq<Task>, ctxErr: Option<Error>, id: string, change: Task -> Task)
    : (seq<Task>, Option<Error>)
  {
    var i := IndexOf(ts, id);
    if ctxErr.Some? then (ts, ctxErr)
    else if i == |ts| then (ts, Some(RepositoryError(id, IdNotFound)))
    else if ts[i].state != Scheduled then (ts, ErrKindScheduledOnly(ts[i]))
    else (ts[i := change(ts[i])], None)
  }

  function AsCancelled(t: Task, now: Time): Task {
    t.(state := Cancelled, cancelledAt := Some(NormalizeTime(now)))
  }

  function AsDispatched(t: Task, now: Time): Task {
    t.(state := Dispatched, dispatchedAt := Some(NormalizeTime(now)))
  }

  function AsDone(t: Task, workErr: Option<string>, now: Time): Task {
    (if workErr.None? then t.(state := Done) else t.(state := Failed, err := workErr.value))
    .(doneAt := Some(NormalizeTime(now)))
  }

  function UpdateById(ts: seq<Task>, ctxErr: Option<Error>, id: string, param: TaskUpdateParam)
    : (seq<Task>, Option<Error>)
  {
    ChangeScheduled(ts, ctxErr, id, (t: Task) => t.Update(param.Normalize()))
  }

  function Cancel(ts: seq<Task>, ctxErr: Option<Error>, id: string, now: Time): (seq<Task>, Option<Error>) {
    ChangeScheduled(ts, ctxErr, id, (t: Task) => AsCancelled(t, now))
  }

  function MarkAsDispatched(ts: seq<Task>, ctxErr: Option<Error>, id: string, now: Time): (seq<Task>, Option<Error>) {
    ChangeScheduled(ts, ctxErr, id, (t: Task) => AsDispatched(t, now))
  }

  function MarkAsDone(ts: seq<Task>, ctxErr: Option<Error>, id: string, workErr: Option<string>, now: Time)
    : (seq<Task>, Option<Error>)
  {
    var i := IndexOf(ts, id);
    if ctxErr.Some? then (ts, ctxErr)
    else if i == |ts| then (ts, Some(RepositoryError(id, IdNotFound)))
    else if ts[i].state != Dispatched then (ts, ErrKindMarkAsDone(ts[i]))
    else (ts[i := AsDone(ts[i], workErr, now)], None)
  }

  // ---------- find ----------

  function Matching(ts: seq<Task>, matcher: Task -> bool): (r: seq<Task>) {
    if ts == [] then []
    else Matching(ts[..|ts| - 1], matcher) + (if matcher(ts[|ts| - 1]) then [ts[|ts| - 1]] else [])
  }

  /** A window on the matches. A negative offset is never used up; a negative limit is no limit. */
  function Page(found: seq<Task>, offset: int, limit: int): seq<Task> {
    if offset < 0 || offset > |found| then []
    else if limit < 0 || limit > |found| - offset then found[offset..]
    else found[offset..offset + limit]
  }

  function Find(ts: seq<Task>, matcher: Task -> bool, offset: int, limit: int): seq<Task> {
    Page(Matching(ts, matcher), offset, limit)
  }

  /** How much of the offset is still to be skipped after `n` matches; never 0 if the offset is negative. */
  function ToSkip(n: nat, offset: int): int {
    if 0 <= offset <= n then 0 else offset - n
  }

  /** One more match is skipped, cut off by the limit, or appended. */
  lemma PageSnoc(found: seq<Task>, t: Task, offset: int, limit: int)
    ensures ToSkip(|found|, offset) != 0 ==> Page(found + [t], offset, limit) == Page(found, offset, limit) == []
    ensures ToSkip(|found|, offset) == 0 && |Page(found, offset, limit)| == limit ==>
      Page(found + [t], offset, limit) == Page(found, offset, limit)
    ensures ToSkip(|found|, offset) == 0 && |Page(found, offset, limit)| != limit ==>
      Page(found + [t], offset, limit) == Page(found, offset, limit) + [t]
  {
  }

  /** A page that is full stays as it is. */
  lemma PageFull(found: seq<Task>, all: seq<Task>, offset: int, limit: int)
    requires found <= all && ToSkip(|found|, offset) == 0 && |Page(found, offset, limit)| == limit
    ensures Page(all, offset, limit) == Page(found, offset, limit)
  {
  }

  lemma MatchingSnoc(ts: seq<Task>, matcher: Task -> bool, k: nat)
    requires k < |ts|
    ensures Matching(ts[..k + 1], matcher) == Matching(ts[..k], matcher) + if matcher(ts[k]) then [ts[k]] else []
  {
    assert ts[..k + 1][..k] == ts[..k];
  }

  /** After `k` tasks `out` is the page so far, and `skip` and `left` are what is left of offset and limit. */
  ghost predicate Paged(ts: seq<Task>, matcher: Task -> bool, k: nat, offset: int, limit: int,
                        out: seq<Task>, skip: int, left: int)
    requires k <= |ts|
  {
    && out == Page(Matching(ts[..k], matcher), offset, limit)
    && skip == ToSkip(|Matching(ts[..k], matcher)|, offset)
    && left == if limit < 0 then limit else limit - |out|
  }

  /** What one round of the loop in `InMemoryRepository.Find` may conclude about the page. */
  lemma FindRound(ts: seq<Task>, matcher: Task -> bool, k: nat, offset: int, limit: int,
                  out: seq<Task>, skip: int, left: int)
    requires k < |ts| && Paged(ts, matcher, k, offset, limit, out, skip, left)
    ensures
      if !matcher(ts[k]) then Paged(ts, matcher, k + 1, offset, limit, out, skip, left)
      else if skip != 0 then Paged(ts, matcher, k + 1, offset, limit, out, skip - 1, left)
      else if left == 0 then Find(ts, matcher, offset, limit) == out
      else Paged(ts, matcher, k + 1, offset, limit, out + [ts[k]], skip, if left > 0 then left - 1 else left)
  {
    MatchingSnoc(ts, matcher, k);
    MatchingPrefix(ts, matcher, k);
    var found := Matching(ts[..k], matcher);
    PageSnoc(found, ts[k], offset, limit);
    if ToSkip(|found|, offset) == 0 && |Page(found, offset, limit)| == limit {
      PageFull(found, Matching(ts, matcher), offset, limit);
    }
  }

  lemma {:induction false} MatchingPrefix(ts: seq<Task>, matcher: Task -> bool, k: nat)
    requires k <= |ts|
    ensures Matching(ts[..k], matcher) <= Matching(ts, matcher)
    decreases |ts| - k
  {
    if k == |ts| {
      assert ts[..k] == ts;
    } else {
      MatchingPrefix(ts, matcher, k + 1);
      assert ts[..k + 1][..k] == ts[..k];
    }
  }

  // ---------- save and load ----------

  datatype KeyValue = KeyValue(key: string, value: Task)

  function Save(ts: seq<Task>): (kv: seq<KeyValue>)
    ensures |kv| == |ts|
    ensures forall i :: 0 <= i < |ts| ==> kv[i] == KeyValue(ts[i].id, ts[i])
  {
    if ts == [] then []
    else Save(ts[..|ts| - 1]) + [KeyValue(ts[|ts| - 1].id, ts[|ts| - 1])]
  }

  predicate AllValid(kv: seq<KeyValue>) {
    forall i :: 0 <= i < |kv| ==> kv[i].value.IsValid()
  }

  function Values(kv: seq<KeyValue>): (ts: seq<Task>)
    ensures |ts| == |kv|
    ensures forall i :: 0 <= i < |kv| ==> ts[i] == kv[i].value
  {
    seq(|kv|, i requires 0 <= i < |kv| => kv[i].value)
  }

  lemma ValuesSnoc(kv: seq<KeyValue>, k: nat)
    requires k < |kv|
    ensures Values(kv[..k + 1]) == Values(kv[..k]) + [kv[k].value]
  {
  }

  /** Every key names its task and no key occurs twice, as in what `Save` writes. */
  ghost predicate Consistent(kv: seq<KeyValue>) {
    && (forall i :: 0 <= i < |kv| ==> kv[i].key == kv[i].value.id)
    && DistinctIds(Values(kv))
  }

  function Load(ts: seq<Task>, kv: seq<KeyValue>): (seq<Task>, Option<Error>) {
    if AllValid(kv) then (Values(kv), None) else (ts, Some(InvalidTask))
  }

  // ---------- loading keys that repeat or do not name their task ----------

  /** The last position with this key, which is the one a map built from the pairs ends up with, or -1. */
  function LastWith(kv: seq<KeyValue>, key: string): (r: int)
    ensures -1 <= r < |kv|
    ensures r >= 0 ==> kv[r].key == key
    ensures forall j :: r < j < |kv| ==> kv[j].key != key
  {
    if kv == [] then -1
    else if kv[|kv| - 1].key == key then |kv| - 1
    else LastWith(kv[..|kv| - 1], key)
  }

  /** No scheduled task has a later pair with the same key. */
  ghost predicate NoScheduledOverwritten(kv: seq<KeyValue>) {
    forall i, j :: 0 <= i < j < |kv| && kv[i].value.state == Scheduled ==> kv[i].key != kv[j].key
  }

  ghost predicate ScheduledKeysName(kv: seq<KeyValue>) {
    forall i :: 0 <= i < |kv| && kv[i].value.state == Scheduled ==> kv[i].key == kv[i].value.id
  }
}
