/** `TaskQueryParam`: what `Find` matches tasks against. */
module Query {
  import opened Wrappers
  import opened Def

  // ---------- matchers ----------

  datatype MapMatch = HasKey | Exact | Forward | Backward | Middle

  /** An unknown match type is an exact one. */
  datatype MapMatcher = MapMatcher(key: string, value: string, kind: MapMatch)
  {
    predicate Match(m: StrMap) {
      if m.Nil? || key !in m.m then false
      else
        var v := m.m[key];
        match kind
        case HasKey => true
        case Exact => v == value
        case Forward => value <= v
        case Backward => |value| <= |v| && v[|v| - |value|..] == value
        case Middle => exists i :: 0 <= i <= |v| && OccursAt(v, value, i)
    }
  }

  predicate OccursAt(v: string, part: string, i: nat) {
    i + |part| <= |v| && v[i..i + |part|] == part
  }

  datatype TimeMatch = NonNull | Equal | Before | BeforeEqual | After | AfterEqual

  /** An unknown match type is an equality. */
  datatype TimeMatcher = TimeMatcher(kind: TimeMatch, value: Time)
  {
    predicate Match(t: Option<Time>) {
      match kind
      case NonNull => t.Some?
      case Equal => t == Some(value)
      case Before => t.Some? && t.value < value
      case BeforeEqual => t.Some? && t.value <= value
      case After => t.Some? && value < t.value
      case AfterEqual => t.Some? && value <= t.value
    }

    function Normalize(): TimeMatcher {
      this.(value := NormalizeTime(value))
    }
  }

  datatype TaskQueryParam = TaskQueryParam(
    id: Option<string>,
    workId: Option<string>,
    priority: Option<int>,
    state: Option<State>,
    err: Option<string>,
    param: Option<seq<MapMatcher>>,
    meta: Option<seq<MapMatcher>>,
    scheduledAt: Option<TimeMatcher>,
    createdAt: Option<TimeMatcher>,
    deadline: Option<Option<TimeMatcher>>,
    cancelledAt: Option<Option<TimeMatcher>>,
    dispatchedAt: Option<Option<TimeMatcher>>,
    doneAt: Option<Option<TimeMatcher>>)
  {
    predicate Match(t: Task) {
      MatchPlain(t) && MatchMaps(t) && MatchTimes(t) && MatchStamps(t)
    }

    predicate MatchPlain(t: Task) {
      && MatchValue(t.id, id)
      && MatchValue(t.workId, workId)
      && MatchValue(t.priority, priority)
      && MatchValue(t.state, state)
      && MatchValue(t.err, err)
    }

    predicate MatchMaps(t: Task) {
      MatchMap(t.param, param) && MatchMap(t.meta, meta)
    }

    predicate MatchTimes(t: Task) {
      && MatchTime(t.scheduledAt, scheduledAt)
      && MatchTime(t.createdAt, createdAt)
      && MatchOptTime(t.deadline, deadline)
    }

    predicate MatchStamps(t: Task) {
      && MatchOptTime(t.cancelledAt, cancelledAt)
      && MatchOptTime(t.dispatchedAt, dispatchedAt)
      && MatchOptTime(t.doneAt, doneAt)
    }

    /** Every time matcher but the deadline's is rounded as the stored times are. */
    function Normalize(): TaskQueryParam {
      this.(
        scheduledAt := NormalizeMatcher(scheduledAt),
        createdAt := NormalizeMatcher(createdAt),
        cancelledAt := NormalizeOptMatcher(cancelledAt),
        dispatchedAt := NormalizeOptMatcher(dispatchedAt),
        doneAt := NormalizeOptMatcher(doneAt))
    }
  }

  /** What `Find` looks for: the normalized query. */
  function Accepted(q: TaskQueryParam): Task -> bool {
    t => q.Normalize().Match(t)
  }

  predicate MatchValue<T(==)>(v: T, m: Option<T>) {
    m.Some? ==> v == m.value
  }

  predicate MatchMap(v: StrMap, m: Option<seq<MapMatcher>>) {
    m.Some? ==> forall i :: 0 <= i < |m.value| ==> m.value[i].Match(v)
  }

  predicate MatchTime(v: Time, m: Option<TimeMatcher>) {
    m.Some? ==> m.value.Match(Some(v))
  }

  predicate MatchOptTime(v: Option<Time>, m: Option<Option<TimeMatcher>>) {
    m.Some? ==> if m.value.None? then v.None? else m.value.value.Match(v)
  }

  function NormalizeMatcher(m: Option<TimeMatcher>): Option<TimeMatcher> {
    match m
    case None => None
    case Some(t) => Some(t.Normalize())
  }

  function NormalizeOptMatcher(m: Option<Option<TimeMatcher>>): Option<Option<TimeMatcher>> {
    match m
    case None => None
    case Some(t) => Some(NormalizeMatcher(t))
  }

  // ---------- what normalizing is worth ----------

  /** Where rounding a matcher changes its answer about a stored, hence aligned, time. */
  lemma RoundingChangesIff(m: TimeMatcher, t: Time)
    requires Aligned(t)
    ensures m.Match(Some(t)) != m.Normalize().Match(Some(t)) <==>
            (m.kind.Equal? || m.kind.Before? || m.kind.AfterEqual?) && !Aligned(m.value) && NormalizeTime(m.value) == t
  {
    var r := NormalizeTime(m.value);
    assert r < t ==> r + MILLISECOND <= t;
  }

  function Equals(t: Time): TimeMatcher {
    TimeMatcher(Equal, t)
  }

  /** The query for exactly what was passed to `AddTask`, times as the caller gave them. */
  function AsGiven(p: TaskUpdateParam, id: string, now: Time): TaskQueryParam {
    TaskQueryParam(
      Some(id), p.workId, p.priority, Some(Scheduled), Some(""), None, None,
      match p.scheduledAt case None => None case Some(t) => Some(Equals(t)),
      Some(Equals(now)),
      match p.deadline case None => Some(None) case Some(d) => (match d case None => Some(None) case Some(t) => Some(Some(Equals(t)))),
      Some(None), Some(None), Some(None))
  }

  /**
   A new task is found by the very values it was added with, unless it has a deadline that is not a
   whole millisecond: the deadline is stored rounded, but not looked for rounded.
   */
  lemma FoundAsGivenIff(p: TaskUpdateParam, id: string, now: Time)
    ensures AsGiven(p, id, now).Normalize().Match(p.Normalize().ToTask(id, now)) <==>
            !(p.deadline.Some? && p.deadline.value.Some? && !Aligned(p.deadline.value.value))
  {
    var t := p.Normalize().ToTask(id, now);
    forall x: Time ensures NormalizeTime(NormalizeTime(x)) == NormalizeTime(x) {
    }
  }
}
