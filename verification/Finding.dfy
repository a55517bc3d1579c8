/** What `Find` answers, said of the fields of the tasks. */
module Finding {
  import opened Wrappers
  import opened Def
  import opened Query
  import opened TaskList

  // ---------- selecting ----------

  /** `order` lists the positions of the wanted tasks from left to right, and `out` has the tasks there. */
  ghost predicate Picks(ts: seq<Task>, wanted: Task -> bool, order: seq<nat>, out: seq<Task>) {
    && |order| == |out|
    && (forall j, k :: 0 <= j < k < |order| ==> order[j] < order[k])
    && (forall k :: 0 <= k < |order| ==> order[k] < |ts| && out[k] == ts[order[k]] && wanted(out[k]))
    && (forall i :: 0 <= i < |ts| && wanted(ts[i]) ==> i in order)
  }

  /** `out` is exactly the wanted tasks, in insertion order. */
  ghost predicate Selects(ts: seq<Task>, wanted: Task -> bool, out: seq<Task>) {
    exists order :: Picks(ts, wanted, order, out)
  }

  lemma PicksSnoc(ts: seq<Task>, t: Task, wanted: Task -> bool, order: seq<nat>, out: seq<Task>)
    requires Picks(ts, wanted, order, out)
    ensures
      if wanted(t) then Picks(ts + [t], wanted, order + [|ts|], out + [t]) else Picks(ts + [t], wanted, order, out)
  {
    var ts' := ts + [t];
    var order' := if wanted(t) then order + [|ts|] else order;
    assert wanted(t) ==> order'[|order|] == |ts|;
    forall i | 0 <= i < |ts'| && wanted(ts'[i])
      ensures i in order'
    {
      if i < |ts| {
        assert wanted(ts[i]);
        var k :| 0 <= k < |order| && order[k] == i;
        assert order'[k] == i;
      }
    }
  }

  lemma {:induction false} MatchingPicks(ts: seq<Task>, matcher: Task -> bool) returns (order: seq<nat>)
    ensures Picks(ts, matcher, order, Matching(ts, matcher))
  {
    order := [];
    if ts != [] {
      var n := |ts| - 1;
      order := MatchingPicks(ts[..n], matcher);
      PicksSnoc(ts[..n], ts[n], matcher, order, Matching(ts[..n], matcher));
      assert ts == ts[..n] + [ts[n]];
      order := if matcher(ts[n]) then order + [n] else order;
    }
  }

  lemma SelectsSame(ts: seq<Task>, matcher: Task -> bool, wanted: Task -> bool)
    requires forall t :: matcher(t) <==> wanted(t)
    ensures Selects(ts, wanted, Matching(ts, matcher))
  {
    var order := MatchingPicks(ts, matcher);
    assert Picks(ts, wanted, order, Matching(ts, matcher));
  }

  // ---------- what a matcher demands ----------

  ghost predicate StartsWith(s: string, part: string) {
    exists rest :: s == part + rest
  }

  ghost predicate EndsWith(s: string, part: string) {
    exists front :: s == front + part
  }

  ghost predicate Contains(s: string, part: string) {
    exists front, rest :: s == front + part + rest
  }

  /** The map has the key, and its value is as the kind of the matcher says. */
  ghost predicate Demands(m: MapMatcher, s: StrMap) {
    && s.Entries? && m.key in s.m
    && match m.kind
       case HasKey => true
       case Exact => s.m[m.key] == m.value
       case Forward => StartsWith(s.m[m.key], m.value)
       case Backward => EndsWith(s.m[m.key], m.value)
       case Middle => Contains(s.m[m.key], m.value)
  }

  lemma ContainsIff(s: string, part: string)
    ensures Contains(s, part) <==> exists i :: 0 <= i <= |s| && OccursAt(s, part, i)
  {
    if Contains(s, part) {
      var front, rest :| s == front + part + rest;
      assert OccursAt(s, part, |front|);
    }
    if i: nat :| i <= |s| && OccursAt(s, part, i) {
      assert s == s[..i] + part + s[i + |part|..];
    }
  }

  lemma AffixIff(s: string, part: string)
    ensures StartsWith(s, part) <==> part <= s
    ensures EndsWith(s, part) <==> |part| <= |s| && s[|s| - |part|..] == part
  {
    if part <= s {
      assert s == part + s[|part|..];
    }
    if |part| <= |s| && s[|s| - |part|..] == part {
      assert s == s[..|s| - |part|] + part;
    }
  }

  /** The matcher as it is coded meets the demand. */
  lemma MatchIsDemand(m: MapMatcher, s: StrMap)
    ensures m.Match(s) <==> Demands(m, s)
  {
    if s.Entries? && m.key in s.m {
      match m.kind {
        case Middle => ContainsIff(s.m[m.key], m.value);
        case Forward => AffixIff(s.m[m.key], m.value);
        case Backward => AffixIff(s.m[m.key], m.value);
        case _ =>
      }
    }
  }

  /** The time is there, and in the relation to `at` that the kind of the matcher names. */
  predicate Relates(kind: TimeMatch, at: Time, t: Option<Time>) {
    && t.Some?
    && match kind
       case NonNull => true
       case Equal => t.value == at
       case Before => t.value < at
       case BeforeEqual => t.value <= at
       case After => t.value > at
       case AfterEqual => t.value >= at
  }

  /** The query asks for no time at all, or for one in a relation to the floor of its value. */
  predicate Asks(m: Option<TimeMatcher>, t: Option<Time>) {
    if m.None? then t.None? else Relates(m.value.kind, NormalizeTime(m.value.value), t)
  }

  // ---------- queries with one field ----------

  const ANY: TaskQueryParam :=
    TaskQueryParam(None, None, None, None, None, None, None, None, None, None, None, None, None)

  /** Queries that set one of the plain fields. */
  ghost predicate AnswersPlain(q: TaskQueryParam, ts: seq<Task>, out: seq<Task>) {
    && (q == ANY ==> out == ts)
    && (q.id.Some? && q == ANY.(id := q.id) ==> Selects(ts, (t: Task) => Some(t.id) == q.id, out))
    && (q.workId.Some? && q == ANY.(workId := q.workId) ==> Selects(ts, (t: Task) => Some(t.workId) == q.workId, out))
    && (q.priority.Some? && q == ANY.(priority := q.priority) ==>
          Selects(ts, (t: Task) => Some(t.priority) == q.priority, out))
    && (q.state.Some? && q == ANY.(state := q.state) ==> Selects(ts, (t: Task) => Some(t.state) == q.state, out))
    && (q.err.Some? && q == ANY.(err := q.err) ==> Selects(ts, (t: Task) => Some(t.err) == q.err, out))
  }

  ghost predicate AllDemand(ms: seq<MapMatcher>, s: StrMap) {
    forall i :: 0 <= i < |ms| ==> Demands(ms[i], s)
  }

  /** Queries that set one of the maps. */
  ghost predicate AnswersMaps(q: TaskQueryParam, ts: seq<Task>, out: seq<Task>) {
    && (q.param.Some? && q == ANY.(param := q.param) ==>
          Selects(ts, (t: Task) => AllDemand(q.param.value, t.param), out))
    && (q.meta.Some? && q == ANY.(meta := q.meta) ==>
          Selects(ts, (t: Task) => AllDemand(q.meta.value, t.meta), out))
  }

  /** Queries that set one of the times; the deadline is the one that is not floored. */
  ghost predicate AnswersTimes(q: TaskQueryParam, ts: seq<Task>, out: seq<Task>) {
    && (q.scheduledAt.Some? && q == ANY.(scheduledAt := q.scheduledAt) ==>
          Selects(ts, (t: Task) => Asks(q.scheduledAt, Some(t.scheduledAt)), out))
    && (q.createdAt.Some? && q == ANY.(createdAt := q.createdAt) ==>
          Selects(ts, (t: Task) => Asks(q.createdAt, Some(t.createdAt)), out))
    && (q.deadline == Some(None) && q == ANY.(deadline := q.deadline) ==> Selects(ts, (t: Task) => t.deadline.None?, out))
    && (q.deadline.Some? && q.deadline.value.Some? && q == ANY.(deadline := q.deadline) ==>
          Selects(ts, (t: Task) => Relates(q.deadline.value.value.kind, q.deadline.value.value.value, t.deadline), out))
    && (q.cancelledAt.Some? && q == ANY.(cancelledAt := q.cancelledAt) ==>
          Selects(ts, (t: Task) => Asks(q.cancelledAt.value, t.cancelledAt), out))
    && (q.dispatchedAt.Some? && q == ANY.(dispatchedAt := q.dispatchedAt) ==>
          Selects(ts, (t: Task) => Asks(q.dispatchedAt.value, t.dispatchedAt), out))
    && (q.doneAt.Some? && q == ANY.(doneAt := q.doneAt) ==>
          Selects(ts, (t: Task) => Asks(q.doneAt.value, t.doneAt), out))
  }

  ghost predicate Answers(q: TaskQueryParam, ts: seq<Task>, out: seq<Task>) {
    AnswersPlain(q, ts, out) && AnswersMaps(q, ts, out) && AnswersTimes(q, ts, out)
  }

  lemma {:induction false} MatchingAll(ts: seq<Task>, matcher: Task -> bool)
    requires forall t :: matcher(t)
    ensures Matching(ts, matcher) == ts
  {
    if ts != [] {
      MatchingAll(ts[..|ts| - 1], matcher);
    }
  }

  lemma PlainAnswers(q: TaskQueryParam, ts: seq<Task>)
    ensures AnswersPlain(q, ts, Matching(ts, Accepted(q)))
  {
    if q == ANY {
      MatchingAll(ts, Accepted(q));
    } else if q.id.Some? && q == ANY.(id := q.id) {
      SelectsSame(ts, Accepted(q), (t: Task) => Some(t.id) == q.id);
    } else if q.workId.Some? && q == ANY.(workId := q.workId) {
      SelectsSame(ts, Accepted(q), (t: Task) => Some(t.workId) == q.workId);
    } else if q.priority.Some? && q == ANY.(priority := q.priority) {
      SelectsSame(ts, Accepted(q), (t: Task) => Some(t.priority) == q.priority);
    } else if q.state.Some? && q == ANY.(state := q.state) {
      SelectsSame(ts, Accepted(q), (t: Task) => Some(t.state) == q.state);
    } else if q.err.Some? && q == ANY.(err := q.err) {
      SelectsSame(ts, Accepted(q), (t: Task) => Some(t.err) == q.err);
    }
  }

  lemma MapsMatch(ms: seq<MapMatcher>, s: StrMap)
    ensures MatchMap(s, Some(ms)) <==> AllDemand(ms, s)
  {
    forall i | 0 <= i < |ms|
      ensures ms[i].Match(s) <==> Demands(ms[i], s)
    {
      MatchIsDemand(ms[i], s);
    }
  }

  lemma MapsAnswer(q: TaskQueryParam, ts: seq<Task>)
    ensures AnswersMaps(q, ts, Matching(ts, Accepted(q)))
  {
    if q.param.Some? && q == ANY.(param := q.param) {
      forall t ensures Accepted(q)(t) <==> AllDemand(q.param.value, t.param) {
        MapsMatch(q.param.value, t.param);
      }
      SelectsSame(ts, Accepted(q), (t: Task) => AllDemand(q.param.value, t.param));
    } else if q.meta.Some? && q == ANY.(meta := q.meta) {
      forall t ensures Accepted(q)(t) <==> AllDemand(q.meta.value, t.meta) {
        MapsMatch(q.meta.value, t.meta);
      }
      SelectsSame(ts, Accepted(q), (t: Task) => AllDemand(q.meta.value, t.meta));
    }
  }

  lemma TimesAnswer(q: TaskQueryParam, ts: seq<Task>)
    ensures AnswersTimes(q, ts, Matching(ts, Accepted(q)))
  {
    if q.scheduledAt.Some? && q == ANY.(scheduledAt := q.scheduledAt) {
      SelectsSame(ts, Accepted(q), (t: Task) => Asks(q.scheduledAt, Some(t.scheduledAt)));
    } else if q.createdAt.Some? && q == ANY.(createdAt := q.createdAt) {
      SelectsSame(ts, Accepted(q), (t: Task) => Asks(q.createdAt, Some(t.createdAt)));
    } else if q.deadline == Some(None) && q == ANY.(deadline := q.deadline) {
      SelectsSame(ts, Accepted(q), (t: Task) => t.deadline.None?);
    } else if q.deadline.Some? && q.deadline.value.Some? && q == ANY.(deadline := q.deadline) {
      SelectsSame(ts, Accepted(q), (t: Task) => Relates(q.deadline.value.value.kind, q.deadline.value.value.value, t.deadline));
    } else if q.cancelledAt.Some? && q == ANY.(cancelledAt := q.cancelledAt) {
      SelectsSame(ts, Accepted(q), (t: Task) => Asks(q.cancelledAt.value, t.cancelledAt));
    } else if q.dispatchedAt.Some? && q == ANY.(dispatchedAt := q.dispatchedAt) {
      SelectsSame(ts, Accepted(q), (t: Task) => Asks(q.dispatchedAt.value, t.dispatchedAt));
    } else if q.doneAt.Some? && q == ANY.(doneAt := q.doneAt) {
      SelectsSame(ts, Accepted(q), (t: Task) => Asks(q.doneAt.value, t.doneAt));
    }
  }

  // ---------- queries with several fields ----------

  /** No field is set in both. */
  predicate Apart(q: TaskQueryParam, r: TaskQueryParam) {
    && (q.id.None? || r.id.None?) && (q.workId.None? || r.workId.None?) && (q.priority.None? || r.priority.None?)
    && (q.state.None? || r.state.None?) && (q.err.None? || r.err.None?)
    && (q.param.None? || r.param.None?) && (q.meta.None? || r.meta.None?)
    && (q.scheduledAt.None? || r.scheduledAt.None?) && (q.createdAt.None? || r.createdAt.None?)
    && (q.deadline.None? || r.deadline.None?) && (q.cancelledAt.None? || r.cancelledAt.None?)
    && (q.dispatchedAt.None? || r.dispatchedAt.None?) && (q.doneAt.None? || r.doneAt.None?)
  }

  function Both(q: TaskQueryParam, r: TaskQueryParam): TaskQueryParam {
    TaskQueryParam(
      Or(q.id, r.id), Or(q.workId, r.workId), Or(q.priority, r.priority), Or(q.state, r.state), Or(q.err, r.err),
      Or(q.param, r.param), Or(q.meta, r.meta), Or(q.scheduledAt, r.scheduledAt), Or(q.createdAt, r.createdAt),
      Or(q.deadline, r.deadline), Or(q.cancelledAt, r.cancelledAt), Or(q.dispatchedAt, r.dispatchedAt),
      Or(q.doneAt, r.doneAt))
  }

  lemma ValueOfBoth<T>(v: T, a: Option<T>, b: Option<T>)
    requires a.None? || b.None?
    ensures MatchValue(v, Or(a, b)) <==> MatchValue(v, a) && MatchValue(v, b)
  {
  }

  lemma MapOfBoth(s: StrMap, a: Option<seq<MapMatcher>>, b: Option<seq<MapMatcher>>)
    requires a.None? || b.None?
    ensures MatchMap(s, Or(a, b)) <==> MatchMap(s, a) && MatchMap(s, b)
  {
  }

  lemma TimeOfBoth(t: Time, a: Option<TimeMatcher>, b: Option<TimeMatcher>)
    requires a.None? || b.None?
    ensures MatchTime(t, Or(a, b)) <==> MatchTime(t, a) && MatchTime(t, b)
  {
  }

  lemma OptTimeOfBoth(t: Option<Time>, a: Option<Option<TimeMatcher>>, b: Option<Option<TimeMatcher>>)
    requires a.None? || b.None?
    ensures MatchOptTime(t, Or(a, b)) <==> MatchOptTime(t, a) && MatchOptTime(t, b)
  {
  }

  lemma PlainOfBoth(q: TaskQueryParam, r: TaskQueryParam, t: Task)
    requires Apart(q, r)
    ensures Both(q, r).MatchPlain(t) <==> q.MatchPlain(t) && r.MatchPlain(t)
  {
    ValueOfBoth(t.id, q.id, r.id);
    ValueOfBoth(t.workId, q.workId, r.workId);
    ValueOfBoth(t.priority, q.priority, r.priority);
    ValueOfBoth(t.state, q.state, r.state);
    ValueOfBoth(t.err, q.err, r.err);
  }

  lemma MapsOfBoth(q: TaskQueryParam, r: TaskQueryParam, t: Task)
    requires Apart(q, r)
    ensures Both(q, r).MatchMaps(t) <==> q.MatchMaps(t) && r.MatchMaps(t)
  {
    MapOfBoth(t.param, q.param, r.param);
    MapOfBoth(t.meta, q.meta, r.meta);
  }

  lemma TimesOfBoth(q: TaskQueryParam, r: TaskQueryParam, t: Task)
    requires Apart(q, r)
    ensures Both(q, r).MatchTimes(t) <==> q.MatchTimes(t) && r.MatchTimes(t)
  {
    assert MatchTime(t.scheduledAt, Both(q, r).scheduledAt) <==> MatchTime(t.scheduledAt, q.scheduledAt) && MatchTime(t.scheduledAt, r.scheduledAt) by {
      TimeOfBoth(t.scheduledAt, q.scheduledAt, r.scheduledAt);
    }
    assert MatchTime(t.createdAt, Both(q, r).createdAt) <==> MatchTime(t.createdAt, q.createdAt) && MatchTime(t.createdAt, r.createdAt) by {
      TimeOfBoth(t.createdAt, q.createdAt, r.createdAt);
    }
    assert MatchOptTime(t.deadline, Both(q, r).deadline) <==> MatchOptTime(t.deadline, q.deadline) && MatchOptTime(t.deadline, r.deadline) by {
      OptTimeOfBoth(t.deadline, q.deadline, r.deadline);
    }
  }

  lemma StampsOfBoth(q: TaskQueryParam, r: TaskQueryParam, t: Task)
    requires Apart(q, r)
    ensures Both(q, r).MatchStamps(t) <==> q.MatchStamps(t) && r.MatchStamps(t)
  {
    assert MatchOptTime(t.cancelledAt, Both(q, r).cancelledAt) <==> MatchOptTime(t.cancelledAt, q.cancelledAt) && MatchOptTime(t.cancelledAt, r.cancelledAt) by {
      OptTimeOfBoth(t.cancelledAt, q.cancelledAt, r.cancelledAt);
    }
    assert MatchOptTime(t.dispatchedAt, Both(q, r).dispatchedAt) <==> MatchOptTime(t.dispatchedAt, q.dispatchedAt) && MatchOptTime(t.dispatchedAt, r.dispatchedAt) by {
      OptTimeOfBoth(t.dispatchedAt, q.dispatchedAt, r.dispatchedAt);
    }
    assert MatchOptTime(t.doneAt, Both(q, r).doneAt) <==> MatchOptTime(t.doneAt, q.doneAt) && MatchOptTime(t.doneAt, r.doneAt) by {
      OptTimeOfBoth(t.doneAt, q.doneAt, r.doneAt);
    }
  }

  lemma NormalizeBoth(q: TaskQueryParam, r: TaskQueryParam)
    requires Apart(q, r)
    ensures Both(q, r).Normalize() == Both(q.Normalize(), r.Normalize()) && Apart(q.Normalize(), r.Normalize())
  {
  }

  /** A query that sets several fields wants what each of them wants. */
  lemma FieldsConjoin(q: TaskQueryParam, r: TaskQueryParam, t: Task)
    requires Apart(q, r)
    ensures Accepted(Both(q, r))(t) <==> Accepted(q)(t) && Accepted(r)(t)
  {
    NormalizeBoth(q, r);
    PlainOfBoth(q.Normalize(), r.Normalize(), t);
    MapsOfBoth(q.Normalize(), r.Normalize(), t);
    TimesOfBoth(q.Normalize(), r.Normalize(), t);
    StampsOfBoth(q.Normalize(), r.Normalize(), t);
  }

  // ---------- the window ----------

  /** `out` is the stretch of `all` from `offset`, at most `limit` long; a negative offset is never used up. */
  ghost predicate Window(all: seq<Task>, offset: int, limit: int, out: seq<Task>) {
    && (offset < 0 || offset > |all| ==> out == [])
    && (0 <= offset <= |all| ==>
          && |out| <= |all| - offset && (limit >= 0 ==> |out| <= limit)
          && (|out| == |all| - offset || |out| == limit)
          && forall k :: 0 <= k < |out| ==> out[k] == all[offset + k])
  }

  lemma PageIsWindow(all: seq<Task>, offset: int, limit: int)
    ensures Window(all, offset, limit, Page(all, offset, limit))
    ensures offset == 0 && limit < 0 ==> Page(all, offset, limit) == all
  {
  }

  /** What `Find` is for: exactly the tasks that the query wants, in insertion order, and of these the window. */
  ghost predicate Finds(q: TaskQueryParam, ts: seq<Task>, offset: int, limit: int, out: seq<Task>) {
    && (exists all :: Selects(ts, Accepted(q), all) && Answers(q, ts, all) && Window(all, offset, limit, out))
    && (offset == 0 && limit < 0 ==> Answers(q, ts, out))
  }

  lemma FindFinds(q: TaskQueryParam, ts: seq<Task>, offset: int, limit: int)
    ensures Finds(q, ts, offset, limit, Find(ts, Accepted(q), offset, limit))
  {
    var all := Matching(ts, Accepted(q));
    assert Selects(ts, Accepted(q), all) by {
      SelectsSame(ts, Accepted(q), Accepted(q));
    }
    assert Answers(q, ts, all) by {
      PlainAnswers(q, ts);
      MapsAnswer(q, ts);
      TimesAnswer(q, ts);
    }
    PageIsWindow(all, offset, limit);
  }
}
