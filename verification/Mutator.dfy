/** Parameter mutators: `ScheduleAtNow` and `RandomizeScheduledAt`. */
module Mutator {
  import opened Wrappers
  import opened Def

  datatype Mutator = ScheduleAtNow | RandomizeScheduledAt(min: int, max: int)

  const LABEL_NOW := "ngicks.ScheduleAtNow"
  const LABEL_MIN := "ngicks.RandomizeScheduledAt.min"
  const LABEL_MAX := "ngicks.RandomizeScheduledAt.max"

  function Distance(m: Mutator): nat
    requires m.RandomizeScheduledAt?
  {
    if m.max < m.min then m.min - m.max else m.max - m.min
  }

  /** `rand.Int` panics on an empty range, so `Min` and `Max` must differ. */
  predicate CanMutate(m: Mutator) {
    m.RandomizeScheduledAt? ==> m.min != m.max
  }

  /** One mutation at clock time `now`; `drawn` is the random number that is reduced to `[0, |Max - Min|)`. */
  function Mutate(m: Mutator, p: TaskUpdateParam, now: Time, drawn: nat): TaskUpdateParam
    requires CanMutate(m)
  {
    match m
    case ScheduleAtNow => p.(scheduledAt := Some(now)).Normalize()
    case RandomizeScheduledAt(min, max) =>
      var pick := drawn % Distance(m);
      var offset := min + if max < min then -(pick as int) else pick as int;
      p.Update(NO_PARAM.(scheduledAt := Some(p.scheduledAt.GetOr(0) + offset)))
  }

  /** `[Min, Max)`, or `(Max, Min]` when the bounds are reversed. */
  predicate InRange(offset: int, min: int, max: int) {
    if max < min then max < offset <= min else min <= offset < max
  }

  /** A random mutation moves the time by an offset in the range and touches nothing else. */
  lemma MutateOffset(m: Mutator, p: TaskUpdateParam, now: Time, drawn: nat) returns (offset: int)
    requires m.RandomizeScheduledAt? && CanMutate(m)
    ensures InRange(offset, m.min, m.max)
    ensures Mutate(m, p, now, drawn) == p.(scheduledAt := Some(p.scheduledAt.GetOr(0) + offset))
  {
    var pick := drawn % Distance(m);
    assert 0 <= pick < Distance(m);
    offset := m.min + if m.max < m.min then -(pick as int) else pick as int;
  }

  /** `ScheduleAtNow` puts the floor of the clock's reading in place of the time; normalizing floors the deadline, too. */
  lemma MutateNow(p: TaskUpdateParam, now: Time, drawn: nat)
    ensures
      var q := Mutate(ScheduleAtNow, p, now, drawn);
      && q.scheduledAt == Some(NormalizeTime(now)) && q == p.(scheduledAt := q.scheduledAt, deadline := q.deadline)
      && (p.deadline.None? ==> q.deadline.None?)
      && (p.deadline.Some? && p.deadline.value.None? ==> q.deadline == Some(None))
      && (p.deadline.Some? && p.deadline.value.Some? ==> q.deadline == Some(Some(NormalizeTime(p.deadline.value.value))))
  {
  }

  predicate CanApply(ms: seq<Mutator>) {
    forall i :: 0 <= i < |ms| ==> CanMutate(ms[i])
  }

  /** `Mutators.Apply`; the `i`-th mutator draws the number `draw(i)`. */
  function Apply(ms: seq<Mutator>, p: TaskUpdateParam, now: Time, draw: nat -> nat): TaskUpdateParam
    requires CanApply(ms)
  {
    if ms == [] then p
    else Mutate(ms[|ms| - 1], Apply(ms[..|ms| - 1], p, now, draw), now, draw(|ms| - 1))
  }

  /** Mutators change times only; and without `ScheduleAtNow`, which normalizes, only the scheduled one. */
  lemma {:induction false} ApplyChangesTimes(ms: seq<Mutator>, p: TaskUpdateParam, now: Time, draw: nat -> nat)
    requires CanApply(ms)
    ensures
      var q := Apply(ms, p, now, draw);
      && q.workId == p.workId && q.priority == p.priority && q.param == p.param && q.meta == p.meta
      && (q.deadline == p.deadline || q.deadline == p.Normalize().deadline)
    ensures ScheduleAtNow !in ms ==> Apply(ms, p, now, draw).deadline == p.deadline
  {
    if ms != [] {
      ApplyChangesTimes(ms[..|ms| - 1], p, now, draw);
    }
  }

  /** `Mutators.Apply`. */
  method ApplyAll(ms: seq<Mutator>, p: TaskUpdateParam, now: Time, draw: nat -> nat) returns (r: TaskUpdateParam)
    requires CanApply(ms)
    ensures r == Apply(ms, p, now, draw)
  {
    r := p;
    for i := 0 to |ms|
      invariant r == Apply(ms[..i], p, now, draw)
    {
      assert ms[..i + 1][..i] == ms[..i];
      r := Mutate(ms[i], r, now, draw(i));
    }
    assert ms[..|ms|] == ms;
  }

  /** `defaultMutatorStore.Load`, given how a duration text is read; `None` means that it cannot be. */
  function LoadMutators(meta: StrMap, parse: string -> Option<int>): Result<seq<Mutator>, Error> {
    if meta.Nil? || meta.m == map[] then Ok([])
    else
      var atNow := if LABEL_NOW in meta.m then [ScheduleAtNow] else [];
      if LABEL_MIN !in meta.m && LABEL_MAX !in meta.m then Ok(atNow)
      else
        var max := if LABEL_MAX in meta.m then parse(meta.m[LABEL_MAX]) else Some(0);
        var min := if LABEL_MIN in meta.m then parse(meta.m[LABEL_MIN]) else Some(0);
        if max.None? || min.None? then Err(OtherError("bad duration"))
        else Ok(atNow + [RandomizeScheduledAt(min.value, max.value)])
  }

  // ---------- what the labels ask for ----------

  predicate Labelled(meta: StrMap, name: string) {
    meta.Entries? && name in meta.m
  }

  /** The duration under a label, zero without the label, and none if it cannot be read. */
  function Duration(meta: StrMap, name: string, parse: string -> Option<int>): Option<int> {
    if Labelled(meta, name) then parse(meta.m[name]) else Some(0)
  }

  /**
   The labels say which mutators there are: first the one that takes the clock's time, then the random
   one with the lower bound of the min label and the upper bound of the max label. Loading fails
   exactly if a bound that is there cannot be read.
   */
  lemma LabelsDecide(meta: StrMap, parse: string -> Option<int>)
    ensures
      var now := Labelled(meta, "ngicks.ScheduleAtNow");
      var random :=
        Labelled(meta, "ngicks.RandomizeScheduledAt.min") || Labelled(meta, "ngicks.RandomizeScheduledAt.max");
      var min := Duration(meta, "ngicks.RandomizeScheduledAt.min", parse);
      var max := Duration(meta, "ngicks.RandomizeScheduledAt.max", parse);
      match LoadMutators(meta, parse)
      case Err(_) => random && (min.None? || max.None?)
      case Ok(ms) =>
        && (now <==> ScheduleAtNow in ms) && (now ==> ms[0] == ScheduleAtNow)
        && (random ==> min.Some? && max.Some? && ms[|ms| - 1] == RandomizeScheduledAt(min.value, max.value))
        && |ms| == (if now then 1 else 0) + (if random then 1 else 0)
  {
    assert LABEL_MIN != LABEL_NOW && LABEL_MAX != LABEL_NOW;
  }

  /** With the two bounds as its only labels, a parameter's time is moved by an offset between them. */
  lemma LabelsBoundOffset(meta: StrMap, parse: string -> Option<int>, p: TaskUpdateParam, now: Time, draw: nat -> nat)
    returns (offset: int)
    requires !Labelled(meta, LABEL_NOW) && Labelled(meta, LABEL_MIN) && Labelled(meta, LABEL_MAX)
    requires parse(meta.m[LABEL_MIN]).Some? && parse(meta.m[LABEL_MAX]).Some?
    requires parse(meta.m[LABEL_MIN]) != parse(meta.m[LABEL_MAX])
    ensures InRange(offset, parse(meta.m[LABEL_MIN]).value, parse(meta.m[LABEL_MAX]).value)
    ensures LoadMutators(meta, parse).Ok? && CanApply(LoadMutators(meta, parse).value)
    ensures
      Apply(LoadMutators(meta, parse).value, p, now, draw) == p.(scheduledAt := Some(p.scheduledAt.GetOr(0) + offset))
  {
    var ms := LoadMutators(meta, parse).value;
    assert |ms| == 1 && ms[..0] == [];
    offset := MutateOffset(ms[0], p, now, draw(0));
    assert Apply(ms, p, now, draw) == Mutate(ms[0], Apply(ms[..0], p, now, draw), now, draw(0));
  }
}
