/** What `EditTask` does to the entries, said of the caller's list. */
module CronEdits {
  import opened Wrappers
  import opened Def
  import opened CronList
  import opened CronItems

  // ---------- what is added and what leaves ----------

  /** What `EditTask` adds: the modified entries that the store does not hold. */
  function Absent(modified: seq<Entry>, known: set<Entry>): seq<Entry> {
    if modified == [] then []
    else
      var n := |modified| - 1;
      Absent(modified[..n], known) + if modified[n] in known then [] else [modified[n]]
  }

  /** `order` lists the positions of the unknown entries from left to right, and `added` has the entries there. */
  ghost predicate Unknowns(modified: seq<Entry>, known: set<Entry>, order: seq<nat>, added: seq<Entry>) {
    && |order| == |added|
    && (forall a, b :: 0 <= a < b < |order| ==> order[a] < order[b])
    && (forall a :: 0 <= a < |order| ==> order[a] < |modified| && added[a] == modified[order[a]] && added[a] !in known)
    && (forall i :: 0 <= i < |modified| && modified[i] !in known ==> i in order)
  }

  lemma UnknownsSnoc(modified: seq<Entry>, e: Entry, known: set<Entry>, order: seq<nat>, added: seq<Entry>)
    requires Unknowns(modified, known, order, added)
    ensures
      if e in known then Unknowns(modified + [e], known, order, added)
      else Unknowns(modified + [e], known, order + [|modified|], added + [e])
  {
    var modified' := modified + [e];
    var order' := if e in known then order else order + [|modified|];
    assert e !in known ==> order'[|order|] == |modified|;
    forall i | 0 <= i < |modified'| && modified'[i] !in known
      ensures i in order'
    {
      if i < |modified| {
        assert modified[i] !in known;
        var a :| 0 <= a < |order| && order[a] == i;
        assert order'[a] == i;
      }
    }
  }

  /** What is added is exactly what the store does not hold, in the caller's order and as often as it is listed. */
  lemma {:induction false} AbsentIs(modified: seq<Entry>, known: set<Entry>) returns (order: seq<nat>)
    ensures Unknowns(modified, known, order, Absent(modified, known))
  {
    if modified == [] {
      order := [];
    } else {
      var n := |modified| - 1;
      var rest := AbsentIs(modified[..n], known);
      UnknownsSnoc(modified[..n], modified[n], known, rest, Absent(modified[..n], known));
      assert modified == modified[..n] + [modified[n]];
      order := if modified[n] in known then rest else rest + [n];
    }
  }

  lemma AbsentWithin(modified: seq<Entry>, known: set<Entry>)
    ensures forall i :: 0 <= i < |Absent(modified, known)| ==>
      Absent(modified, known)[i] in modified && Absent(modified, known)[i] !in known
  {
    var order := AbsentIs(modified, known);
  }

  /** What `EditTask` removes: the keys whose entry is not among the modified ones. */
  function LeavingKeys(entries: map<Key, Entry>, modified: seq<Entry>): set<Key> {
    set k | k in entries && entries[k] !in modified
  }

  // ---------- what an edit means ----------

  /** The entry at `i` is new to the store. */
  ghost predicate IsNew(entries: map<Key, Entry>, modified: seq<Entry>, i: nat)
    requires i < |modified|
  {
    modified[i] !in entries.Values
  }

  /** `e` is new, and the last new one of the list with the key. */
  ghost predicate LastNew(entries: map<Key, Entry>, modified: seq<Entry>, k: Key, e: Entry) {
    exists i ::
      && 0 <= i < |modified| && modified[i] == e && IsNew(entries, modified, i) && KeyFor(e.schedule) == k
      && forall j :: i < j < |modified| && IsNew(entries, modified, j) ==> KeyFor(modified[j].schedule) != k
  }

  /**
   After an edit every new entry's key is there and awaited; an old key stays with its entry if the
   list still has that entry, and is otherwise gone unless a new entry has it; and nothing else is there.
   */
  ghost predicate Edits(entries: map<Key, Entry>, modified: seq<Entry>, entries': map<Key, Entry>, pending': seq<Pending>) {
    && (forall i :: 0 <= i < |modified| && IsNew(entries, modified, i) ==>
          KeyFor(modified[i].schedule) in entries' && Awaits(pending', KeyFor(modified[i].schedule))
          && LastNew(entries, modified, KeyFor(modified[i].schedule), entries'[KeyFor(modified[i].schedule)]))
    && (forall k :: k in entries && entries[k] in modified ==> k in entries' && entries'[k] == entries[k])
    && (forall k :: k in entries' ==>
          || (k in entries && entries[k] in modified && entries'[k] == entries[k])
          || LastNew(entries, modified, k, entries'[k]))
  }

  /** The new entry at `i` cannot come in: its key is kept by another, or new twice, or asks for unreadable mutators. */
  ghost predicate Clashes(entries: map<Key, Entry>, modified: seq<Entry>, i: nat, parse: string -> Option<int>)
    requires i < |modified|
  {
    var k := KeyFor(modified[i].schedule);
    || (k in entries && entries[k] in modified)
    || (k !in entries && exists j :: 0 <= j < i && IsNew(entries, modified, j) && KeyFor(modified[j].schedule) == k)
    || MutatorsFor(k, parse).Err?
  }

  ghost predicate NothingClashes(entries: map<Key, Entry>, modified: seq<Entry>, parse: string -> Option<int>) {
    forall i :: 0 <= i < |modified| && IsNew(entries, modified, i) ==> !Clashes(entries, modified, i, parse)
  }

  // ---------- the proof ----------

  lemma KeyOfAdded(added: seq<Entry>, i: nat)
    requires i < |added|
    ensures KeyFor(added[i].schedule) in KeysFor(Schedules(added))
  {
    assert Schedules(added)[i] == added[i].schedule;
  }

  /** The entry collected for a key is the last new one of the caller's list. */
  lemma CollectedIsLastNew(entries: map<Key, Entry>, modified: seq<Entry>, order: seq<nat>, added: seq<Entry>, k: Key)
    requires Unknowns(modified, entries.Values, order, added) && LastFor(added, |added|, k) >= 0
    ensures LastNew(entries, modified, k, added[LastFor(added, |added|, k)])
  {
    var a := LastFor(added, |added|, k);
    assert IsNew(entries, modified, order[a]);
    forall j | order[a] < j < |modified| && IsNew(entries, modified, j)
      ensures KeyFor(modified[j].schedule) != k
    {
      var b :| 0 <= b < |order| && order[b] == j;
      assert a < b && added[b] == modified[j];
    }
  }

  /** The collected entries are those of the new keys, and no key that stays is among them. */
  ghost predicate Collected(entries: map<Key, Entry>, modified: seq<Entry>, newEntries: map<Key, Entry>) {
    && (forall k :: k in newEntries ==> LastNew(entries, modified, k, newEntries[k]))
    && (forall i :: 0 <= i < |modified| && IsNew(entries, modified, i) ==> KeyFor(modified[i].schedule) in newEntries)
    && (forall k :: k in entries && entries[k] in modified ==> k !in newEntries)
  }

  lemma AddedAreCollected(entries: map<Key, Entry>, modified: seq<Entry>, newEntries: map<Key, Entry>, added: seq<Entry>,
                          order: seq<nat>)
    requires Unknowns(modified, entries.Values, order, added) && FromAdded(newEntries, added, |added|)
    requires (entries.Keys - LeavingKeys(entries, modified)) !! KeysFor(Schedules(added))
    ensures Collected(entries, modified, newEntries)
  {
    FullSlice(Schedules(added));
    forall k | k in newEntries
      ensures LastNew(entries, modified, k, newEntries[k])
    {
      CollectedIsLastNew(entries, modified, order, added, k);
    }
    forall i | 0 <= i < |modified| && IsNew(entries, modified, i)
      ensures KeyFor(modified[i].schedule) in newEntries
    {
      var a :| 0 <= a < |order| && order[a] == i;
      KeyOfAdded(added, a);
    }
    forall k | k in entries && entries[k] in modified
      ensures k !in newEntries
    {
      assert k in entries.Keys - LeavingKeys(entries, modified);
    }
  }

  lemma CollectedEdits(entries: map<Key, Entry>, modified: seq<Entry>, newEntries: map<Key, Entry>, entries': map<Key, Entry>,
                       pending': seq<Pending>)
    requires Collected(entries, modified, newEntries)
    requires entries' == WithoutKeys(entries, LeavingKeys(entries, modified)) + newEntries
    requires forall k :: k in entries' ==> Awaits(pending', k)
    ensures Edits(entries, modified, entries', pending')
  {
  }

  /** An exchange of what leaves for what is absent is the edit that the caller asked for. */
  lemma ExchangeEdits(entries: map<Key, Entry>, modified: seq<Entry>, newEntries: map<Key, Entry>, entries': map<Key, Entry>,
                      pending': seq<Pending>, parse: string -> Option<int>)
    requires
      var added, leaving := Absent(modified, entries.Values), LeavingKeys(entries, modified);
      && FromAdded(newEntries, added, |added|) && NoneRefused(Schedules(added), entries.Keys, leaving, parse)
      && entries' == WithoutKeys(entries, leaving) + newEntries
    requires forall k :: k in entries' ==> Awaits(pending', k)
    ensures Edits(entries, modified, entries', pending')
  {
    var added, leaving := Absent(modified, entries.Values), LeavingKeys(entries, modified);
    var order := AbsentIs(modified, entries.Values);
    NoneRefusedApart(Schedules(added), entries.Keys, leaving, parse);
    AddedAreCollected(entries, modified, newEntries, added, order);
    CollectedEdits(entries, modified, newEntries, entries', pending');
  }

  lemma KeyBefore(entries: map<Key, Entry>, modified: seq<Entry>, order: seq<nat>, added: seq<Entry>, a: nat, k: Key)
    requires Unknowns(modified, entries.Values, order, added) && a < |added|
    ensures
      k in KeysFor(Schedules(added)[..a]) <==>
      exists j :: 0 <= j < order[a] && IsNew(entries, modified, j) && KeyFor(modified[j].schedule) == k
  {
    var ss := Schedules(added)[..a];
    if k in KeysFor(ss) {
      var b :| 0 <= b < a && KeyFor(ss[b]) == k;
      assert order[b] < order[a] && IsNew(entries, modified, order[b]) && modified[order[b]] == added[b];
    }
    if j :| 0 <= j < order[a] && IsNew(entries, modified, j) && KeyFor(modified[j].schedule) == k {
      var b :| 0 <= b < |order| && order[b] == j;
      assert b < a && ss[b] == added[b].schedule;
    }
  }

  lemma RefusedIsClash(entries: map<Key, Entry>, modified: seq<Entry>, order: seq<nat>, added: seq<Entry>, a: nat,
                       parse: string -> Option<int>)
    requires Unknowns(modified, entries.Values, order, added) && a < |added|
    ensures
      Refused(Schedules(added), a, entries.Keys, LeavingKeys(entries, modified), parse) <==>
      Clashes(entries, modified, order[a], parse)
  {
    KeyBefore(entries, modified, order, added, a, KeyFor(added[a].schedule));
  }

  /** An edit is refused exactly if a new entry clashes. */
  lemma RefusedIffClash(entries: map<Key, Entry>, modified: seq<Entry>, parse: string -> Option<int>)
    ensures
      var added, leaving := Absent(modified, entries.Values), LeavingKeys(entries, modified);
      NoneRefused(Schedules(added), entries.Keys, leaving, parse) <==> NothingClashes(entries, modified, parse)
  {
    var added, leaving := Absent(modified, entries.Values), LeavingKeys(entries, modified);
    var order := AbsentIs(modified, entries.Values);
    forall a | 0 <= a < |added|
      ensures Refused(Schedules(added), a, entries.Keys, leaving, parse) <==> Clashes(entries, modified, order[a], parse)
      ensures IsNew(entries, modified, order[a])
    {
      RefusedIsClash(entries, modified, order, added, a, parse);
    }
    if NoneRefused(Schedules(added), entries.Keys, leaving, parse) {
      forall i | 0 <= i < |modified| && IsNew(entries, modified, i)
        ensures !Clashes(entries, modified, i, parse)
      {
        var a :| 0 <= a < |order| && order[a] == i;
      }
    }
  }

  /** An exchange that left a store in order is an edit. */
  lemma ExchangedIsEdit(entries: map<Key, Entry>, store: Store, modified: seq<Entry>, entries': map<Key, Entry>, store': Store,
                        before: map<Entry, Time>, parse: string -> Option<int>,
                        newEntries: map<Key, Entry>, b: Batch, starts: map<Entry, Time>)
    requires OneEach(store') && store'.entries.Keys == entries'.Keys
    ensures
      Exchanged(entries, store, entries', store', Absent(modified, entries.Values), LeavingKeys(entries, modified),
                before, parse, newEntries, b, starts)
      ==> Edits(entries, modified, entries', store'.pending)
  {
    var added, leaving := Absent(modified, entries.Values), LeavingKeys(entries, modified);
    if Exchanged(entries, store, entries', store', added, leaving, before, parse, newEntries, b, starts) {
      FullSlice(Schedules(added));
      ExchangeEdits(entries, modified, newEntries, entries', store'.pending, parse);
    }
  }

  lemma {:induction false} AllAbsent(modified: seq<Entry>)
    ensures Absent(modified, {}) == modified
  {
    if modified != [] {
      AllAbsent(modified[..|modified| - 1]);
    }
  }

  /** A first exchange, into an empty store, is an edit of nothing. */
  lemma FirstIsEdit(added: seq<Entry>, none: set<Key>, entries': map<Key, Entry>, store': Store,
                    before: map<Entry, Time>, parse: string -> Option<int>,
                    newEntries: map<Key, Entry>, b: Batch, starts: map<Entry, Time>)
    requires none == {} && OneEach(store') && store'.entries.Keys == entries'.Keys
    ensures NoneRefused(Schedules(added), {}, none, parse) <==> NothingClashes(map[], added, parse)
    ensures
      Exchanged(map[], Store(map[], []), entries', store', added, none, before, parse, newEntries, b, starts)
      ==> Edits(map[], added, entries', store'.pending)
  {
    var nothing: map<Key, Entry> := map[];
    AllAbsent(added);
    assert nothing.Values == {} && nothing.Keys == {} && LeavingKeys(nothing, added) == {};
    RefusedIffClash(nothing, added, parse);
    ExchangedIsEdit(nothing, Store(map[], []), added, entries', store', before, parse, newEntries, b, starts);
  }
}
