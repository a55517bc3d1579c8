/**
 `volatileTaskRepo`: a cron store behind the interface the scheduler expects. Occurrences that
 `GetNext` showed are recorded; dispatching the head pops it.
 */
module Volatile {
  import opened Wrappers
  import opened Def
  import opened CronList
  import opened Cron
  import VolatileList

  class VolatileTaskRepo {
    var tasks: CronStore
    var record: map<string, Task>

    constructor (v: CronStore)
      ensures tasks == v && record == map[]
    {
      tasks := v;
      record := map[];
    }

    ghost function Value(): VolatileList.State
      reads this, tasks`store
    {
      VolatileList.State(tasks.store, record)
    }

    method GetById(id: string) returns (r: Result<Task, Error>)
      ensures r == VolatileList.GetById(Value(), id)
    {
      if id !in record {
        return Err(RepositoryError(id, IdNotFound));
      }
      return Ok(record[id]);
    }

    method GetNext() returns (r: Result<Task, Error>)
      requires tasks.Valid()
      modifies this`record
      ensures (Value(), r) == VolatileList.GetNext(old(Value()))
    {
      r := tasks.Peek();
      if r.Ok? {
        record := record[r.value.id := r.value];
      }
    }

    /** `MarkAsDispatched` of the head. */
    method PopHead(id: string, c: Call) returns (err: Option<Error>)
      requires tasks.Valid()
      modifies tasks`insertionOrderCount, tasks`items, tasks`store, tasks`clock
      modifies tasks.schedule`inner, tasks.schedule`Repr, tasks.schedule.Repr`index, tasks.entries.Values`prev
      ensures tasks.Valid()
      ensures old(VolatileList.IsHead(tasks.store, id)) ==> (Value(), err) == VolatileList.MarkAsDispatched(old(Value()), id, c)
    {
      VolatileList.MarkCases(Value(), id, c);
      var popped := tasks.Pop(c);
      err := match popped case Ok(_) => None case Err(e) => Some(e);
    }

    /** `MarkAsDispatched` of a task that is not the head: it was cancelled, if it was ever shown. */
    method Withdraw(id: string, ghost c: Call) returns (err: Option<Error>)
      requires tasks.Valid()
      modifies this`record
      ensures tasks.Valid()
      ensures old(VolatileList.Head(tasks.store).Ok? && !VolatileList.IsHead(tasks.store, id)) ==>
        (Value(), err) == VolatileList.MarkAsDispatched(old(Value()), id, c)
    {
      if id in record {
        record := record - {id};
        err := Some(RepositoryError(id, AlreadyCancelled));
      } else {
        err := None;
      }
    }

    method MarkAsDispatched(id: string, c: Call) returns (err: Option<Error>)
      requires tasks.Valid()
      modifies this`record, tasks`insertionOrderCount, tasks`items, tasks`store, tasks`clock
      modifies tasks.schedule`inner, tasks.schedule`Repr, tasks.schedule.Repr`index, tasks.entries.Values`prev
      ensures tasks.Valid() && (Value(), err) == VolatileList.MarkAsDispatched(old(Value()), id, c)
    {
      var p := tasks.Peek();
      if p.Err? {
        err := Some(p.error);
      } else if p.value.id == id {
        err := PopHead(id, c);
      } else {
        err := Withdraw(id, c);
      }
    }

    method MarkAsDone(id: string, workErr: Option<string>) returns (err: Option<Error>)
      modifies this`record
      ensures err.None? && Value() == VolatileList.MarkAsDone(old(Value()), id)
    {
      record := record - {id};
      return None;
    }

    /** Later calls see the new store; what was recorded stays. */
    method UpdateTasks(v: CronStore)
      modifies this`tasks
      ensures Value() == VolatileList.State(v.store, old(record))
    {
      tasks := v;
    }
  }
}
