/**
 The worker-pool dispatcher as a one-shot protocol over two channels.

 Both channels have room for one value and receive at most one, so what a receiver gets does not
 depend on when it asks. What contexts, the fetcher and the work function do are parameters.
 */
module WorkerPool {
  import opened Wrappers
  import opened Def

  /** A `chan error` with buffer size 1; `None` is the nil error. */
  class ErrChan {
    var sent: seq<Option<Error>>
    var closed: bool

    constructor ()
      ensures sent == [] && !closed
    {
      sent, closed := [], false;
    }

    /** A send that neither blocks nor panics. */
    method Send(err: Option<Error>)
      requires !closed && sent == []
      modifies this
      ensures sent == [err] && closed == old(closed)
    {
      sent := [err];
    }

    method Close()
      requires !closed
      modifies this
      ensures closed && sent == old(sent)
    {
      closed := true;
    }

    /** A receive that does not block: the value sent, or nil from a channel closed without one. */
    method Receive() returns (err: Option<Error>)
      requires sent != [] || closed
      ensures err == if sent != [] then sent[0] else None
    {
      return if sent != [] then sent[0] else None;
    }
  }

  class WorkFn {
    const fetchErr: ErrChan
    const workErr: ErrChan

    constructor ()
      ensures fetchErr != workErr && fresh(fetchErr) && fresh(workErr)
      ensures fetchErr.sent == [] && workErr.sent == [] && !fetchErr.closed && !workErr.closed
    {
      fetchErr := new ErrChan();
      workErr := new ErrChan();
    }

    method Close()
      requires fetchErr != workErr && !fetchErr.closed && !workErr.closed
      modifies fetchErr, workErr
      ensures fetchErr.closed && workErr.closed
      ensures fetchErr.sent == old(fetchErr.sent) && workErr.sent == old(workErr.sent)
    {
      fetchErr.Close();
      workErr.Close();
    }

    /** The protocol is over: both channels are closed, one fetch result, and one work result iff the fetch succeeded. */
    ghost predicate Settled()
      reads this, fetchErr, workErr
    {
      && fetchErr.closed && workErr.closed
      && |fetchErr.sent| == 1
      && |workErr.sent| == (if fetchErr.sent[0].None? then 1 else 0)
    }
  }

  /** What happens around the work. */
  datatype World = World(
    registered: set<string>,             // work ids in the registry
    ctxErr: Option<Error>,               // the combined context when the work is about to start
    fnErr: Option<Error>)                // the work function's result

  /** The result of the work: an unregistered work id and a cancelled context come before the work itself. */
  function WorkResult(t: Task, w: World): Option<Error> {
    if t.workId !in w.registered then Some(WorkIdNotFound)
    else if w.ctxErr.Some? then w.ctxErr
    else w.fnErr
  }

  /** `executor.Exec`, given what the fetcher answers; the deferred `param.close` runs on every return. */
  method Exec(param: WorkFn, fetched: Result<Task, Error>, w: World) returns (err: Option<Error>)
    requires param.fetchErr != param.workErr && param.fetchErr.sent == [] && param.workErr.sent == []
    requires !param.fetchErr.closed && !param.workErr.closed
    modifies param.fetchErr, param.workErr
    ensures param.Settled()
    ensures param.fetchErr.sent == [if fetched.Err? then Some(fetched.error) else None]
    ensures fetched.Ok? ==> param.workErr.sent == [WorkResult(fetched.value, w)]
    ensures err == if fetched.Err? then Some(fetched.error) else WorkResult(fetched.value, w)
    // the work runs only for a registered work id and with a live context, and then its own result is sent
    ensures fetched.Ok? && fetched.value.workId !in w.registered ==> param.workErr.sent == [Some(WorkIdNotFound)]
    ensures fetched.Ok? && fetched.value.workId in w.registered && w.ctxErr.Some? ==> param.workErr.sent == [w.ctxErr]
    ensures fetched.Ok? && fetched.value.workId in w.registered && w.ctxErr.None? ==> param.workErr.sent == [w.fnErr]
  {
    if fetched.Err? {
      param.fetchErr.Send(Some(fetched.error));
      param.Close();
      return Some(fetched.error);
    }
    param.fetchErr.Send(None);
    var t := fetched.value;
    if t.workId !in w.registered {
      param.workErr.Send(Some(WorkIdNotFound));
      param.Close();
      return Some(WorkIdNotFound);
    }
    if w.ctxErr.Some? {
      param.workErr.Send(w.ctxErr);
      param.Close();
      return w.ctxErr;
    }
    param.workErr.Send(w.fnErr);
    param.Close();
    return w.fnErr;
  }

  /** `Dispatch` with a free worker; `beforeSend` is the context's error while waiting for one. */
  method Dispatch(beforeSend: Option<Error>, fetched: Result<Task, Error>, w: World) returns (ch: Option<ErrChan>, err: Option<Error>)
    // a channel or an error, never both; the fetcher runs only if a worker was reached
    ensures ch.None? <==> err.Some?
    ensures err == if beforeSend.Some? then beforeSend
                   else if fetched.Err? then Some(fetched.error) else None
    // the channel holds exactly the result that Exec reports
    ensures ch.Some? ==> fresh(ch.value) && ch.value.closed && ch.value.sent == [WorkResult(fetched.value, w)]
  {
    var f := new WorkFn();
    if beforeSend.Some? {
      return None, beforeSend;
    }
    var _ := Exec(f, fetched, w);
    var fetchErr := f.fetchErr.Receive();
    if fetchErr.Some? {
      return None, fetchErr;
    }
    return Some(f.workErr), None;
  }

  /** The function reserved in the event queue: it gets the one work result, never the nil of an empty closed channel. */
  method ReservedResult(beforeSend: Option<Error>, fetched: Result<Task, Error>, w: World)
    returns (reserved: bool, result: Option<Error>)
    ensures reserved <==> beforeSend.None? && fetched.Ok?
    ensures reserved ==> result == WorkResult(fetched.value, w)
  {
    var ch, err := Dispatch(beforeSend, fetched, w);
    if err.Some? {
      return false, None;
    }
    var r := ch.value.Receive();
    return true, r;
  }
}
