/** The pause gate in front of the control-request dispatcher: while the
    application is paused every request is answered "clawdis paused" without
    being dispatched; otherwise `status` answers "ready" and every other
    request goes to its handler. */
module ControlRequestHandler {

  /** The requests the gate distinguishes: the local status probe, and a
      request that the dispatcher forwards (here the gateway status query). */
  datatype Request = Status | RpcStatus

  datatype Response = Response(ok: bool, message: string)

  const ReadyMessage: string := "ready"
  const PausedMessage: string := "clawdis paused"

  /** Answers `request`. `paused` is the persisted pause flag; `dispatch` is
      the handling of non-status requests, which lies outside this model. */
  function Process(request: Request, paused: bool, dispatch: Request -> Response): (r: Response)
    ensures paused ==> !r.ok && r.message == PausedMessage
    ensures !paused && request == Status ==> r.ok && r.message == ReadyMessage
    ensures !paused && request != Status ==> r == dispatch(request)
  {
    if paused then Response(false, PausedMessage)
    else if request == Status then Response(true, ReadyMessage)
    else dispatch(request)
  }

  /** The pause check comes before dispatch: while paused, the answer is the
      same whatever the request and whatever its handler would have said. */
  lemma PausedIgnoresRequest(a: Request, b: Request, d1: Request -> Response, d2: Request -> Response)
    ensures Process(a, true, d1) == Process(b, true, d2)
  {
  }

  /** A status probe succeeds exactly when the application is not paused,
      and its message tells which. */
  lemma StatusOkIffNotPaused(paused: bool, dispatch: Request -> Response)
    ensures Process(Status, paused, dispatch).ok <==> !paused
    ensures Process(Status, paused, dispatch).message
         == if paused then PausedMessage else ReadyMessage
  {
  }
}
