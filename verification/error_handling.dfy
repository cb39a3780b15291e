/**
 The shared failure handler `errorHandler` and the two interceptors that
 route every failed request or response to it. The handler's toast
 notifications, history navigation and session removal are recorded as an
 ordered effect log; the session is an explicit value it returns.
 */
module ErrorHandling {
  import opened Wrappers
  import opened Storage

  /** The `response` property of a failure: missing, `null`, or a response with its status. */
  datatype ResponseSlot = Undefined | Null | Present(status: int)

  datatype FailureConfig = FailureConfig(url: Option<string>)

  /** The failure record the HTTP client rejects with. */
  datatype HttpFailure = HttpFailure(response: ResponseSlot, config: FailureConfig)

  /** The observable actions of the handler, in the order they happen. */
  datatype Effect =
    | RemoveAuthData            // removeAuthData()
    | NotifyError(message: string) // toast.error(message)
    | NotifyInfo(message: string)  // toast.info(message)
    | Navigate(path: string)       // history.push(path)

  const SERVER_FAULT_MESSAGE := "Servidor backend com problemas (500), favor reestartar..."
  const UNAUTHORIZED_MESSAGE := "Servidor recusou GET (401), favor checar..."
  const UNREACHABLE_MESSAGE := "Erro no servidor! Verificar o backend...."
  const ROOT_PATH := "/"

  /** The effects of an unreachable backend: clear the session, tell the user, go home. */
  const TEARDOWN := [RemoveAuthData, NotifyInfo(UNREACHABLE_MESSAGE), Navigate(ROOT_PATH)]

  /** The session after one effect. */
  function Apply(s: Session, e: Effect): Session {
    if e.RemoveAuthData? then NoSession else s
  }

  /** The session after the effects in order. */
  function Replay(s: Session, effects: seq<Effect>): (r: Session)
    ensures (exists i :: 0 <= i < |effects| && effects[i].RemoveAuthData?) ==> r == NoSession
    ensures (forall i :: 0 <= i < |effects| ==> !effects[i].RemoveAuthData?) ==> r == s
    decreases |effects|
  {
    if |effects| == 0 then s else Replay(Apply(s, effects[0]), effects[1..])
  }

  /** How a promise settles: with a value, or rejected with a failure. */
  datatype Settled<+T> = Fulfilled(value: T) | Rejected(reason: HttpFailure)

  /** What a handler leaves behind: the session, the effects it performed, and its promise. */
  datatype Handled<+T> = Handled(session: Session, effects: seq<Effect>, settled: Settled<T>)

  /** The exception thrown by reading a property of `undefined` or `null`. */
  datatype Exception = TypeError

  /** `error.response.status`, which throws when there is no response object. */
  function ReadStatus(r: ResponseSlot): Result<int, Exception> {
    match r
    case Present(status) => Success(status)
    case _ => Failure(TypeError)
  }

  /**
   `{ ...error }`: a shallow copy of the failure record. A failure is modelled
   by its response and config alone, so the copy equals the original.
   */
  function Spread(f: HttpFailure): HttpFailure {
    HttpFailure(f.response, f.config)
  }

  /**
   The `try` block: the effects it performs, and the exception it ends with,
   if any. Each comparison reads the status anew.
   */
  function TryBlock(f: HttpFailure): (seq<Effect>, Option<Exception>) {
    match ReadStatus(f.response)
    case Failure(e) => ([], Some(e))
    case Success(status) =>
      if status == 500 then ([NotifyError(SERVER_FAULT_MESSAGE)], None)
      else
        match ReadStatus(f.response)
        case Failure(e) => ([], Some(e))
        case Success(status') =>
          if status' == 401 then ([NotifyError(UNAUTHORIZED_MESSAGE)], None) else ([], None)
  }

  /** The `catch` block: tear down only when the response is missing altogether. */
  function CatchBlock(f: HttpFailure): seq<Effect> {
    if f.response == Undefined then TEARDOWN else []
  }

  /**
   `errorHandler`: the `try` block, the `catch` block when the `try` block
   threw, and then the `finally` block, whose `return` of a rejected promise
   replaces whatever the other two blocks ended with. Without that `return`
   the handler's promise could be `Fulfilled(())`, resolved with `undefined`.
   */
  function ErrorHandler(f: HttpFailure, s: Session): (r: Handled<()>)
    ensures r.settled == Rejected(f)
    ensures r.session == Replay(s, r.effects)
    ensures f.response == Present(500) ==>
      r.effects == [NotifyError(SERVER_FAULT_MESSAGE)] && r.session == s
    ensures f.response == Present(401) ==>
      r.effects == [NotifyError(UNAUTHORIZED_MESSAGE)] && r.session == s
    ensures f.response == Undefined ==> r.effects == TEARDOWN && r.session == NoSession
    ensures f.response == Null ==> r.effects == [] && r.session == s
    ensures f.response.Present? && f.response.status != 500 && f.response.status != 401 ==>
      r.effects == [] && r.session == s
  {
    var tried := TryBlock(f);
    var caught := if tried.1.Some? then CatchBlock(f) else [];
    var effects := tried.0 + caught;
    Handled(Replay(s, effects), effects, Rejected(Spread(f)))
  }

  /**
   The explicit classification the handler amounts to: a status check on a
   present response, and "unreachable" only for a missing one.
   */
  datatype Verdict = ServerFault | Unauthorized | Unreachable | Unhandled

  function Classify(f: HttpFailure): Verdict {
    match f.response
    case Present(status) =>
      if status == 500 then ServerFault else if status == 401 then Unauthorized else Unhandled
    case Undefined => Unreachable
    case Null => Unhandled
  }

  function Reaction(v: Verdict): seq<Effect> {
    match v
    case ServerFault => [NotifyError(SERVER_FAULT_MESSAGE)]
    case Unauthorized => [NotifyError(UNAUTHORIZED_MESSAGE)]
    case Unreachable => TEARDOWN
    case Unhandled => []
  }

  /**
   The `try`/`catch`/`finally` handler behaves as the explicit classification:
   the effects of the verdict, the session cleared exactly when the backend
   was unreachable, and always the original failure rejected.
   */
  lemma HandlerMatchesClassification(f: HttpFailure, s: Session)
    ensures ErrorHandler(f, s)
      == Handled(if Classify(f) == Unreachable then NoSession else s, Reaction(Classify(f)), Rejected(f))
  {
  }

  /** The effects depend on the failure alone, never on the session. */
  lemma EffectsIgnoreSession(f: HttpFailure, s1: Session, s2: Session)
    ensures ErrorHandler(f, s1).effects == ErrorHandler(f, s2).effects
  {
  }

  /** The session is left as it was or cleared; it is never replaced by another one. */
  lemma SessionKeptOrCleared(f: HttpFailure, s: Session)
    ensures ErrorHandler(f, s).session in {s, NoSession}
  {
  }

  /**
   An unreachable backend seen twice: the second time, with the session
   already gone, notifies and navigates again and the session stays empty.
   */
  lemma TeardownIdempotent(f: HttpFailure, s: Session)
    requires f.response == Undefined
    ensures var first := ErrorHandler(f, s);
      var second := ErrorHandler(f, first.session);
      second.effects == first.effects == TEARDOWN && second.session == first.session == NoSession
  {
  }

  /** The server-fault and unauthorized notifications are told apart. */
  lemma NotificationsDistinct(f500: HttpFailure, f401: HttpFailure, s: Session)
    requires f500.response == Present(500) && f401.response == Present(401)
    ensures ErrorHandler(f500, s).effects != ErrorHandler(f401, s).effects
  {
    assert SERVER_FAULT_MESSAGE[19] != UNAUTHORIZED_MESSAGE[19];
  }

  /**
   Either interceptor, request or response: both are registered with
   `use(onFulfilled, onRejected)` where `onFulfilled` returns its argument and
   `onRejected` is `errorHandler`. A success passes through untouched; a
   failure goes to the handler and comes out rejected as it went in.
   */
  function Intercept<T>(incoming: Settled<T>, s: Session): (r: Handled<T>)
    ensures incoming.Fulfilled? ==> r == Handled(s, [], incoming)
    ensures incoming.Rejected? ==>
      var h := ErrorHandler(incoming.reason, s); r.session == h.session && r.effects == h.effects
    ensures r.settled == incoming
  {
    match incoming
    case Fulfilled(_) => Handled(s, [], incoming)
    case Rejected(f) =>
      var h := ErrorHandler(f, s);
      Handled(h.session, h.effects, Rejected(h.settled.reason))
  }
}
