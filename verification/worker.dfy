/** The event handlers of `TwilioAPIWorker` in vxtwinio/twilio_api.py: a
    delivery ack or nack for a queued outbound call, a user's reply to a
    pending Gather, an inbound call, and the end of a call.

    Each handler is a function from the store (and the message it handles) to
    a `Step`: the store afterwards, the transport messages sent, the HTTP
    requests made, and the failure that abandoned the handler part way, if
    any. Effects that happen before a failure are kept, as they are in the
    source. */
module Worker {
  import opened Wrappers
  import opened TwiML
  import opened CallSession
  import opened Interpreter
  import opened Fetcher

  datatype WorkerConfig = WorkerConfig(apiVersion: string, client: ClientConfig)

  /** The source raises on a delivery event whose message id or session is
      gone, and on a failed fetch; both abandon the handler. */
  datatype WorkerError = UnknownSession | FetchFailed(error: FetchError)

  datatype Step = Step(store: Store, messages: seq<Message>, requests: seq<Request>, failure: Option<WorkerError>)

  /** The store once a pass for the session at `id` is over: a cleared
      session is gone, any other is saved as the pass left it. */
  function AfterPass(store: Store, id: string, pass: Pass): (r: Store)
    ensures r.lookup == store.lookup
    ensures pass.cleared <==> id !in r.sessions
    ensures !pass.cleared ==> r.sessions[id] == pass.session
    ensures forall k :: k != id ==> (k in r.sessions <==> k in store.sessions)
    ensures forall k :: k != id && k in r.sessions ==> r.sessions[k] == store.sessions[k]
  {
    if pass.cleared then store.(sessions := store.sessions - {id})
    else store.(sessions := store.sessions[id := pass.session])
  }

  /** The markup fetch for session `s`, with the standard parameters. */
  function FetchFor(s: Session, config: WorkerConfig, http: Request -> Reply): Fetched {
    FetchMarkup(PrimaryOf(s), FallbackOf(s), RequestData(s, config.apiVersion), http)
  }

  /** The instructions a connected call runs: those given, or those fetched. */
  function MarkupFor(s: Session, given: Option<seq<Verb>>, config: WorkerConfig, http: Request -> Reply): Fetched {
    if given.Some? then Fetched([], Ok(given.value)) else FetchFor(s, config, http)
  }

  /** `_handle_connected_call`: record the new status, fetch the markup unless
      it is given, and run one pass over it, sending to the session's `To`.
      Only the session at `id` can change. */
  function ConnectedCall(store: Store, id: string, s: Session, status: Status,
                         given: Option<seq<Verb>>, config: WorkerConfig, http: Request -> Reply): (r: Step)
    ensures r.store.lookup == store.lookup
    ensures forall k :: k != id ==> (k in r.store.sessions <==> k in store.sessions)
    ensures forall k :: k != id && k in r.store.sessions ==> r.store.sessions[k] == store.sessions[k]
    ensures given.Some? ==> r.requests == [] && r.failure.None?
    ensures given.None? ==> r.requests == FetchFor(s.(status := status), config, http).requests
    ensures r.failure.Some? ==>
      r.messages == [] && id in r.store.sessions && r.store.sessions[id] == s.(status := status)
    ensures r.failure.None? <==> MarkupFor(s.(status := status), given, config, http).markup.Ok?
    ensures r.failure.None? ==>
      var m := MarkupFor(s.(status := status), given, config, http).markup;
      m.Ok? &&
      var pass := Interpret(m.value, s.(status := status));
      && r.messages == RenderAll(pass.actions, s.(status := status), SendTo)
      && (pass.cleared <==> id !in r.store.sessions)
      && (!pass.cleared ==> r.store.sessions[id] == pass.session)
  {
    var current := s.(status := status);
    var saved := store.(sessions := store.sessions[id := current]);
    var fetched := MarkupFor(current, given, config, http);
    match fetched.markup
    case Err(e) => Step(saved, [], fetched.requests, Some(FetchFailed(e)))
    case Ok(verbs) =>
      var pass := Interpret(verbs, current);
      Step(AfterPass(saved, id, pass), RenderAll(pass.actions, current, SendTo), fetched.requests, None)
  }

  /** `consume_ack` and `consume_nack`: consume the message id's lookup entry
      and, if its session is still queued, connect the call with the status
      the event gives it. */
  function ConsumeEvent(store: Store, messageId: string, event: DeliveryEvent,
                        config: WorkerConfig, http: Request -> Reply): (r: Step)
    ensures messageId !in r.store.lookup
    ensures r.store.lookup == store.lookup - {messageId}
    ensures r.failure == Some(UnknownSession) <==>
      messageId !in store.lookup || store.lookup[messageId] !in store.sessions
    ensures r.failure == Some(UnknownSession) ==> r.store.sessions == store.sessions && r.messages == [] && r.requests == []
    ensures messageId in store.lookup && store.lookup[messageId] in store.sessions
            && store.sessions[store.lookup[messageId]].status != Queued ==>
      r == Step(store.(lookup := store.lookup - {messageId}), [], [], None)
    ensures messageId in store.lookup && store.lookup[messageId] in store.sessions
            && store.sessions[store.lookup[messageId]].status == Queued ==>
      var id := store.lookup[messageId];
      var s := store.sessions[id];
      && StatusAfter(s.status, event).Some?
      && r == ConnectedCall(store.(lookup := store.lookup - {messageId}), id, s,
                            StatusAfter(s.status, event).value, None, config, http)
  {
    var consumed := store.(lookup := store.lookup - {messageId});
    if messageId !in store.lookup || store.lookup[messageId] !in store.sessions then
      Step(consumed, [], [], Some(UnknownSession))
    else
      var id := store.lookup[messageId];
      var s := store.sessions[id];
      match StatusAfter(s.status, event)
      case None => Step(consumed, [], [], None)
      case Some(status) => ConnectedCall(consumed, id, s, status, None, config, http)
  }

  /** A session's Gather is pending when both its action and method are set
      and non-empty. */
  predicate GatherPending(s: Session) {
    s.gatherAction.Some? && s.gatherAction.value != ""
    && s.gatherMethod.Some? && s.gatherMethod.value != ""
  }

  /** The refetch a reply to a pending Gather makes: the Gather's action and
      method, with the session's parameters plus the reply as `Digits`, and
      no usable fallback. */
  function GatherFetch(s: Session, content: string, config: WorkerConfig, http: Request -> Reply): (r: Fetched)
    requires GatherPending(s)
    ensures |r.requests| == 1
    ensures r.requests[0] == Request(s.gatherAction.value, s.gatherMethod.value,
                                     RequestData(s, config.apiVersion)["Digits" := content])
  {
    var data := RequestData(s, config.apiVersion)["Digits" := content];
    FetchMarkup(Some(Endpoint(s.gatherAction.value, s.gatherMethod.value)), None, data, http)
  }

  /** `consume_user_message`: a reply from an address whose session has a
      pending Gather fetches the Gather's action with the reply as `Digits`,
      then continues the call in progress with the markup that came back. The
      refetch names no usable fallback. Any other reply is ignored. */
  function ConsumeUserMessage(store: Store, from: string, content: string,
                              config: WorkerConfig, http: Request -> Reply): (r: Step)
    ensures r.store.lookup == store.lookup
    ensures from !in store.sessions || !GatherPending(store.sessions[from]) ==>
      r == Step(store, [], [], None)
    ensures from in store.sessions && GatherPending(store.sessions[from]) ==>
      var s := store.sessions[from];
      && |r.requests| == 1
      && r.requests[0].url == s.gatherAction.value
      && r.requests[0].httpMethod == s.gatherMethod.value
      && r.requests[0].data == RequestData(s, config.apiVersion)["Digits" := content]
    ensures r.failure.Some? ==> r.store == store && r.messages == []
    ensures from in store.sessions && GatherPending(store.sessions[from]) ==>
      var s := store.sessions[from];
      var fetched := GatherFetch(s, content, config, http);
      && (r.failure.None? <==> fetched.markup.Ok?)
      && (fetched.markup.Ok? ==>
            var current := s.(status := InProgress);
            var pass := Interpret(fetched.markup.value, current);
            && r.messages == RenderAll(pass.actions, current, SendTo)
            && (pass.cleared <==> from !in r.store.sessions)
            && (!pass.cleared ==> r.store.sessions[from] == pass.session)
            && (forall k :: k != from ==> (k in r.store.sessions <==> k in store.sessions))
            && (forall k :: k != from && k in r.store.sessions ==> r.store.sessions[k] == store.sessions[k]))
  {
    if from !in store.sessions || !GatherPending(store.sessions[from]) then Step(store, [], [], None)
    else
      var s := store.sessions[from];
      var fetched := GatherFetch(s, content, config, http);
      match fetched.markup
      case Err(e) => Step(store, [], fetched.requests, Some(FetchFailed(e)))
      case Ok(verbs) =>
        var step := ConnectedCall(store, from, s, InProgress, Some(verbs), config, http);
        step.(requests := fetched.requests)
  }

  /** `new_session`: an inbound call. The message id is remembered against
      the caller, an in-progress inbound session is stored under the caller's
      address, its markup is fetched, and one pass runs, replying to the
      caller. `voice` is the voice part of the inbound message's helper
      metadata; `callId` and `accountSid` stand for the random ids the source
      generates. */
  function NewSession(store: Store, messageId: string, from: string, to: string, voice: map<string, Option<string>>,
                      callId: string, accountSid: string,
                      config: WorkerConfig, http: Request -> Reply): (r: Step)
    ensures r.store.lookup == store.lookup[messageId := from]
    ensures forall k :: k != from ==> (k in r.store.sessions <==> k in store.sessions)
    ensures forall k :: k != from && k in r.store.sessions ==> r.store.sessions[k] == store.sessions[k]
    ensures var s := InboundSession(callId, accountSid, from, to, config.client);
      && 1 <= |r.requests| <= 2
      && r.requests[0] == Request(config.client.clientPath, config.client.clientMethod, RequestData(s, config.apiVersion))
    ensures r.failure.Some? ==> r.messages == [] && from in r.store.sessions
    ensures forall i :: 0 <= i < |r.messages| ==> r.messages[i].to == from && r.messages[i].from == to
    ensures var s := InboundSession(callId, accountSid, from, to, config.client);
      var fetched := FetchFor(s, config, http);
      && r.requests == fetched.requests
      && (r.failure.None? <==> fetched.markup.Ok?)
      && (r.failure.Some? ==> r.store.sessions[from] == s)
      && (fetched.markup.Ok? ==>
            var pass := Interpret(fetched.markup.value, s);
            && r.messages == RenderAll(pass.actions, s, ReplyTo(voice))
            && (pass.cleared <==> from !in r.store.sessions)
            && (!pass.cleared ==> r.store.sessions[from] == pass.session))
  {
    var s := InboundSession(callId, accountSid, from, to, config.client);
    var created := Store(store.sessions[from := s], store.lookup[messageId := from]);
    var fetched := FetchFor(s, config, http);
    match fetched.markup
    case Err(e) => Step(created, [], fetched.requests, Some(FetchFailed(e)))
    case Ok(verbs) =>
      var pass := Interpret(verbs, s);
      Step(AfterPass(created, from, pass), RenderAll(pass.actions, s, ReplyTo(voice)), fetched.requests, None)
  }

  /** `close_session`: the caller's session is cleared and, when it had a
      status callback configured, the callback is told the call completed. */
  function CloseSession(store: Store, from: string, config: WorkerConfig): (r: Step)
    ensures from !in r.store.sessions
    ensures r.store.lookup == store.lookup
    ensures r.store.sessions == store.sessions - {from}
    ensures r.messages == [] && r.failure.None?
    ensures |r.requests| <= 1
    ensures |r.requests| == 1 <==> from in store.sessions && CallbackConfigured(store.sessions[from].statusCallback)
    ensures |r.requests| == 1 ==>
      var s := store.sessions[from];
      && r.requests[0].url == s.statusCallback.value
      && r.requests[0].httpMethod == s.statusCallbackMethod
      && "CallStatus" in r.requests[0].data && r.requests[0].data["CallStatus"] == "completed"
      && "CallSid" in r.requests[0].data && r.requests[0].data["CallSid"] == s.callId
      && r.requests[0].data == RequestData(s.(status := Completed), config.apiVersion)
  {
    var cleared := store.(sessions := store.sessions - {from});
    if from in store.sessions && CallbackConfigured(store.sessions[from].statusCallback) then
      var s := store.sessions[from].(status := Completed);
      Step(cleared, [], [Request(s.statusCallback.value, s.statusCallbackMethod, RequestData(s, config.apiVersion))], None)
    else Step(cleared, [], [], None)
  }
}
