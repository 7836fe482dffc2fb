/** The per-call session record kept by vxtwinio/twilio_api.py, the session
    store and message-id lookup it lives in, and the rules that move its
    `Status`. The Redis-backed stores are abstracted as maps. */
module CallSession {
  import opened Wrappers

  datatype Status = Queued | InProgress | Failed | Completed {
    /** The value stored in the session's `Status` field. */
    function Name(): string {
      match this
      case Queued => "queued"
      case InProgress => "in-progress"
      case Failed => "failed"
      case Completed => "completed"
    }
  }

  datatype Direction = OutboundApi | Inbound {
    function Name(): string {
      match this
      case OutboundApi => "outbound-api"
      case Inbound => "inbound"
    }
  }

  /** The session dictionary, one field per key the core reads or writes.
      Fields the source may leave unset are `Option`s; `gatherAction` and
      `gatherMethod` are set by a Gather. */
  datatype Session = Session(
    callId: string,
    accountSid: string,
    from: string,
    to: string,
    status: Status,
    direction: Direction,
    url: Option<string>,
    httpMethod: string,
    fallbackUrl: Option<string>,
    fallbackMethod: Option<string>,
    statusCallback: Option<string>,
    statusCallbackMethod: string,
    gatherAction: Option<string>,
    gatherMethod: Option<string>)

  /** Sessions keyed by the caller's address, and the short-lived map from an
      outbound message id to the address of its session. */
  datatype Store = Store(sessions: map<string, Session>, lookup: map<string, string>)

  /** Transport-level session events attached to an outbound message. */
  datatype SessionEvent = NoEvent | SessionNew | SessionClose

  /** A message handed to the transport; `voice` is its
      `helper_metadata['voice']`, where an absent key and a key holding
      `None` differ. */
  datatype Message = Message(
    to: string,
    from: string,
    event: SessionEvent,
    voice: map<string, Option<string>>)

  datatype DeliveryEvent = Ack | Nack

  /** The status an ack or nack moves a session to: only a queued session
      moves, an ack to in-progress and a nack to failed. */
  function StatusAfter(current: Status, event: DeliveryEvent): (r: Option<Status>)
    ensures r.Some? <==> current == Queued
    ensures r.Some? ==> r.value != Queued
    ensures r.Some? ==> (r.value == InProgress <==> event.Ack?)
    ensures r.Some? ==> (r.value == Failed <==> event.Nack?)
  {
    if current != Queued then None
    else match event
      case Ack => Some(InProgress)
      case Nack => Some(Failed)
  }

  /** Delivery events take effect at most once: whatever an ack or nack moved
      a session to, no later ack or nack moves it again. */
  lemma DeliveryActsOnce(current: Status, first: DeliveryEvent, second: DeliveryEvent)
    requires StatusAfter(current, first).Some?
    ensures StatusAfter(StatusAfter(current, first).value, second).None?
  {
  }

  /** `_request_data_from_session`: the parameters sent with every markup
      fetch and status callback. */
  function RequestData(s: Session, apiVersion: string): (d: map<string, string>)
    ensures d.Keys == {"CallSid", "AccountSid", "From", "To", "CallStatus", "ApiVersion", "Direction"}
    ensures d["CallSid"] == s.callId && d["CallStatus"] == s.status.Name()
    ensures d["From"] == s.from && d["To"] == s.to && d["Direction"] == s.direction.Name()
  {
    map[
      "CallSid" := s.callId,
      "AccountSid" := s.accountSid,
      "From" := s.from,
      "To" := s.to,
      "CallStatus" := s.status.Name(),
      "ApiVersion" := apiVersion,
      "Direction" := s.direction.Name()]
  }

  /** The status callback is configured when its URL is non-empty and is not
      the text "None" that an unset value becomes once stored. */
  predicate CallbackConfigured(callback: Option<string>) {
    callback.Some? && callback.value != "" && callback.value != "None"
  }

  /** The per-worker configuration that an inbound session copies. */
  datatype ClientConfig = ClientConfig(
    clientPath: string,
    clientMethod: string,
    statusCallbackPath: Option<string>,
    statusCallbackMethod: string)

  /** The session `new_session` creates for an inbound call: identifiers are
      supplied by the caller (they are random in the source), the call is
      already in progress, and the markup endpoint and status callback come
      from configuration. No fallback endpoint is recorded. */
  function InboundSession(callId: string, accountSid: string, from: string, to: string, config: ClientConfig): (s: Session)
    ensures s.status == InProgress && s.direction == Inbound
    ensures s.from == from && s.to == to && s.callId == callId && s.accountSid == accountSid
    ensures s.url == Some(config.clientPath) && s.httpMethod == config.clientMethod
    ensures s.fallbackUrl.None? && s.fallbackMethod.None?
    ensures s.gatherAction.None? && s.gatherMethod.None?
  {
    Session(
      callId, accountSid, from, to, InProgress, Inbound,
      Some(config.clientPath), config.clientMethod,
      None, None,
      config.statusCallbackPath, config.statusCallbackMethod,
      None, None)
  }
}
