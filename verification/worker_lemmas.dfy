/** Properties of the event handlers that span more than one call: duplicate
    delivery events, how a call ends, and how a Gather's reply is routed. */
module WorkerLemmas {
  import opened Wrappers
  import opened TwiML
  import opened CallSession
  import opened Interpreter
  import opened Fetcher
  import opened Worker
  import InterpreterLemmas

  /** A redelivered ack or nack finds its lookup entry consumed and changes
      nothing. */
  lemma DuplicateEventIgnored(store: Store, messageId: string, first: DeliveryEvent, again: DeliveryEvent,
                              config: WorkerConfig, http: Request -> Reply)
    ensures var once := ConsumeEvent(store, messageId, first, config, http);
      ConsumeEvent(once.store, messageId, again, config, http) == Step(once.store, [], [], Some(UnknownSession))
  {
  }

  /** An ack connects a queued call: the first request is to the session's
      URL, reporting the call in progress. */
  lemma AckFetchesInProgress(store: Store, messageId: string, config: WorkerConfig, http: Request -> Reply)
    requires messageId in store.lookup && store.lookup[messageId] in store.sessions
    requires store.sessions[store.lookup[messageId]].status == Queued
    requires store.sessions[store.lookup[messageId]].url.Some?
    ensures var s := store.sessions[store.lookup[messageId]];
      var r := ConsumeEvent(store, messageId, Ack, config, http);
      && |r.requests| >= 1
      && r.requests[0].url == s.url.value
      && r.requests[0].httpMethod == s.httpMethod
      && r.requests[0].data == RequestData(s.(status := InProgress), config.apiVersion)
      && r.requests[0].data["CallStatus"] == "in-progress"
  {
    var s := store.sessions[store.lookup[messageId]];
    var current := s.(status := InProgress);
    assert current.url == s.url;
  }

  /** A nack fails a queued call, yet the markup is still asked for from the
      session's primary URL, reporting the call failed. */
  lemma NackStillFetchesPrimary(store: Store, messageId: string, config: WorkerConfig, http: Request -> Reply)
    requires messageId in store.lookup && store.lookup[messageId] in store.sessions
    requires store.sessions[store.lookup[messageId]].status == Queued
    requires store.sessions[store.lookup[messageId]].url.Some?
    ensures var s := store.sessions[store.lookup[messageId]];
      var r := ConsumeEvent(store, messageId, Nack, config, http);
      && |r.requests| >= 1
      && r.requests[0].url == s.url.value
      && r.requests[0].data["CallStatus"] == "failed"
  {
    var s := store.sessions[store.lookup[messageId]];
    var current := s.(status := Failed);
    assert current.url == s.url;
  }

  /** A pass that reaches a Hangup removes the session and ends with the only
      session-close message it sends. */
  lemma HangupEndsCall(store: Store, id: string, s: Session, status: Status, verbs: seq<Verb>,
                       config: WorkerConfig, http: Request -> Reply)
    requires LeadingPlays(verbs) < |verbs| && verbs[LeadingPlays(verbs)].Hangup?
    ensures var r := ConnectedCall(store, id, s, status, Some(verbs), config, http);
      && id !in r.store.sessions
      && |r.messages| == LeadingPlays(verbs) + 1
      && r.messages[|r.messages| - 1].event == SessionClose
      && r.messages[|r.messages| - 1].voice == map[]
      && (forall i :: 0 <= i < |r.messages| - 1 ==> r.messages[i].event == NoEvent)
  {
    var current := s.(status := status);
    var pass := Interpret(verbs, current);
    InterpreterLemmas.HangupClosesOnce(verbs, current);
    var r := ConnectedCall(store, id, s, status, Some(verbs), config, http);
    assert r.messages == RenderAll(pass.actions, current, SendTo);
    forall i | 0 <= i < |r.messages| - 1
      ensures r.messages[i].event == NoEvent
    {
      assert pass.actions[i] in pass.actions[..|pass.actions| - 1];
    }
  }

  /** After a pass that stops at a Gather, the caller's reply is posted to the
      Gather's action with the reply as `Digits`: the session keeps the
      Gather's action and method for exactly this. */
  lemma GatherReplyPostsToAction(store: Store, id: string, s: Session, status: Status, verbs: seq<Verb>,
                                 digits: string, config: WorkerConfig, http: Request -> Reply)
    requires LeadingPlays(verbs) < |verbs| && verbs[LeadingPlays(verbs)].Gather?
    requires verbs[LeadingPlays(verbs)].action != "" && verbs[LeadingPlays(verbs)].httpMethod != ""
    ensures var g := verbs[LeadingPlays(verbs)];
      var after := ConnectedCall(store, id, s, status, Some(verbs), config, http);
      var reply := ConsumeUserMessage(after.store, id, digits, config, http);
      && |reply.requests| == 1
      && reply.requests[0].url == g.action
      && reply.requests[0].httpMethod == g.httpMethod
      && reply.requests[0].data["Digits"] == digits
      && reply.requests[0].data["CallStatus"] == status.Name()
  {
    var g := verbs[LeadingPlays(verbs)];
    var current := s.(status := status);
    var after := ConnectedCall(store, id, s, status, Some(verbs), config, http);
    assert after.store.sessions[id] == Pending(current, g) by {
      InterpretIsFlat(verbs, current);
    }
    PendingReplyPosts(after.store, id, current, g, digits, config, http);
  }

  /** A reply for a session left waiting by a Gather is posted to that
      Gather's action and method, with the session's status. */
  lemma PendingReplyPosts(store: Store, from: string, s: Session, g: Verb, digits: string,
                          config: WorkerConfig, http: Request -> Reply)
    requires g.Gather? && g.action != "" && g.httpMethod != ""
    requires from in store.sessions && store.sessions[from] == Pending(s, g)
    ensures var reply := ConsumeUserMessage(store, from, digits, config, http);
      && |reply.requests| == 1
      && reply.requests[0].url == g.action
      && reply.requests[0].httpMethod == g.httpMethod
      && reply.requests[0].data["Digits"] == digits
      && reply.requests[0].data["CallStatus"] == s.status.Name()
  {
    var p := Pending(s, g);
    assert GatherPending(p);
    assert RequestData(p, config.apiVersion)["CallStatus"] == s.status.Name();
  }

  /** A reply to a pending Gather puts the call back in progress, whatever
      status it had, here a failed one. */
  lemma ReplyRevivesFailedCall(store: Store, from: string, digits: string, config: WorkerConfig, http: Request -> Reply)
    requires from in store.sessions && GatherPending(store.sessions[from])
    requires store.sessions[from].status == Failed
    requires ConsumeUserMessage(store, from, digits, config, http).failure.None?
    ensures var r := ConsumeUserMessage(store, from, digits, config, http);
      from in r.store.sessions ==> r.store.sessions[from].status == InProgress
  {
    var s := store.sessions[from];
    var fetched := GatherFetch(s, digits, config, http);
    var verbs := fetched.markup.value;
    var current := s.(status := InProgress);
    var pass := Interpret(verbs, current);
    var k := LeadingPlays(verbs);
    InterpretIsFlat(verbs, current);
    if k < |verbs| && verbs[k].Gather? {
      assert pass.session == Pending(current, verbs[k]);
    }
  }

  /** The messages of a Gather reply go to the session's `To` from its
      `From`; for an inbound call that is the called number, not the
      caller. */
  lemma InboundReplyAddressedToCalledNumber(store: Store, from: string, digits: string,
                                            config: WorkerConfig, http: Request -> Reply)
    requires from in store.sessions && GatherPending(store.sessions[from])
    requires store.sessions[from].direction == Inbound
    ensures var r := ConsumeUserMessage(store, from, digits, config, http);
      forall i :: 0 <= i < |r.messages| ==>
        r.messages[i].to == store.sessions[from].to && r.messages[i].from == store.sessions[from].from
  {
  }

  /** Ending a call clears it once: a second end event finds nothing to clear
      and makes no callback. */
  lemma CloseIsIdempotent(store: Store, from: string, config: WorkerConfig)
    ensures var once := CloseSession(store, from, config);
      CloseSession(once.store, from, config) == Step(once.store, [], [], None)
  {
  }

  /** An inbound call ended by the caller leaves no session behind, while its
      message-id entry stays until it expires. */
  lemma InboundCallClosed(store: Store, messageId: string, from: string, to: string, voice: map<string, Option<string>>,
                          callId: string, accountSid: string, config: WorkerConfig, http: Request -> Reply)
    ensures var started := NewSession(store, messageId, from, to, voice, callId, accountSid, config, http);
      var closed := CloseSession(started.store, from, config);
      && from !in closed.store.sessions
      && closed.store.lookup[messageId] == from
  {
  }
  /** An inbound call whose markup reaches a Hangup ends there: its session
      is removed, and the caller hears each leading Play and then the only
      session-close message, which carries the inbound message's voice
      metadata over. */
  lemma InboundHangupEndsCall(store: Store, messageId: string, from: string, to: string, voice: map<string, Option<string>>,
                              callId: string, accountSid: string, verbs: seq<Verb>,
                              config: WorkerConfig, http: Request -> Reply)
    requires FetchFor(InboundSession(callId, accountSid, from, to, config.client), config, http).markup == Ok(verbs)
    requires LeadingPlays(verbs) < |verbs| && verbs[LeadingPlays(verbs)].Hangup?
    ensures var r := NewSession(store, messageId, from, to, voice, callId, accountSid, config, http);
      && from !in r.store.sessions
      && |r.messages| == LeadingPlays(verbs) + 1
      && r.messages[|r.messages| - 1].event == SessionClose
      && r.messages[|r.messages| - 1].voice == voice
      && (forall i :: 0 <= i < |r.messages| - 1 ==> r.messages[i].event != SessionClose)
      && (forall i :: 0 <= i < |r.messages| ==> r.messages[i].to == from)
  {
    var s := InboundSession(callId, accountSid, from, to, config.client);
    var pass := Interpret(verbs, s);
    InterpreterLemmas.HangupClosesOnce(verbs, s);
    InterpretIsFlat(verbs, s);
    var r := NewSession(store, messageId, from, to, voice, callId, accountSid, config, http);
    assert r.messages == RenderAll(pass.actions, s, ReplyTo(voice));
    forall i | 0 <= i < |r.messages| - 1
      ensures r.messages[i].event != SessionClose
    {
      assert pass.actions[i] in pass.actions[..|pass.actions| - 1];
    }
  }

  /** An inbound call whose markup stops at a Gather keeps its session, and
      the caller's reply is posted to that Gather's action with the reply as
      `Digits`, reporting the call in progress. */
  lemma InboundGatherReplyPostsToAction(store: Store, messageId: string, from: string, to: string, voice: map<string, Option<string>>,
                                        callId: string, accountSid: string, verbs: seq<Verb>, digits: string,
                                        config: WorkerConfig, http: Request -> Reply, later: Request -> Reply)
    requires FetchFor(InboundSession(callId, accountSid, from, to, config.client), config, http).markup == Ok(verbs)
    requires LeadingPlays(verbs) < |verbs| && verbs[LeadingPlays(verbs)].Gather?
    requires verbs[LeadingPlays(verbs)].action != "" && verbs[LeadingPlays(verbs)].httpMethod != ""
    ensures var g := verbs[LeadingPlays(verbs)];
      var started := NewSession(store, messageId, from, to, voice, callId, accountSid, config, http);
      var reply := ConsumeUserMessage(started.store, from, digits, config, later);
      && from in started.store.sessions
      && |reply.requests| == 1
      && reply.requests[0].url == g.action
      && reply.requests[0].httpMethod == g.httpMethod
      && reply.requests[0].data["Digits"] == digits
      && reply.requests[0].data["CallStatus"] == "in-progress"
  {
    var g := verbs[LeadingPlays(verbs)];
    var s := InboundSession(callId, accountSid, from, to, config.client);
    var started := NewSession(store, messageId, from, to, voice, callId, accountSid, config, http);
    InboundGatherPending(store, messageId, from, to, voice, callId, accountSid, verbs, config, http);
    PendingReplyPosts(started.store, from, s, g, digits, config, later);
  }

  /** An inbound call whose markup stops at a Gather is left waiting on that
      Gather. */
  lemma InboundGatherPending(store: Store, messageId: string, from: string, to: string, voice: map<string, Option<string>>,
                             callId: string, accountSid: string, verbs: seq<Verb>,
                             config: WorkerConfig, http: Request -> Reply)
    requires FetchFor(InboundSession(callId, accountSid, from, to, config.client), config, http).markup == Ok(verbs)
    requires LeadingPlays(verbs) < |verbs| && verbs[LeadingPlays(verbs)].Gather?
    ensures var started := NewSession(store, messageId, from, to, voice, callId, accountSid, config, http);
      && from in started.store.sessions
      && started.store.sessions[from]
         == Pending(InboundSession(callId, accountSid, from, to, config.client), verbs[LeadingPlays(verbs)])
  {
    var s := InboundSession(callId, accountSid, from, to, config.client);
    var pass := Interpret(verbs, s);
    assert !pass.cleared && pass.session == Pending(s, verbs[LeadingPlays(verbs)]) by {
      InterpretIsFlat(verbs, s);
    }
  }
}
