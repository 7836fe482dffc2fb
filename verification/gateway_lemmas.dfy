/** Properties of the HTTP side: what the format selector accepts, the
    make-call error messages, and how a placed call meets the worker. */
module GatewayLemmas {
  import opened Wrappers
  import opened Text
  import opened CallSession
  import opened Fetcher
  import opened Worker
  import opened Gateway
  import WorkerLemmas

  lemma LowerTwice(s: string)
    ensures Lower(Lower(s)) == Lower(s)
  {
  }

  /** Lower-casing and stripping leading dots commute, as '.' has no case. */
  lemma {:induction false} LowerStripCommute(s: string)
    ensures LStripDots(Lower(s)) == Lower(LStripDots(s))
    decreases |s|
  {
    if |s| > 0 && s[0] == '.' {
      assert Lower(s)[1..] == Lower(s[1..]);
      LowerStripCommute(s[1..]);
    }
  }

  /** The selector reads the suffix only through the name it asks for. */
  lemma SameRequestSameFormat(a: string, b: string)
    requires RequestedFormat(a) == RequestedFormat(b)
    ensures SelectFormat(a) == SelectFormat(b)
  {
  }

  /** The selector ignores leading dots and letter case. */
  lemma FormatIgnoresDotsAndCase(s: string)
    ensures SelectFormat("." + s) == SelectFormat(s)
    ensures SelectFormat(Lower(s)) == SelectFormat(s)
  {
    assert RequestedFormat("." + s) == RequestedFormat(s) by {
      assert ("." + s)[1..] == s;
      assert LStripDots("." + s) == LStripDots(s);
    }
    SameRequestSameFormat("." + s, s);
    assert RequestedFormat(Lower(s)) == RequestedFormat(s) by {
      LowerStripCommute(s);
      LowerTwice(LStripDots(s));
    }
    SameRequestSameFormat(Lower(s), s);
  }

  /** A format's own name asks for that name. */
  lemma NameRequested(f: Format)
    ensures RequestedFormat(f.Name()) == f.Name()
  {
    var n := f.Name();
    assert n[0] != '.';
    LowerUnchanged(n);
  }

  /** Each format's own name, bare or after a dot, selects it, and an empty
      suffix selects XML. */
  lemma FormatRoundTrip(f: Format)
    ensures SelectFormat(f.Name()) == Ok(f)
    ensures SelectFormat("." + f.Name()) == Ok(f)
    ensures SelectFormat("") == Ok(XmlFormat)
  {
    NameRequested(f);
    FormatIgnoresDotsAndCase(f.Name());
  }

  lemma StripOneDot(s: string)
    requires s != "" && s[0] != '.'
    ensures LStripDots("." + s) == s
  {
    assert ("." + s)[1..] == s;
  }

  lemma LowerJson()
    ensures Lower("JSON") == "json"
  {
    var u := "JSON";
    assert LowerChar(u[0]) == 'j' && LowerChar(u[1]) == 's';
    assert LowerChar(u[2]) == 'o' && LowerChar(u[3]) == 'n';
  }

  /** Any name other than the two formats is refused, quoted. */
  lemma UnknownNameRefused(suffix: string)
    requires RequestedFormat(suffix) != "xml" && RequestedFormat(suffix) != "json"
    ensures SelectFormat(suffix) == Err(UsageError(Repr(RequestedFormat(suffix)) + " is not a valid request format", "xml"))
  {
  }

  lemma FooRequested()
    ensures RequestedFormat(".foo") == "foo"
  {
    StripOneDot("foo");
    LowerFoo();
  }

  /** An unknown suffix is named, without its dot, in an XML usage error. */
  lemma UnknownFormatExample()
    ensures SelectFormat(".foo") == Err(UsageError(Repr("foo") + " is not a valid request format", "xml"))
  {
    FooRequested();
    assert "foo"[0] != "xml"[0] && "foo"[0] != "json"[0];
    UnknownNameRefused(".foo");
  }

  lemma LowerFoo()
    ensures Lower("foo") == "foo"
  {
    var u := "foo";
    assert LowerChar(u[0]) == 'f' && LowerChar(u[1]) == 'o' && LowerChar(u[2]) == 'o';
  }

  /** Upper case is accepted. */
  lemma UpperCaseFormatExample()
    ensures SelectFormat(".JSON") == Ok(JsonFormat)
  {
    StripOneDot("JSON");
    LowerJson();
    assert RequestedFormat(".JSON") == "json";
  }

  /** A `SendDigits` value with a letter other than 'w' is refused with the
      value quoted. */
  lemma BadSendDigitsExample(suffix: string)
    ensures var args := map["From" := "+12345", "To" := "+54321", "Url" := "u", "SendDigits" := "0a*"];
      ValidateMakeCall(args, suffix) == Err(UsageError(SendDigitsMessage("0a*"), suffix))
  {
    var args := map["From" := "+12345", "To" := "+54321", "Url" := "u", "SendDigits" := "0a*"];
    assert RequiredPresent(args);
    assert Given(Field(args, "SendDigits"));
    assert args["SendDigits"][1] == 'a' && 'a' !in SendDigitsChars;
  }

  /** A `SendDigits` value using every allowed character is accepted. */
  lemma FullSendDigitsAccepted(suffix: string)
    ensures var args := map["From" := "+12345", "To" := "+54321", "Url" := "u", "SendDigits" := SendDigitsChars];
      ValidateMakeCall(args, suffix).Ok?
  {
    var args := map["From" := "+12345", "To" := "+54321", "Url" := "u", "SendDigits" := SendDigitsChars];
    assert RequiredPresent(args);
    assert AllIn(SendDigitsChars, SendDigitsChars);
    assert "IfMachine" !in args;
  }

  /** The format is checked only after the call is placed: a valid request
      with an unknown suffix still queues the call, and is answered with a
      400 usage error in XML. */
  lemma InvalidFormatStillPlacesCall(store: Store, args: Args, accountSid: string, suffix: string, version: string,
                                     callId: string, timestamp: string, messageId: string)
    requires Acceptable(args) && SelectFormat(suffix).Err?
    ensures var r := MakeCall(store, args, accountSid, suffix, version, callId, timestamp, messageId);
      && args["To"] in r.store.sessions
      && r.store.sessions[args["To"]].status == Queued
      && |r.messages| == 1
      && r.response.Some?
      && r.response.value.code == 400
      && r.response.value.contentType == "application/xml"
  {
    XmlErrorAnswered(SelectFormat(suffix).error);
  }

  /** A usage error to be written as XML is always answered, with 400. */
  lemma XmlErrorAnswered(e: UsageError)
    requires e.format == "xml"
    ensures ErrorResponse(e).Some?
    ensures ErrorResponse(e).value.code == 400 && ErrorResponse(e).value.contentType == "application/xml"
  {
    assert SelectFormat("xml") == Ok(XmlFormat) by {
      NameRequested(XmlFormat);
    }
    assert "application/" + XmlFormat.Name() == "application/xml";
  }

  /** A request that is refused and names an unknown format gets no answer
      from the handlers: the error handler fails on the same format. */
  lemma RefusedWithInvalidFormatHandlerFails(store: Store, args: Args, accountSid: string, suffix: string, version: string,
                                           callId: string, timestamp: string, messageId: string)
    requires !Acceptable(args) && SelectFormat(suffix).Err?
    ensures var r := MakeCall(store, args, accountSid, suffix, version, callId, timestamp, messageId);
      r.response.None? && r.store == store && r.messages == []
  {
  }

  /** A placed call connects on its delivery ack: the ack finds the queued
      session through the message id and asks the call's `Url` for markup,
      reporting an outbound call in progress. */
  lemma PlacedCallConnectsOnAck(store: Store, args: Args, accountSid: string, suffix: string, version: string,
                                callId: string, timestamp: string, messageId: string,
                                config: WorkerConfig, http: Request -> Reply)
    requires Acceptable(args) && "Url" in args
    ensures var placed := MakeCall(store, args, accountSid, suffix, version, callId, timestamp, messageId).store;
      var r := ConsumeEvent(placed, messageId, Ack, config, http);
      && r.failure != Some(UnknownSession)
      && |r.requests| >= 1
      && r.requests[0].url == args["Url"]
      && r.requests[0].httpMethod == FieldOr(args, "Method", "POST")
      && r.requests[0].data["CallStatus"] == "in-progress"
      && r.requests[0].data["Direction"] == "outbound-api"
      && r.requests[0].data["CallSid"] == callId
  {
    var placed := MakeCall(store, args, accountSid, suffix, version, callId, timestamp, messageId).store;
    var f := ValidateMakeCall(args, suffix).value;
    var s := OutboundSession(f, accountSid, callId);
    assert placed.lookup[messageId] == f.to && placed.sessions[f.to] == s;
    assert s.url == Some(args["Url"]);
    WorkerLemmas.AckFetchesInProgress(placed, messageId, config, http);
  }

  /** A call placed with an `ApplicationSid` and no `Url` never gets markup:
      its ack finds no endpoint to fetch from. */
  lemma ApplicationSidCallCannotConnect(store: Store, args: Args, accountSid: string, suffix: string, version: string,
                                        callId: string, timestamp: string, messageId: string,
                                        config: WorkerConfig, http: Request -> Reply)
    requires Acceptable(args) && "Url" !in args
    ensures var placed := MakeCall(store, args, accountSid, suffix, version, callId, timestamp, messageId).store;
      var r := ConsumeEvent(placed, messageId, Ack, config, http);
      r.requests == [] && r.failure == Some(FetchFailed(MissingEndpoint)) && r.messages == []
  {
    var f := ValidateMakeCall(args, suffix).value;
    var s := OutboundSession(f, accountSid, callId);
    assert s.(status := InProgress).url.None?;
  }
}
