/** The HTTP side of `TwilioAPIServer` in vxtwinio/twilio_api.py: choosing the
    format a response is written in, answering a usage error, validating a
    request to place a call, and the session and Call resource such a request
    creates.

    A request's arguments are the first value of each form field it carries.
    The call id, the timestamp and the id of the transport message are
    parameters: the source takes them from a random UUID, the wall clock and
    the transport. */
module Gateway {
  import opened Wrappers
  import opened Text
  import opened Xml
  import opened Responses
  import opened CallSession

  datatype Format = XmlFormat | JsonFormat {
    function Name(): string {
      match this
      case XmlFormat => "xml"
      case JsonFormat => "json"
    }
  }

  /** `TwilioAPIUsageException`: its message, and the format suffix its error
      response is to be written in. */
  datatype UsageError = UsageError(message: string, format: string)

  /** The class name an error response reports. */
  const UsageErrorType := "TwilioAPIUsageException"

  /** `s.lstrip('.')`. */
  function LStripDots(s: string): (r: string)
    ensures |r| <= |s| && r == s[|s| - |r|..]
    ensures |r| > 0 ==> r[0] != '.'
    ensures forall i :: 0 <= i < |s| - |r| ==> s[i] == '.'
  {
    if |s| > 0 && s[0] == '.' then LStripDots(s[1..]) else s
  }

  /** The format name a suffix asks for: leading dots dropped, lower-cased,
      and "xml" when nothing is left. */
  function RequestedFormat(suffix: string): (r: string)
    ensures r != ""
  {
    var f := Lower(LStripDots(suffix));
    if f == "" then "xml" else f
  }

  /** The format selector of `_format_response`. Only the names of the
      response objects' `format_*` writers are accepted; any other name is a
      usage error written as XML. */
  function SelectFormat(suffix: string): (r: Result<Format, UsageError>)
    ensures r == Ok(XmlFormat) <==> Lower(LStripDots(suffix)) in {"", "xml"}
    ensures r == Ok(JsonFormat) <==> Lower(LStripDots(suffix)) == "json"
    ensures r.Err? ==>
      r.error == UsageError(Repr(Lower(LStripDots(suffix))) + " is not a valid request format", "xml")
  {
    var name := RequestedFormat(suffix);
    if name == "xml" then Ok(XmlFormat)
    else if name == "json" then Ok(JsonFormat)
    else Err(UsageError(Repr(name) + " is not a valid request format", "xml"))
  }

  /** What a response object's writer produces: the element tree that
      `format_xml` serialises, or the dictionary that `format_json` dumps. */
  datatype Body = XmlBody(root: Element) | JsonBody(value: Value)

  datatype HttpResponse = HttpResponse(code: int, contentType: string, body: Body)

  /** `_format_response` for a response named `name` with fields `fields`,
      answered with status `code`. */
  function FormatResponse(name: string, fields: seq<Entry>, suffix: string, code: int): (r: Result<HttpResponse, UsageError>)
    ensures r.Ok? <==> SelectFormat(suffix).Ok?
    ensures r.Err? ==> r.error == SelectFormat(suffix).error
    ensures r.Ok? ==> r.value.code == code
    ensures r.Ok? ==> r.value.contentType == "application/" + SelectFormat(suffix).value.Name()
    ensures r.Ok? && SelectFormat(suffix).value == XmlFormat ==>
      r.value.body.XmlBody? && r.value.body.root.tag == "TwilioResponse"
      && |r.value.body.root.children| == 1
      && r.value.body.root.children[0].tag == name
      && r.value.body.root.children[0].children == ToElements(fields)
    ensures r.Ok? && SelectFormat(suffix).value == JsonFormat ==>
      r.value.body.JsonBody? && r.value.body.value == Convert(Dict(fields)) && SnakeKeys(r.value.body.value)
  {
    var f :- SelectFormat(suffix);
    ConvertIsSnake(Dict(fields));
    var body := match f
      case XmlFormat => XmlBody(ResponseXml(name, fields))
      case JsonFormat => JsonBody(Convert(Dict(fields)));
    Ok(HttpResponse(code, "application/" + f.Name(), body))
  }

  /** `usage_exception`: a usage error is answered with status 400 and an
      `Error` response in the error's own format. When that format is not
      valid either, the error handler itself raises; `None` stands for that
      failure, which the web framework answers with its own status-500 page,
      outside this model. */
  function ErrorResponse(e: UsageError): (r: Option<HttpResponse>)
    ensures r.Some? <==> SelectFormat(e.format).Ok?
    ensures r.Some? ==>
      && r.value.code == 400
      && Ok(r.value) == FormatResponse("Error", ErrorFields(UsageErrorType, e.message), e.format, 400)
  {
    match FormatResponse("Error", ErrorFields(UsageErrorType, e.message), e.format, 400)
    case Ok(response) => Some(response)
    case Err(_) => None
  }

  /** A request's form fields, first value of each. */
  type Args = map<string, string>

  /** `_get_field` with no default: the field, or `None`. */
  function Field(args: Args, name: string): (r: Option<string>)
    ensures r.Some? <==> name in args
    ensures r.Some? ==> r.value == args[name]
  {
    if name in args then Some(args[name]) else None
  }

  /** `_get_field` with a default. */
  function FieldOr(args: Args, name: string, default: string): (r: string)
    ensures name in args ==> r == args[name]
    ensures name !in args ==> r == default
  {
    if name in args then args[name] else default
  }

  /** Python truthiness of an optional string: present and non-empty. */
  predicate Given(v: Option<string>) {
    v.Some? && v.value != ""
  }

  /** The characters `SendDigits` may hold. */
  const SendDigitsChars := "0123456789#*w"

  /** The values `IfMachine` may take; `None` is the field left out. */
  predicate IfMachineValid(v: Option<string>) {
    v.None? || v.value == "Continue" || v.value == "Hangup"
  }

  /** The fields of a make-call request once validated. `Timeout` and
      `Record` keep the text a stored default would become. */
  datatype CallFields = CallFields(
    from: string,
    to: string,
    url: Option<string>,
    applicationSid: Option<string>,
    httpMethod: string,
    fallbackUrl: Option<string>,
    fallbackMethod: string,
    statusCallback: Option<string>,
    statusCallbackMethod: string,
    timeout: string,
    record: string,
    sendDigits: Option<string>,
    ifMachine: Option<string>)

  function RequiredMessage(field: string): string {
    "Required field " + Repr(field) + " not supplied"
  }

  const MissingUrlMessage := "Request must have an 'Url' or an 'ApplicationSid' field"

  function SendDigitsMessage(digits: string): string {
    "SendDigits value " + Repr(digits) + " is not valid. May only contain the characters (0-9), '#', '*' and 'w'"
  }

  const IfMachineMessage := "IfMachine value must be one of [None, 'Continue', 'Hangup']"

  /** `From` and `To` are given, and one of `Url` or `ApplicationSid`. */
  predicate RequiredPresent(args: Args) {
    && Given(Field(args, "From")) && Given(Field(args, "To"))
    && (Given(Field(args, "Url")) || Given(Field(args, "ApplicationSid")))
  }

  /** A given `SendDigits` uses only the allowed characters. */
  predicate DigitsValid(args: Args) {
    Given(Field(args, "SendDigits")) ==> AllIn(args["SendDigits"], SendDigitsChars)
  }

  /** A request is acceptable when its required fields are present, its
      `SendDigits` is valid, and `IfMachine` is left out or one of the
      allowed values. */
  predicate Acceptable(args: Args) {
    RequiredPresent(args) && DigitsValid(args) && IfMachineValid(Field(args, "IfMachine"))
  }

  /** `_validate_make_call_fields`: the required fields, then the optional
      ones with their defaults. The first rule broken decides the error, in
      the order `From`, `To`, `Url`/`ApplicationSid`, `SendDigits`,
      `IfMachine`, and the error is written in the request's format. */
  function ValidateMakeCall(args: Args, suffix: string): (r: Result<CallFields, UsageError>)
    ensures r.Ok? <==> Acceptable(args)
    ensures !Given(Field(args, "From")) ==> r == Err(UsageError(RequiredMessage("From"), suffix))
    ensures Given(Field(args, "From")) && !Given(Field(args, "To")) ==>
      r == Err(UsageError(RequiredMessage("To"), suffix))
    ensures Given(Field(args, "From")) && Given(Field(args, "To"))
            && !Given(Field(args, "Url")) && !Given(Field(args, "ApplicationSid")) ==>
      r == Err(UsageError(MissingUrlMessage, suffix))
    ensures RequiredPresent(args) && Given(Field(args, "SendDigits"))
            && !AllIn(args["SendDigits"], SendDigitsChars) ==>
      r == Err(UsageError(SendDigitsMessage(args["SendDigits"]), suffix))
    ensures RequiredPresent(args) && DigitsValid(args) && !IfMachineValid(Field(args, "IfMachine")) ==>
      r == Err(UsageError(IfMachineMessage, suffix))
    ensures r.Err? ==> r.error.format == suffix
    ensures r.Ok? ==>
      && r.value.from == args["From"] && r.value.to == args["To"]
      && r.value.url == Field(args, "Url") && r.value.applicationSid == Field(args, "ApplicationSid")
      && r.value.httpMethod == FieldOr(args, "Method", "POST")
      && r.value.fallbackUrl == Field(args, "FallbackUrl")
      && r.value.fallbackMethod == FieldOr(args, "FallbackMethod", "POST")
      && r.value.statusCallback == Field(args, "StatusCallback")
      && r.value.statusCallbackMethod == FieldOr(args, "StatusCallbackMethod", "POST")
      && r.value.timeout == FieldOr(args, "Timeout", "60")
      && r.value.record == FieldOr(args, "Record", "False")
  {
    var from := Field(args, "From");
    var to := Field(args, "To");
    var sendDigits := Field(args, "SendDigits");
    var ifMachine := Field(args, "IfMachine");
    if !Given(from) then Err(UsageError(RequiredMessage("From"), suffix))
    else if !Given(to) then Err(UsageError(RequiredMessage("To"), suffix))
    else if !Given(Field(args, "Url")) && !Given(Field(args, "ApplicationSid")) then
      Err(UsageError(MissingUrlMessage, suffix))
    else if Given(sendDigits) && !AllIn(sendDigits.value, SendDigitsChars) then
      Err(UsageError(SendDigitsMessage(sendDigits.value), suffix))
    else if !IfMachineValid(ifMachine) then Err(UsageError(IfMachineMessage, suffix))
    else
      Ok(CallFields(
        from.value, to.value, Field(args, "Url"), Field(args, "ApplicationSid"),
        FieldOr(args, "Method", "POST"),
        Field(args, "FallbackUrl"), FieldOr(args, "FallbackMethod", "POST"),
        Field(args, "StatusCallback"), FieldOr(args, "StatusCallbackMethod", "POST"),
        FieldOr(args, "Timeout", "60"), FieldOr(args, "Record", "False"),
        sendDigits, ifMachine))
  }

  /** The resource path of a call. */
  function CallUri(version: string, accountSid: string, callId: string): string {
    "/" + version + "/Accounts/" + accountSid + "/Calls/" + callId
  }

  /** The session `make_call` stores for a new outbound call, under the
      called number. */
  function OutboundSession(f: CallFields, accountSid: string, callId: string): (s: Session)
    ensures s.status == Queued && s.direction == OutboundApi
    ensures s.from == f.from && s.to == f.to && s.callId == callId && s.accountSid == accountSid
    ensures s.url == f.url && s.httpMethod == f.httpMethod
    ensures s.fallbackUrl == f.fallbackUrl && s.fallbackMethod == Some(f.fallbackMethod)
    ensures s.statusCallback == f.statusCallback && s.statusCallbackMethod == f.statusCallbackMethod
    ensures s.gatherAction.None? && s.gatherMethod.None?
  {
    Session(
      callId, accountSid, f.from, f.to, Queued, OutboundApi,
      f.url, f.httpMethod, f.fallbackUrl, Some(f.fallbackMethod),
      f.statusCallback, f.statusCallbackMethod, None, None)
  }

  function TextValue(s: string): Value {
    Leaf(Some(s))
  }

  const Nothing: Value := Leaf(None)

  /** The fields of the `Call` resource answered for a new call, in order: the call's id, creation time, account, parties,
      status, direction and API version, and its URIs under the call's URI
      with the request's format suffix as it was given; every other field
      is `None`. */
  function CallResource(f: CallFields, accountSid: string, callId: string, timestamp: string,
                        version: string, suffix: string): (es: seq<Entry>)
    ensures |es| == 22
    ensures es[0] == Entry("Sid", TextValue(callId))
    ensures es[1] == Entry("DateCreated", TextValue(timestamp)) && es[2] == Entry("DateUpdated", TextValue(timestamp))
    ensures es[4] == Entry("AccountSid", TextValue(accountSid))
    ensures es[5] == Entry("To", TextValue(f.to)) && es[6] == Entry("FormattedTo", TextValue(f.to))
    ensures es[7] == Entry("From", TextValue(f.from)) && es[8] == Entry("FormattedFrom", TextValue(f.from))
    ensures es[10] == Entry("Status", TextValue("queued")) && es[15] == Entry("Direction", TextValue("outbound-api"))
    ensures es[17] == Entry("ApiVersion", TextValue(version))
    ensures es[20] == Entry("Uri", TextValue(CallUri(version, accountSid, callId) + suffix))
    ensures es[3] == Entry("ParentCallSid", Nothing) && es[9] == Entry("PhoneNumberSid", Nothing)
    ensures es[11] == Entry("StartTime", Nothing) && es[12] == Entry("EndTime", Nothing)
    ensures es[13] == Entry("Duration", Nothing) && es[14] == Entry("Price", Nothing)
    ensures es[16] == Entry("AnsweredBy", Nothing) && es[18] == Entry("ForwardedFrom", Nothing)
    ensures es[19] == Entry("CallerName", Nothing)
    ensures es[21] == Entry("SubresourceUris", Dict([
      Entry("Notifications", TextValue(CallUri(version, accountSid, callId) + "/Notifications" + suffix)),
      Entry("Recordings", TextValue(CallUri(version, accountSid, callId) + "/Recordings" + suffix))]))
  {
    var uri := CallUri(version, accountSid, callId);
    var call := [
      Entry("Sid", TextValue(callId)),
      Entry("DateCreated", TextValue(timestamp)),
      Entry("DateUpdated", TextValue(timestamp)),
      Entry("ParentCallSid", Nothing),
      Entry("AccountSid", TextValue(accountSid))];
    var parties := [
      Entry("To", TextValue(f.to)),
      Entry("FormattedTo", TextValue(f.to)),
      Entry("From", TextValue(f.from)),
      Entry("FormattedFrom", TextValue(f.from)),
      Entry("PhoneNumberSid", Nothing)];
    var progress := [
      Entry("Status", TextValue("queued")),
      Entry("StartTime", Nothing),
      Entry("EndTime", Nothing),
      Entry("Duration", Nothing),
      Entry("Price", Nothing),
      Entry("Direction", TextValue("outbound-api"))];
    var rest := [
      Entry("AnsweredBy", Nothing),
      Entry("ApiVersion", TextValue(version)),
      Entry("ForwardedFrom", Nothing),
      Entry("CallerName", Nothing),
      Entry("Uri", TextValue(uri + suffix)),
      Entry("SubresourceUris", Dict([
        Entry("Notifications", TextValue(uri + "/Notifications" + suffix)),
        Entry("Recordings", TextValue(uri + "/Recordings" + suffix))]))];
    call + parties + progress + rest
  }

  /** The field names of the `Call` resource, in order. */
  const CallKeys: seq<string> := [
    "Sid", "DateCreated", "DateUpdated", "ParentCallSid", "AccountSid", "To", "FormattedTo", "From",
    "FormattedFrom", "PhoneNumberSid", "Status", "StartTime", "EndTime", "Duration", "Price", "Direction",
    "AnsweredBy", "ApiVersion", "ForwardedFrom", "CallerName", "Uri", "SubresourceUris"]

  lemma CallKeysDistinct()
    ensures forall i, j :: 0 <= i < j < |CallKeys| ==> CallKeys[i] != CallKeys[j]
  {
  }

  /** The `Call` resource's fields carry exactly the names of `CallKeys`, in
      that order. */
  lemma CallResourceKeys(f: CallFields, accountSid: string, callId: string, timestamp: string,
                         version: string, suffix: string)
    ensures var es := CallResource(f, accountSid, callId, timestamp, version, suffix);
      |es| == |CallKeys| && forall i :: 0 <= i < |es| ==> es[i].key == CallKeys[i]
  {
  }

  /** No two fields of the `Call` resource share a name. */
  lemma CallResourceDistinct(f: CallFields, accountSid: string, callId: string, timestamp: string,
                             version: string, suffix: string)
    ensures DistinctKeys(CallResource(f, accountSid, callId, timestamp, version, suffix))
  {
    CallResourceKeys(f, accountSid, callId, timestamp, version, suffix);
    CallKeysDistinct();
  }

  /** What one request does: the store afterwards, the transport messages
      sent, and the response; `None` when the handlers raised instead of
      writing one, leaving the answer to the web framework. */
  datatype Outcome = Outcome(store: Store, messages: seq<Message>, response: Option<HttpResponse>)

  /** `make_call`. A valid request sends the new-session message to the
      called number, remembers the message id against it, stores a queued
      outbound session under it, and answers with the `Call` resource. The
      format is checked only when the answer is written, after the call has
      been placed. */
  function MakeCall(store: Store, args: Args, accountSid: string, suffix: string, version: string,
                    callId: string, timestamp: string, messageId: string): (r: Outcome)
    ensures ValidateMakeCall(args, suffix).Err? ==>
      r == Outcome(store, [], ErrorResponse(ValidateMakeCall(args, suffix).error))
    ensures ValidateMakeCall(args, suffix).Ok? ==>
      var f := ValidateMakeCall(args, suffix).value;
      && r.messages == [Message(f.to, f.from, SessionNew, map[])]
      && r.store.lookup == store.lookup[messageId := f.to]
      && r.store.sessions == store.sessions[f.to := OutboundSession(f, accountSid, callId)]
      && r.response.Some?
      && (r.response.value.code == 200 <==> SelectFormat(suffix).Ok?)
      && (r.response.value.code != 200 ==> r.response == ErrorResponse(SelectFormat(suffix).error))
      && (SelectFormat(suffix).Ok? ==>
            r.response == Some(FormatResponse("Call", CallResource(f, accountSid, callId, timestamp, version, suffix), suffix, 200).value))
  {
    match ValidateMakeCall(args, suffix)
    case Err(e) => Outcome(store, [], ErrorResponse(e))
    case Ok(f) =>
      var placed := Store(store.sessions[f.to := OutboundSession(f, accountSid, callId)],
                          store.lookup[messageId := f.to]);
      var message := Message(f.to, f.from, SessionNew, map[]);
      Outcome(placed, [message], CallAnswer(f, accountSid, callId, timestamp, version, suffix))
  }

  /** The answer to a placed call: the `Call` resource with status 200 in the
      requested format, or the usage error for a format that is not valid. */
  function CallAnswer(f: CallFields, accountSid: string, callId: string, timestamp: string,
                      version: string, suffix: string): (r: Option<HttpResponse>)
    ensures r.Some?
    ensures r.value.code == 200 <==> SelectFormat(suffix).Ok?
    ensures r.value.code != 200 ==> r == ErrorResponse(SelectFormat(suffix).error)
    ensures SelectFormat(suffix).Ok? ==>
      r == Some(FormatResponse("Call", CallResource(f, accountSid, callId, timestamp, version, suffix), suffix, 200).value)
  {
    match FormatResponse("Call", CallResource(f, accountSid, callId, timestamp, version, suffix), suffix, 200)
    case Ok(response) => Some(response)
    case Err(e) => ErrorResponse(e)
  }
}
