# vumi-twilio-api in Dafny

A model of the core of vumi-twilio-api, a Twilio-compatible voice API built on
the Vumi messaging framework. The model covers:

- **Call markup (TwiML) parser.** It reads a `<Response>` document of `Play`,
  `Hangup` and `Gather` instructions (`TwiML`, `Url`). It checks their
  attributes in the same order as the source, and it produces the same error
  messages.
- **Voice worker.** The worker keeps one session record per call (`CallSession`).
  It fetches a call's markup from the client's URL, with a fallback URL
  (`Fetcher`). It runs the markup as one interpretation pass that speaks each
  Play and stops at the first Hangup or Gather (`Interpreter`). It reacts to
  delivery acks and nacks, Gather replies, inbound calls and hang-ups
  (`Worker`).
- **HTTP server.** It selects the response format from the URL suffix. It
  answers usage errors with an `Error` response. It validates a request to
  place a call, then creates the call's session and `Call` resource (`Gateway`).
- **Response objects.** Keys are converted to snake case for JSON
  (`Responses`). List items are sorted by sid (`Sorting`). Lists are paginated,
  and page attributes are written as XML attributes (`Pagination`).

Everything is pure functions over immutable datatypes. Redis-backed stores are
maps. The HTTP exchange is a function parameter from request to reply. Messages
handed to the transport are returned as values.

## Layout

| file | module | models |
|---|---|---|
| wrappers.dfy | Wrappers | `None`-or-value and value-or-exception |
| text.dfy | Text | `lower()`, `split`, `replace`, `strip`, `int()`, `str()` on ASCII text |
| url.dfy | Url | `urljoin` of a Gather's `action` against the document URL |
| xml.dfy | Xml | the element tree |
| twiml.dfy | TwiML | vumi_twilio_api/twiml_parser.py |
| session.dfy | CallSession | session record, stores, status rules, request parameters |
| fetcher.dfy | Fetcher | `_get_twiml_from_client` |
| interpreter.dfy | Interpreter | the verb loop of `_handle_connected_call` and `new_session`, `_send_message` |
| worker.dfy | Worker | `consume_ack`, `consume_nack`, `consume_user_message`, `new_session`, `close_session` |
| responses.dfy | Responses | `camel_to_snake`, `convert_dict_keys`, `Response.xml`, `ErrorResponse` |
| sorting.dfy | Sorting | `sorted(items, key=lambda k: k.sid)` under Python 2 ordering |
| pagination.dfy | Pagination | `ListResponse` paging and XML/JSON formatting |
| gateway.dfy | Gateway | `_format_response`, `usage_exception`, `make_call` and its validators |
| *_lemmas.dfy | … | properties relating several operations |

## Model

| member | source | states |
|---|---|---|
| TwiML.CheckInteger | vumi_twilio_api/twiml_parser.py:51-67 | accepts exactly the texts that parse as integers at or above the minimum and returns that integer; a text that does not parse gives "Must be an integer." with the raw text; an integer below the minimum gives "Must be >=" with the value and the minimum |
| TwiML.CheckIntegerRendered | vumi_twilio_api/twiml_parser.py:51-67 | the decimal rendering of any integer is accepted back as that integer when it meets the minimum and reported below the minimum otherwise |
| Text.SpaceAfterSign | vumi_twilio_api/twiml_parser.py:57 | `int()` skips whitespace after the sign: `"- 5"` is -5, and `" +\t7 "` is 7 |
| Text.ParseIntToString | vumi_twilio_api/twiml_parser.py:57-62 | `int(str(i)) == i` for every integer |
| TwiML.ParsePlay | vumi_twilio_api/twiml_parser.py:20-38 | `loop` is checked first (integer, at least 0, default 1); then every `digits` character must be one of 0-9 or `w`, and an offending value is quoted in the error; a parsed Play carries the element text as its URL |
| TwiMLLemmas.PlayDefaults | vumi_twilio_api/twiml_parser.py:20-38 | a Play without attributes loops once, has no digits, and keeps only its text, whatever its children |
| TwiMLLemmas.HangupIgnoresContent | vumi_twilio_api/twiml_parser.py:45-48 | any element whose lower-cased tag is `hangup` parses to a bare Hangup, whatever its attributes, text or children |
| TwiML.CheckNumDigits | vumi_twilio_api/twiml_parser.py:102-104 | `numDigits` is absent exactly when the result is empty; when present it is at least 1 |
| TwiML.FirstInvalidSubVerb | vumi_twilio_api/twiml_parser.py:107-112 | none is found exactly when every nested instruction is a Say or a Play; the one found is neither |
| TwiML.ParseGather | vumi_twilio_api/twiml_parser.py:74-120 | a parsed Gather has its action resolved against the document URL, a method of GET or POST, a timeout of at least 0, a finish key that passes the substring test and is at most one character, a numDigits of at least 1, and only Say/Play nested |
| TwiMLLemmas.BareGather | vumi_twilio_api/twiml_parser.py:74-120 | a Gather without attributes fails with its children's error, or with the first disallowed nested instruction, or parses as action = document URL, POST, 5 seconds, finish key `#`, no digit count |
| TwiMLLemmas.GatherDefaults | vumi_twilio_api/twiml_parser.py:78-104 | an empty Gather posts back to the document URL with POST, waits 5 seconds for any number of digits and finishes on `#` |
| TwiMLLemmas.GatherMethodCheckedFirst | vumi_twilio_api/twiml_parser.py:81-86 | a method other than GET or POST is reported before any other attribute is looked at |
| TwiMLLemmas.GatherKeyLengthBeforeCharset | vumi_twilio_api/twiml_parser.py:91-95 | a finish key longer than one character fails on its length, before its characters are checked |
| TwiMLLemmas.GatherKeyOutsideCharset | vumi_twilio_api/twiml_parser.py:96-100 | a one-character finish key outside "0123456789#*" is rejected with the key quoted |
| TwiMLLemmas.GatherAcceptsEmptyKey | vumi_twilio_api/twiml_parser.py:91-100 | an empty finish key passes both checks, because the second check is a substring test |
| TwiMLLemmas.GatherKeyIsShort | vumi_twilio_api/twiml_parser.py:91-100 | every parsed Gather finishes on nothing or on one character of "0123456789#*" |
| Text.ContainsShort | vumi_twilio_api/twiml_parser.py:96-97 | for a needle of at most one character, the substring test is character membership, and the empty needle always passes |
| TwiMLLemmas.GatherNestedSay | vumi_twilio_api/twiml_parser.py:106-112 | a nested Say fails at dispatch because no Say parser exists, even though the sub-verb list allows Say |
| TwiMLLemmas.GatherNestedHangup | vumi_twilio_api/twiml_parser.py:106-112 | a nested Hangup parses but is rejected as an invalid sub verb |
| TwiMLLemmas.GatherNounsArePlays | vumi_twilio_api/twiml_parser.py:106-112 | everything a parsed Gather holds is a Play |
| TwiML.ParseVerb | vumi_twilio_api/twiml_parser.py:155-165 | the lower-cased tag picks the parser, and the parsed instruction has that name; any other tag fails with "Cannot find parser" naming the tag as written |
| TwiML.ParseList | vumi_twilio_api/twiml_parser.py:145-153 | succeeds exactly when every element parses, giving one instruction per element in order; otherwise the error is that of the first element that fails |
| TwiML.Parse | vumi_twilio_api/twiml_parser.py:132-143 | a root other than `Response` is refused naming the tag; otherwise the children are parsed in order |
| TwiMLLemmas.InvalidRootMessage | vumi_twilio_api/twiml_parser.py:136-138 | root `foobar` is refused with "Invalid root 'foobar'. Should be 'Request'." |
| TwiMLLemmas.UnknownVerbMessage | vumi_twilio_api/twiml_parser.py:155-156 | an `Sms` child is refused with "Cannot find parser for verb 'Sms'", the tag not lower-cased |
| Url.Resolve | vumi_twilio_api/twiml_parser.py:78-79 | an absent or empty action resolves to the document URL; an action against an empty base, against a base whose scheme does not take relative references, or with a scheme other than the base's, is kept as given; an action that is only the base's scheme gives the base without its fragment |
| Url.AbsoluteSameSchemeKept | vumi_twilio_api/twiml_parser.py:78-79 | an action with an authority, written with the base's own scheme, is kept as given |
| Url.ResolveJoins | vumi_twilio_api/twiml_parser.py:78-79 | an action without a scheme, against a base whose scheme takes relative references, is merged into the base |
| Url.ResolveSameSchemeJoins | vumi_twilio_api/twiml_parser.py:78-79 | an action that repeats the base's scheme is merged as if the scheme were not there |
| Url.SameSchemeIgnored | vumi_twilio_api/twiml_parser.py:78-79 | writing the base's own scheme in front of a relative action does not change where it resolves |
| Url.ResolveSameScheme | vumi_twilio_api/twiml_parser.py:79 | `http:c` against `http://h/a/b` gives `http://h/a/c` |
| Url.ResolveAgainstTel | vumi_twilio_api/twiml_parser.py:79 | `x` against `tel:123` is kept as `x`, because `tel` does not take relative references |
| Url.ResolveRootRelative | vumi_twilio_api/twiml_parser.py:79 | `/suburl` against `http://test_url` gives `http://test_url/suburl` |
| Url.ResolveBareName | vumi_twilio_api/twiml_parser.py:79 | `action_url` against `test_url` gives `action_url` |
| CallSession.StatusAfter | vxtwinio/twilio_api.py:217-236 | only a queued session moves; an ack moves it to in-progress and a nack to failed |
| CallSession.DeliveryActsOnce | vxtwinio/twilio_api.py:224-236 | once an ack or nack has moved a session, no later ack or nack moves it again |
| CallSession.RequestData | vxtwinio/twilio_api.py:120-129 | the parameters sent are exactly the seven fields, and call id, status, addresses and direction are the session's |
| CallSession.InboundSession | vxtwinio/twilio_api.py:243-254 | an inbound session is in progress and inbound, fetches from the configured client path and method, and has no fallback and no pending Gather |
| Fetcher.Decode | vxtwinio/twilio_api.py:140-142 | a body that is not XML is an error; otherwise the result is the parser's result against the given URL |
| Fetcher.PrimaryOf | vxtwinio/twilio_api.py:135-136 | the primary endpoint exists exactly when the session has a URL, with the session's method |
| Fetcher.FallbackOf | vxtwinio/twilio_api.py:137-139 | the fallback exists exactly when the fallback URL and method are both recorded |
| Fetcher.FetchMarkup | vxtwinio/twilio_api.py:132-142 | at most two requests; the first always goes to the primary endpoint; a second goes to the fallback exactly when the first reply is not 2xx; without a fallback a failed primary is an error; the last reply is parsed against the primary URL |
| Fetcher.PrimarySuccessIsFinal | vxtwinio/twilio_api.py:135-142 | a 2xx primary reply is the only request made, and its body is what is parsed |
| Fetcher.FallbackStatusIgnored | vxtwinio/twilio_api.py:137-142 | a failing fallback reply is still parsed: its status is never checked |
| Interpreter.GatherPrompts | vxtwinio/twilio_api.py:165-169 | the URLs of the nested Plays, in order; nothing for anything else |
| Interpreter.GatherActions | vxtwinio/twilio_api.py:165-179 | a Gather sends one prompt per nested Play, or a single prompt without a URL; only the last waits, for the finish key |
| Interpreter.InterpretIsFlat | vxtwinio/twilio_api.py:154-180 | the loop equals its flat description: each leading Play speaks in order; the first Hangup adds only the close and clears the session; the first Gather adds its prompts and leaves its action and method pending; nothing after either runs |
| InterpreterLemmas.SameStopSamePass | vxtwinio/twilio_api.py:154-180 | two documents that agree up to and including their first Hangup or Gather produce the same pass |
| InterpreterLemmas.NothingAfterStop | vxtwinio/twilio_api.py:158-180 | cutting a document after any Hangup or Gather in it does not change the pass |
| InterpreterLemmas.HangupClosesOnce | vxtwinio/twilio_api.py:158-162 | a pass clears the session exactly when a Hangup stops it, exactly when it sends a close; that close is the last message, it is sent only once, and the session is left unchanged |
| InterpreterLemmas.GatherWaitsOnLast | vxtwinio/twilio_api.py:163-180 | a pass that stops at a Gather waits for input on its last message only, for the Gather's finish key, and records the Gather's action and method |
| InterpreterLemmas.ParsedGatherPrompts | vxtwinio/twilio_api.py:165-175 | for a parsed Gather, one prompt per nested Play with that Play's URL, or exactly one empty prompt |
| Interpreter.Render | vxtwinio/twilio_api.py:182-195 | a close sent to a session carries no voice data, while a close replying to an inbound message carries that message's voice metadata over; a message sent to a session goes to its `To` from its `From`, with `speech_url`/`wait_for` present only when set; a reply to an inbound message goes back to the caller; a Play reply names only `speech_url`, always; a Gather prompt reply names both `speech_url` and `wait_for`, even when unset |
| Worker.AfterPass | vxtwinio/twilio_api.py:161-172 | after a pass a cleared session is gone and any other is saved as the pass left it; no other session and no lookup entry changes |
| Worker.ConnectedCall | vxtwinio/twilio_api.py:145-180 | the new status is saved before anything else; a failed fetch leaves that saved session and sends nothing; otherwise the pass's messages go to the session's `To`, and the session is cleared or saved as the pass decides; no other session changes |
| Worker.ConsumeEvent | vxtwinio/twilio_api.py:217-236 | the lookup entry is consumed in every case; an unknown id or session fails and changes nothing else; a session that is not queued is left alone; a queued session is connected with the status the event moves it to |
| Worker.GatherFetch | vxtwinio/twilio_api.py:205-212 | the refetch for a Gather reply makes its first request to the Gather's action and method, with the session's parameters plus the reply as `Digits` |
| Worker.ConsumeUserMessage | vxtwinio/twilio_api.py:197-215 | a reply for a session with a pending Gather makes one request to the Gather's action and method, with the session's parameters plus `Digits`; it fails exactly when that fetch fails; otherwise the session is run in progress through the fetched markup, its messages are sent, it is cleared or saved as the pass decides, and no other session changes; any other reply does nothing |
| Worker.NewSession | vxtwinio/twilio_api.py:238-292 | an inbound call records its message id against the caller, fetches from the configured client endpoint with the new session's parameters, and addresses every reply to the caller from the called number; it fails exactly when that fetch fails, keeping the new session; otherwise the pass's messages are sent and the session is cleared or saved as the pass decides |
| Worker.CloseSession | vxtwinio/twilio_api.py:294-307 | the session is removed; exactly one callback is made, when a callback URL other than empty or "None" was configured; it goes to that URL with the callback method and carries the session's full parameter set, reporting `completed` |
| WorkerLemmas.DuplicateEventIgnored | vxtwinio/twilio_api.py:217-236 | a second ack or nack for the same message finds its entry consumed and changes nothing |
| WorkerLemmas.AckFetchesInProgress | vxtwinio/twilio_api.py:217-225 | an ack for a queued call asks the session's URL and method for markup, reporting the call in progress |
| WorkerLemmas.NackStillFetchesPrimary | vxtwinio/twilio_api.py:227-236 | a nack for a queued call still asks the primary URL, reporting the call failed |
| WorkerLemmas.HangupEndsCall | vxtwinio/twilio_api.py:154-162 | a pass that reaches a Hangup removes the session and sends one message per leading Play and then the single close, without voice metadata |
| WorkerLemmas.GatherReplyPostsToAction | vxtwinio/twilio_api.py:163-215 | after a pass stops at a Gather, the caller's reply is posted to that Gather's action and method, with the reply as `Digits` and the status the pass ran with |
| WorkerLemmas.ReplyRevivesFailedCall | vxtwinio/twilio_api.py:197-215 | a reply to a pending Gather puts even a failed call back in progress |
| WorkerLemmas.InboundReplyAddressedToCalledNumber | vxtwinio/twilio_api.py:182-215 | the messages that follow a Gather reply on an inbound call go to the session's `To` (the called number), not to the caller |
| WorkerLemmas.CloseIsIdempotent | vxtwinio/twilio_api.py:294-307 | a second hang-up for the same caller changes nothing and makes no callback |
| WorkerLemmas.InboundCallClosed | vxtwinio/twilio_api.py:238-256 | an inbound call that is hung up leaves no session, but its message-id entry remains |
| WorkerLemmas.InboundHangupEndsCall | vxtwinio/twilio_api.py:258-271 | an inbound call whose markup reaches a Hangup removes the caller's session and answers the caller with one message per leading Play and then a single close, which carries the inbound message's voice metadata |
| WorkerLemmas.InboundGatherPending | vxtwinio/twilio_api.py:272-282 | an inbound call whose markup stops at a Gather keeps the caller's session with that Gather pending |
| WorkerLemmas.PendingReplyPosts | vxtwinio/twilio_api.py:197-215 | a reply to a session with a pending Gather posts to its action and method, with the reply as `Digits` and the session's status |
| WorkerLemmas.InboundGatherReplyPostsToAction | vxtwinio/twilio_api.py:197-292 | on an inbound call that stops at a Gather, the caller's reply is posted to the Gather's action and method, reporting the call in progress |
| Gateway.LStripDots | vxtwinio/twilio_api.py:491 | the result is a suffix of the input with no leading dot, and only dots were removed |
| Gateway.SelectFormat | vxtwinio/twilio_api.py:490-496 | XML exactly when the lower-cased, dot-stripped suffix is empty or `xml`; JSON exactly when it is `json`; anything else is a usage error, written as XML, that quotes the name |
| GatewayLemmas.FormatIgnoresDotsAndCase | vxtwinio/twilio_api.py:491 | a leading dot or a change of letter case never changes the format chosen |
| GatewayLemmas.FormatRoundTrip | vxtwinio/twilio_api.py:490-496 | each format's own name, with or without a dot, selects that format, and an empty suffix selects XML |
| GatewayLemmas.UnknownFormatExample | vxtwinio/twilio_api.py:494-496 | `.foo` is refused with "'foo' is not a valid request format", to be written as XML |
| GatewayLemmas.UpperCaseFormatExample | vxtwinio/twilio_api.py:491 | `.JSON` selects JSON |
| Gateway.FormatResponse | vxtwinio/twilio_api.py:490-498 | succeeds exactly when the format is valid; the content type is `application/` plus the format name; an XML body holds the response element with its fields; a JSON body is the snake-cased dictionary |
| Gateway.ErrorResponse | vxtwinio/twilio_api.py:500-505 | a usage error is answered with status 400 and an `Error` response in the error's own format, or, when that format is invalid too, by no answer of the handler's own (the error handler raises) |
| GatewayLemmas.XmlErrorAnswered | vxtwinio/twilio_api.py:500-505 | an error to be written as XML is always answered, with 400 and `application/xml` |
| Gateway.Field | vxtwinio/twilio_api.py:597-598 | the first value of a field that is present, and nothing otherwise |
| Gateway.FieldOr | vxtwinio/twilio_api.py:597-598 | the first value of a field, or the default when the field is absent |
| Gateway.ValidateMakeCall | vxtwinio/twilio_api.py:600-656 | accepts exactly the acceptable requests; otherwise it reports the first failing rule, in the order From, To, Url-or-ApplicationSid, SendDigits, IfMachine, in the request's format; accepted fields take defaults POST/POST/POST, "60" and "False" |
| GatewayLemmas.BadSendDigitsExample | vxtwinio/twilio_api.py:634-640 | `SendDigits` "0a*" is refused with the value quoted |
| GatewayLemmas.FullSendDigitsAccepted | vxtwinio/twilio_api.py:634-640 | a `SendDigits` value using every allowed character is accepted |
| Gateway.OutboundSession | vxtwinio/twilio_api.py:542-560 | the new session is queued and outbound-api, with the request's addresses, endpoints and methods, and no pending Gather |
| Gateway.CallResource | vxtwinio/twilio_api.py:561-589 | the Call resource has 22 fields in the source's order; its sid is the call id, its account, `To`, `From` and API version are the request's, both timestamps are the placing time, its status is queued, its direction is outbound-api, its URI is the call's URI with the format suffix as given, its subresource URIs extend the call's URI, and the nine other fields (`ParentCallSid`, `PhoneNumberSid`, `StartTime`, `EndTime`, `Duration`, `Price`, `AnsweredBy`, `ForwardedFrom`, `CallerName`) are unset |
| Gateway.CallResourceKeys | vxtwinio/twilio_api.py:561-589 | the Call resource's field names are exactly `CallKeys`, in order |
| Gateway.CallResourceDistinct | vxtwinio/twilio_api.py:561-589 | no two fields of the Call resource share a name |
| Gateway.CallAnswer | vxtwinio/twilio_api.py:561-589 | a placed call is always answered: with status 200 and the Call resource in the requested format exactly when that format is valid, and otherwise with the usage error for the format |
| Gateway.MakeCall | vxtwinio/twilio_api.py:534-589 | a refused request changes nothing and is answered with the usage error; an accepted one sends one new-session message, records the message id and a queued session under `To`, and is answered 200 exactly when its format is valid, with the Call resource in that format as the body |
| GatewayLemmas.InvalidFormatStillPlacesCall | vxtwinio/twilio_api.py:542-561 | an acceptable request with an unknown format still queues the call, and is answered 400 in XML |
| GatewayLemmas.RefusedWithInvalidFormatHandlerFails | vxtwinio/twilio_api.py:500-505 | a refused request naming an unknown format changes nothing, and the error handler raises instead of answering |
| GatewayLemmas.PlacedCallConnectsOnAck | vxtwinio/twilio_api.py:557-560 | the ack for a placed call finds the queued session and requests the call's `Url` with its method, reporting an outbound-api call in progress under the new call id |
| GatewayLemmas.ApplicationSidCallCannotConnect | vxtwinio/twilio_api.py:613-616 | a call placed with an `ApplicationSid` and no `Url` cannot fetch markup when acked: the model reports `MissingEndpoint` where the source asks the URL "None" |
| Responses.CamelToSnake | vxtwinio/responses/base.py:9-13 | the result is at least as long as the key and has no upper-case letter |
| Responses.UnderscoreStripped | vxtwinio/responses/base.py:9-13 | the substitution only inserts underscores |
| Responses.CamelToSnakeStripped | vxtwinio/responses/base.py:9-13 | removing underscores from the snake-case key gives the lower-cased key with its underscores removed |
| Responses.UnderscoreChars | vxtwinio/responses/base.py:9-13 | the substitution keeps every character other than the underscore and adds no other |
| Responses.UnderscoreGrows | vxtwinio/responses/base.py:9-13 | away from the start, a capital or `+` lengthens the key |
| Responses.CamelToSnakeIdempotent | vxtwinio/responses/base.py:9-13 | converting twice equals converting once exactly when no `+` follows the first character |
| Responses.CamelToSnakeExample | vxtwinio/responses/base.py:9-13 | `FooBar` becomes `foo_bar` |
| Responses.Put | vxtwinio/responses/base.py:20-22 | storing keeps keys distinct; an existing key keeps its place with the new value; a new key is appended; no other entry changes |
| Responses.ConvertedKeys | vxtwinio/responses/base.py:16-23 | the keys of the converted dictionary are exactly the converted keys |
| Responses.ConvertKeepsShape | vxtwinio/responses/base.py:16-23 | when no two keys collide after conversion, each entry keeps its place, with its key converted and its value converted recursively |
| Responses.ConvertIsSnake | vxtwinio/responses/base.py:16-23 | no key at any depth of a converted dictionary has an upper-case letter |
| Responses.ToElements | vxtwinio/responses/base.py:39-47 | one child element per field, in order, tagged with the field's key and without attributes |
| Responses.ResponseXml | vxtwinio/responses/base.py:34-50 | `TwilioResponse` holds one element named for the response, with one child per field |
| Responses.XmlRoundTrip | vxtwinio/responses/base.py:39-47 | reading the XML tree back gives the fields again, for dictionaries with no empty nested dictionary |
| Responses.EmptyDictReadsAsLeaf | vxtwinio/responses/base.py:41-43 | an empty nested dictionary reads back as a field without text |
| Sorting.StrLessIrreflexive | vxtwinio/responses/base.py:78 | no string sorts before itself |
| Sorting.StrLessTransitive | vxtwinio/responses/base.py:78 | string order is transitive |
| Sorting.StrLessTotal | vxtwinio/responses/base.py:78 | any two different strings are ordered one way or the other |
| Sorting.KeyLessIrreflexive | vxtwinio/responses/base.py:78 | no sort key, `None` included, sorts before itself |
| Sorting.KeyLessTransitive | vxtwinio/responses/base.py:78 | sid order, with `None` first, is transitive |
| Sorting.KeyLessTotal | vxtwinio/responses/base.py:78 | any two different sort keys are ordered |
| Sorting.KeyAtMostTransitive | vxtwinio/responses/base.py:78 | "not after" is transitive |
| Sorting.Insert | vxtwinio/responses/base.py:78 | an insertion step adds exactly the one item |
| Sorting.InsertSorted | vxtwinio/responses/base.py:78 | inserting into sorted items keeps them sorted |
| Sorting.SortSorted | vxtwinio/responses/base.py:78 | the result is sorted by sid and is a permutation of the input |
| Sorting.SortKeepsSorted | vxtwinio/responses/base.py:78 | items that are already sorted come back unchanged |
| Pagination.MakeList | vxtwinio/responses/base.py:72-78 | a list keeps its URI and holds its items sorted by sid, none lost or added |
| Pagination.NumPages | vxtwinio/responses/base.py:82 | at least one page; exactly one for an empty list; otherwise the fewest pages of the given size that hold every item |
| Pagination.Slice | vxtwinio/responses/base.py:89 | a slice starting inside the list is the items from the start up to the end or the list's end |
| Pagination.FirstAfter | vxtwinio/responses/base.py:84-85 | the first index whose sid sorts after the given sid, or none when no such item exists |
| Pagination.Position | vxtwinio/responses/base.py:83-88 | without an after-sid a page starts `page` pages in; with one it starts at the first item after that sid and is numbered by integer division, or fails when there is none |
| Pagination.Build | vxtwinio/responses/base.py:89-119 | the page's number, start, size, total and page count; its items are the slice from its start; its end is its start plus its item count; a next-page URI exists exactly when the page is full |
| Pagination.BuildUris | vxtwinio/responses/base.py:90-117 | every URI is on the list's URI with its query dropped; the first-page URI names this page and the last-page URI the last page; a previous page exists except on page 0; the next URI names this page's last sid |
| Pagination.PageAsWritten | vxtwinio/responses/base.py:80-119 | the source as written: the size is capped at 1000; an after-sid with no item after it fails; otherwise the page is built from the position found |
| Pagination.GetPage | vxtwinio/responses/base.py:80-119 | as written, except that the next-page URI is withheld when the page reaches the last item |
| Pagination.FullPage | vxtwinio/responses/base.py:91-95 | a page that offers a next page is full, and more items follow it |
| Pagination.PageAfter | vxtwinio/responses/base.py:83-86 | with strictly increasing sids, the page after the sid at index `last` starts at `last + 1` |
| Pagination.NextPageContinues | vxtwinio/responses/base.py:91-95 | following a next-page URI gives a page that starts where this one ended and is numbered one more |
| Pagination.FullLastPageDeadEnd | vxtwinio/responses/base.py:91-95 | the as-written next-page URI of a full last page leads to a request that fails; the corrected page offers none |
| Pagination.FormattedKeys | vxtwinio/responses/base.py:121-128 | the formatted attributes have exactly the attribute names with underscores removed |
| Pagination.FormattedValues | vxtwinio/responses/base.py:121-128 | each attribute value is written as `str()` would write it, with `None` as the empty string |
| Pagination.FormatXml | vxtwinio/responses/base.py:130-142 | the XML page holds the formatted attributes of the page as the source computes it, a full last page's dead-end next-page URI included, and each item's own element, in order |
| Pagination.FormatJson | vxtwinio/responses/base.py:144-149 | the JSON page holds the attributes of the page as the source computes it and, under the snake-cased list name, each item's converted dictionary |

## Where the model follows the code over its documentation

- A nack still fetches markup, from the primary URL, reporting the call as `failed`.
- After a failed primary fetch, the fallback reply's body is parsed even when the fallback also fails. The body is parsed against the primary URL.
- A reply to a pending Gather puts the call back in progress, whatever its status was.
- The refetch for a Gather reply names no usable fallback. The dictionary it builds spells the key `Fallback_Url`, while the fetch reads `FallbackUrl`. A failed Gather refetch is therefore a fetch error.
- `make_call` always stores `Url` and `FallbackUrl` in the session (vxtwinio/twilio_api.py:605-606, 630-632). A field the request left out is stored as the text "None", and the fetch then asks that text as a URL. An inbound session has no `FallbackUrl` key at all (vxtwinio/twilio_api.py:243-254), so its fallback fetch fails on the missing key. The model keeps an absent URL as no endpoint, and reports a fetch from the URL "None" or from the missing key as `MissingEndpoint`. This covers a call placed by `ApplicationSid` alone.
- An ack or nack for an unknown message id, or for a vanished session, fails. The lookup entry is still consumed, because the source deletes it before it loads the session.
- The messages that follow a Gather reply go to the session's `To` from its `From`, even on an inbound call.
- Error responses name the exception class, `TwilioAPIUsageException`.
- `make_call` checks the response format only after the call is placed. An invalid format does not stop the call.

## Left out

- The pages are not tied to serialised text. XML lexing (`ET.fromstring`) and serialisation (`ET.tostring`) are outside the model. So is `json.dumps`. Bodies are element trees or field sequences, and a body that is not XML is represented as `None`.
- vxtwinio/twiml_parser.py is not part of this model. The parser modelled is vumi_twilio_api/twiml_parser.py.
- Network, Redis and transport I/O are abstracted. HTTP is a request-to-reply function. Stores are maps. Sent messages are returned in order. Lookup-entry expiry and the Deferred scheduling are not modelled, and each handler runs atomically.
- Random ids (`_get_sid`), the timestamp and the transport's message id are parameters.
- The worker's configuration classes, setup and teardown are not modelled. Neither are the `root` and `Applications` routes, nor the `Version` and `Applications` response classes. They are outside the modelled core.
- The duplicate `Response`/`ListResponse` classes in vxtwinio/twilio_api.py are modelled once, through vxtwinio/responses/base.py. The two copies differ only in whether `uri` is given to the constructor or to each format call.
- Text.ParseInt: Python 2 `int()` is modelled as optional surrounding whitespace, an optional sign, optional whitespace after the sign, and at least one ASCII digit. Not modelled: the `L` suffix, which Python 2 accepts only on a value too large for a C `long` (the bound depends on the platform's word size), so the model refuses `5L` and `99999999999999999999L` alike. Nor are non-ASCII digits: an attribute with non-ASCII text reaches `int()` as `unicode`, which reads `u"\u0663"` as 3, where the model reports "Must be an integer."
- Gateway.SelectFormat: text is treated as ASCII. A non-ASCII format suffix makes `str()` (vxtwinio/twilio_api.py:491) raise `UnicodeEncodeError`, which the web framework answers with status 500; the model answers it with the 400 usage error.
- Gateway.ErrorResponse: when the error's own format is invalid, `usage_exception` raises from inside the error handler (vxtwinio/twilio_api.py:494-496, 500-505), and the web framework answers with its own status-500 page. The model records only that the handlers gave no answer (`None`); the framework's page is outside the model.
- Text.Repr: Python `%r` of a string is modelled as the string in single quotes, without escaping.
- Url.Resolve: Python 2.7 `urljoin` is modelled through its `uses_relative` list, its same-scheme rule and the merge of section 5.2 of RFC 3986. Not modelled: Python's own scheme detection (a scheme whose remainder is all digits, other than `http`, is not split off), the normalisation `urlunparse` applies (a lower-cased scheme, dropped empty query and fragment), `;params`, and the removal of `.` and `..` segments. Also not modelled: a scheme that starts with a digit, which Python 2.7 accepts and the model does not treat as a scheme, and `urljoin("", None)`, which returns `None` where the model gives the empty base.
- Responses.ToElements: Python 2 dictionaries, and `iteritems()` over them, follow hash order. The model fixes the order of fields as listed, so the child order of an XML body, the key order of a JSON body and the order of the formatted XML attributes are not the source's, which is unspecified.
- Responses.Put: a new key is appended, where a Python 2 dictionary places it by hash. The field order of the `Call` resource and of every converted dictionary is therefore the model's choice.
- Fetcher.FetchMarkup: a request to the URL "None" is not listed among the requests a fetch makes; it is reported as `MissingEndpoint`.
- Fetcher.FetchMarkup: the HTTP exchange is a total function from request to reply, so a request that raises (a refused connection, a URL the client rejects) is not modelled. In the source such an exception ends the handler at once, with no fallback request, after the session has been saved with its new status (vxtwinio/twilio_api.py:134-135, 150-151). The promise that a second request goes to the fallback exactly when the first reply is not 2xx, and the handlers' failing exactly when the fetch fails, hold only for exchanges that return a reply.
- Pagination.NumPages: the float `ceil` is replaced by integer ceiling division, which agrees for every list size that fits in a float.
- Pagination.GetPage: a page size below 1 is excluded. The source divides by zero for a size of 0, and pages by a negative size otherwise.
- Sorting.SortSorted: the sort's stability among items with equal sids is not stated.
- Sorting.SidIn: a `Sid` holding a nested dictionary is treated as `None`.
- Pagination.NextPageContinues: it is stated only for lists whose sids are all present and strictly increasing, as call sids are.
- Gateway.ValidateMakeCall: `Timeout` and `Record` keep their defaults as the texts "60" and "False", the values a stored session reads back. `SendDigits`, `IfMachine`, `Timeout` and `Record` are validated but not kept in the session, because no modelled handler reads them.
- The `loop` and `digits` attributes of Play and the `timeout` and `numDigits` attributes of Gather are parsed and checked but have no effect on a call, as in the source.

## Findings

| source | as written | input that shows it | evidently intended | confidence | as-written member | corrected member |
|---|---|---|---|---|---|---|
| vxtwinio/responses/base.py:91-95 | a next-page URI is offered whenever the page is full, even when the page ends at the last item | two items with sids "0" and "1", page 0, page size 2: the page offers `AfterSid=1`, and following it finds no item after "1" and raises `StopIteration` | no next-page URI when no item follows the page | not executed | Pagination.PageAsWritten, Pagination.FullLastPageDeadEnd | Pagination.GetPage, Pagination.NextPageContinues |

The XML and JSON page formatters keep the behaviour as written: they serve `Pagination.PageAsWritten`, so a full last page still offers the dead-end next-page URI. `Pagination.GetPage` states what the next-page rule was evidently meant to be.
