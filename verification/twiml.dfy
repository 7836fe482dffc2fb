/** The call-markup (TwiML) parser of vumi_twilio_api/twiml_parser.py.

    Input is an already-lexed element tree: the XML text itself and its lexer
    are not modelled. The root must be tagged `Response`; each child is
    dispatched on its lower-cased tag to the Play, Hangup or Gather parser, and
    any other tag is an error. A Gather parses its own children the same way
    and then admits only `Say` and `Play` among them. Every failure is a
    `ParseError`, rendered to the source's exact message by `Describe`. */
module TwiML {
  import opened Wrappers
  import opened Text
  import opened Xml
  import Url

  /** A parsed instruction. Play's single noun is its element text; Hangup has
      neither attributes nor nouns; Gather's nouns are its parsed children. */
  datatype Verb =
    | Play(loop: int, digits: Option<string>, url: Option<string>)
    | Hangup
    | Gather(
        action: string,
        httpMethod: string,
        timeout: int,
        finishOnKey: string,
        numDigits: Option<int>,
        nouns: seq<Verb>)
  {
    /** The class-level `name` of the instruction. */
    function Name(): string {
      match this
      case Play(_, _, _) => "Play"
      case Hangup => "Hangup"
      case Gather(_, _, _, _, _, _) => "Gather"
    }
  }

  /** The source's `TwiMLParseError`, one constructor per message it raises. */
  datatype ParseError =
    | InvalidRoot(tag: string)
    | NoParser(tag: string)
    | NotAnInteger(field: string, raw: string)
    | BelowMinimum(field: string, value: int, minimum: int)
    | InvalidDigits(digits: string)
    | InvalidMethod(given: string)
    | FinishOnKeyTooLong(key: string)
    | InvalidFinishOnKey(key: string)
    | InvalidSubVerb(name: string)

  const DigitsChars := "0123456789w"
  const FinishKeys := "0123456789#*"
  const Methods := ["GET", "POST"]
  const SubVerbs := ["Say", "Play"]

  /** The text of the exception raised for `e`. The invalid-root message names
      'Request' although the tag the parser requires is `Response`. */
  function Describe(e: ParseError): string {
    match e
    case InvalidRoot(tag) =>
      "Invalid root " + Repr(tag) + ". Should be 'Request'."
    case NoParser(tag) =>
      "Cannot find parser for verb " + Repr(tag)
    case NotAnInteger(field, raw) =>
      "Invalid value " + Repr(raw) + " for " + field + " parameter. Must be an integer."
    case BelowMinimum(field, value, minimum) =>
      "Invalid value " + IntToString(value) + " for " + field
      + " parameter. Must be >= " + IntToString(minimum)
    case InvalidDigits(digits) =>
      "Invalid value " + Repr(digits)
      + " for 'digits' attribute in Play verb. Must be one of '0123456789w'"
    case InvalidMethod(given) =>
      "Invalid value " + Repr(given) + " for method attribute. Must be one of ['GET', 'POST']"
    case FinishOnKeyTooLong(key) =>
      "Invalid value " + Repr(key) + " for finishOnKey parameter. Must only be one character"
    case InvalidFinishOnKey(key) =>
      "Invalid value " + Repr(key) + " for finishOnKey parameter. Must be one of '0123456789#*'"
    case InvalidSubVerb(name) =>
      "Invalid sub verb " + Repr(name) + " for Gather verb. Must be one of ['Say', 'Play']"
  }

  /** An integer-valued attribute as it reaches `check_integer`: the attribute's
      text, or the integer default used when the attribute is absent. */
  datatype Raw = Given(text: string) | Default(value: int)

  /** Python's `int(...)` of a raw attribute. */
  function IntegerOf(raw: Raw): Option<int> {
    match raw
    case Given(text) => ParseInt(text)
    case Default(value) => Some(value)
  }

  /** `xml.attrib.get(key)`. */
  function Attribute(e: Element, key: string): Option<string> {
    if key in e.attrs then Some(e.attrs[key]) else None
  }

  /** `xml.attrib.get(key, default)` for an integer default. */
  function AttributeOr(e: Element, key: string, default: int): Raw {
    if key in e.attrs then Given(e.attrs[key]) else Default(default)
  }

  /** `check_integer(name, integer, minimum)`: the parsed integer when it is at
      least `minimum`; "Must be an integer." when the text does not parse, and
      "Must be >= minimum" when it parses below the minimum. */
  function CheckInteger(name: string, raw: Raw, minimum: Option<int>): (r: Result<int, ParseError>)
    ensures r.Ok? <==> IntegerOf(raw).Some? && (minimum.None? || IntegerOf(raw).value >= minimum.value)
    ensures r.Ok? ==> Some(r.value) == IntegerOf(raw)
    ensures IntegerOf(raw).None? ==> r == Err(NotAnInteger(name, raw.text))
    ensures IntegerOf(raw).Some? && minimum.Some? && IntegerOf(raw).value < minimum.value ==>
      r == Err(BelowMinimum(name, IntegerOf(raw).value, minimum.value))
  {
    match IntegerOf(raw)
    case None => Err(NotAnInteger(name, raw.text))
    case Some(n) =>
      if minimum.Some? && n < minimum.value then Err(BelowMinimum(name, n, minimum.value))
      else Ok(n)
  }

  /** `check_integer` accepts exactly the decimal renderings of the integers
      at or above its minimum, and gives back the integer rendered. */
  lemma CheckIntegerRendered(name: string, n: int, minimum: int)
    ensures CheckInteger(name, Given(IntToString(n)), Some(minimum)) ==
      if n >= minimum then Ok(n) else Err(BelowMinimum(name, n, minimum))
  {
    ParseIntToString(n);
  }

  /** Play's `loop` attribute: an integer >= 0, 1 when absent. */
  function PlayLoop(e: Element): Result<int, ParseError> {
    CheckInteger("loop", AttributeOr(e, "loop", 1), Some(0))
  }

  /** `Play.from_xml`: `loop` is checked first (an integer >= 0, default 1),
      then every character of `digits` must be one of `0-9` or `w`. */
  function ParsePlay(e: Element): (r: Result<Verb, ParseError>)
    ensures r.Ok? ==> r.value.Play? && r.value.loop >= 0
    ensures r.Ok? ==> r.value.url == e.text && r.value.digits == Attribute(e, "digits")
    ensures r.Ok? && r.value.digits.Some? ==> AllIn(r.value.digits.value, DigitsChars)
    ensures "loop" !in e.attrs && r.Ok? ==> r.value.loop == 1
    ensures "loop" in e.attrs && ParseInt(e.attrs["loop"]).None? ==>
      r == Err(NotAnInteger("loop", e.attrs["loop"]))
    ensures "loop" in e.attrs && ParseInt(e.attrs["loop"]).Some? && ParseInt(e.attrs["loop"]).value < 0 ==>
      r == Err(BelowMinimum("loop", ParseInt(e.attrs["loop"]).value, 0))
    ensures r.Ok? <==> (PlayLoop(e).Ok? && ("digits" in e.attrs ==> AllIn(e.attrs["digits"], DigitsChars)))
    ensures (PlayLoop(e).Ok? && "digits" in e.attrs && !AllIn(e.attrs["digits"], DigitsChars)) ==>
              r == Err(InvalidDigits(e.attrs["digits"]))
  {
    var loop :- PlayLoop(e);
    var digits := Attribute(e, "digits");
    if digits.Some? && !AllIn(digits.value, DigitsChars) then Err(InvalidDigits(digits.value))
    else Ok(Play(loop, digits, e.text))
  }

  /** `Hangup.from_xml`: attributes, text and children are all ignored. */
  function ParseHangup(e: Element): (r: Result<Verb, ParseError>)
    ensures r == Ok(Hangup)
  {
    Ok(Hangup)
  }

  /** Gather's `numDigits`: absent, or an integer >= 1. */
  function CheckNumDigits(raw: Option<string>): (r: Result<Option<int>, ParseError>)
    ensures r.Ok? && r.value.Some? ==> r.value.value >= 1
    ensures raw.None? <==> r == Ok(None)
  {
    match raw
    case None => Ok(None)
    case Some(text) =>
      var n :- CheckInteger("numDigits", Given(text), Some(1));
      Ok(Some(n))
  }

  /** The name of the first nested instruction a Gather may not hold. */
  function FirstInvalidSubVerb(nouns: seq<Verb>): (r: Option<string>)
    ensures r.None? <==> forall i :: 0 <= i < |nouns| ==> nouns[i].Name() in SubVerbs
    ensures r.Some? ==> r.value !in SubVerbs
  {
    if |nouns| == 0 then None
    else if nouns[0].Name() !in SubVerbs then Some(nouns[0].Name())
    else FirstInvalidSubVerb(nouns[1..])
  }

  /** A parsed Gather holds only `Say` and `Play` instructions. */
  predicate SubVerbsValid(v: Verb) {
    v.Gather? ==> forall i :: 0 <= i < |v.nouns| ==> v.nouns[i].Name() in SubVerbs
  }

  /** `Gather.from_xml`, in the source's order: action is resolved against the
      document URL, then method, timeout, finishOnKey (length, then the
      substring test against "0123456789#*") and numDigits are checked; the
      children are parsed last and restricted to `Say`/`Play`. */
  function ParseGather(e: Element, url: string): (r: Result<Verb, ParseError>)
    ensures r.Ok? ==> r.value.Gather? && SubVerbsValid(r.value)
    ensures r.Ok? ==> r.value.action == Url.Resolve(url, Attribute(e, "action"))
    ensures r.Ok? ==> r.value.httpMethod in Methods && r.value.timeout >= 0
    ensures r.Ok? ==> Contains(FinishKeys, r.value.finishOnKey) && |r.value.finishOnKey| <= 1
    ensures r.Ok? && r.value.numDigits.Some? ==> r.value.numDigits.value >= 1
    ensures r.Err? ==> !r.error.InvalidRoot?
    decreases e, 0
  {
    var action := Url.Resolve(url, Attribute(e, "action"));
    var httpMethod := Attribute(e, "method").GetOr("POST");
    if httpMethod !in Methods then Err(InvalidMethod(httpMethod))
    else
      var timeout :- CheckInteger("timeout", AttributeOr(e, "timeout", 5), Some(0));
      var finishOnKey := Attribute(e, "finishOnKey").GetOr("#");
      if |finishOnKey| > 1 then Err(FinishOnKeyTooLong(finishOnKey))
      else if !Contains(FinishKeys, finishOnKey) then Err(InvalidFinishOnKey(finishOnKey))
      else
        var numDigits :- CheckNumDigits(Attribute(e, "numDigits"));
        var nouns :- ParseList(e.children, url);
        match FirstInvalidSubVerb(nouns)
        case Some(name) => Err(InvalidSubVerb(name))
        case None => Ok(Gather(action, httpMethod, timeout, finishOnKey, numDigits, nouns))
  }

  /** The parser dispatch: the lower-cased tag picks the verb parser; a tag
      with no parser is an error naming the tag as written. */
  function ParseVerb(e: Element, url: string): (r: Result<Verb, ParseError>)
    ensures r.Ok? ==> Lower(r.value.Name()) == Lower(e.tag) && SubVerbsValid(r.value)
    ensures Lower(e.tag) !in ["play", "hangup", "gather"] ==> r == Err(NoParser(e.tag))
    ensures r.Err? ==> !r.error.InvalidRoot?
    decreases e, 1
  {
    var tag := Lower(e.tag);
    if tag == "play" then ParsePlay(e)
    else if tag == "hangup" then ParseHangup(e)
    else if tag == "gather" then ParseGather(e, url)
    else Err(NoParser(e.tag))
  }

  /** `TwiMLParser.from_list`: one instruction per element, in order; the
      first element that fails to parse decides the error. */
  function ParseList(es: seq<Element>, url: string): (r: Result<seq<Verb>, ParseError>)
    ensures r.Ok? <==> forall i :: 0 <= i < |es| ==> ParseVerb(es[i], url).Ok?
    ensures r.Ok? ==> |r.value| == |es| && forall i :: 0 <= i < |es| ==> ParseVerb(es[i], url) == Ok(r.value[i])
    ensures r.Err? ==> exists i :: 0 <= i < |es| && ParseVerb(es[i], url) == Err(r.error) &&
                                 (forall j :: 0 <= j < i ==> ParseVerb(es[j], url).Ok?)
    ensures r.Err? ==> !r.error.InvalidRoot?
    decreases es, 2
  {
    if |es| == 0 then Ok([])
    else
      var head :- ParseVerb(es[0], url);
      var tail :- ParseList(es[1..], url);
      Ok([head] + tail)
  }

  /** `TwiMLParser(url).parse(xml)` on the lexed document `root`. */
  function Parse(root: Element, url: string): (r: Result<seq<Verb>, ParseError>)
    ensures root.tag != "Response" <==> r == Err(InvalidRoot(root.tag))
    ensures r.Ok? ==> |r.value| == |root.children|
    ensures r.Ok? ==> forall i :: 0 <= i < |r.value| ==> ParseVerb(root.children[i], url) == Ok(r.value[i])
    ensures root.tag == "Response" ==> r == ParseList(root.children, url)
  {
    if root.tag != "Response" then Err(InvalidRoot(root.tag))
    else ParseList(root.children, url)
  }
}
