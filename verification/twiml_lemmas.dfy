/** Properties of the call-markup parser that relate several of its functions:
    the defaults each verb takes, the order in which Gather's attributes are
    checked, and what a Gather may nest. */
module TwiMLLemmas {
  import opened Wrappers
  import opened Text
  import opened Xml
  import opened TwiML
  import Url

  lemma LowerPlay(tag: string)
    requires tag == "Play"
    ensures Lower(tag) == "play"
  {
    assert Lower(tag) == [LowerChar('P'), LowerChar('l'), LowerChar('a'), LowerChar('y')];
  }

  lemma LowerGather(tag: string)
    requires tag == "Gather"
    ensures Lower(tag) == "gather"
  {
    assert Lower(tag) == [LowerChar('G'), LowerChar('a'), LowerChar('t'), LowerChar('h'), LowerChar('e'), LowerChar('r')];
  }

  lemma LowerSay(tag: string)
    requires tag == "Say"
    ensures Lower(tag) == "say"
  {
    assert Lower(tag) == [LowerChar('S'), LowerChar('a'), LowerChar('y')];
  }

  lemma LowerHangup(tag: string)
    requires tag == "Hangup"
    ensures Lower(tag) == "hangup"
  {
    assert Lower(tag) == [LowerChar('H'), LowerChar('a'), LowerChar('n'), LowerChar('g'), LowerChar('u'), LowerChar('p')];
  }

  lemma HashIsFinishKey()
    ensures Contains(FinishKeys, "#")
  {
    ContainsShort(FinishKeys, "#");
    assert FinishKeys[10] == '#';
  }

  /** A Gather element with no attributes and the given children parses like
      a default Gather over those children. */
  lemma BareGather(text: Option<string>, children: seq<Element>, url: string)
    ensures var r := ParseVerb(Element("Gather", map[], text, children), url);
      var nouns := ParseList(children, url);
      && (nouns.Err? ==> r == Err(nouns.error))
      && (nouns.Ok? && FirstInvalidSubVerb(nouns.value).Some? ==>
            r == Err(InvalidSubVerb(FirstInvalidSubVerb(nouns.value).value)))
      && (nouns.Ok? && FirstInvalidSubVerb(nouns.value).None? ==>
            r == Ok(Gather(url, "POST", 5, "#", None, nouns.value)))
  {
    var e := Element("Gather", map[], text, children);
    LowerGather(e.tag);
    HashIsFinishKey();
    assert Attribute(e, "action") == None;
    assert Attribute(e, "method") == None;
    assert Attribute(e, "finishOnKey") == None;
    assert Attribute(e, "numDigits") == None;
    assert AttributeOr(e, "timeout", 5) == Default(5);
  }

  /** A Play without attributes loops once, has no digits, and its only noun
      is the element text, whatever its children. */
  lemma PlayDefaults(text: Option<string>, children: seq<Element>, url: string)
    ensures ParseVerb(Element("Play", map[], text, children), url) == Ok(Play(1, None, text))
  {
    LowerPlay("Play");
  }

  /** A Hangup carries nothing from its element: any attributes, text and
      children give the same instruction. */
  lemma HangupIgnoresContent(e: Element, url: string)
    requires Lower(e.tag) == "hangup"
    ensures ParseVerb(e, url) == Ok(Hangup)
  {
  }

  /** A bare Gather posts back to the document URL, waits 5 seconds for any
      number of digits, and finishes on '#'. */
  lemma GatherDefaults(text: Option<string>, url: string)
    ensures ParseVerb(Element("Gather", map[], text, []), url) == Ok(Gather(url, "POST", 5, "#", None, []))
  {
    BareGather(text, [], url);
  }

  /** A `method` other than GET or POST is the first error a Gather reports. */
  lemma GatherMethodCheckedFirst(e: Element, url: string)
    requires Lower(e.tag) == "gather"
    requires "method" in e.attrs && e.attrs["method"] !in Methods
    ensures ParseVerb(e, url) == Err(InvalidMethod(e.attrs["method"]))
  {
  }

  /** A finishOnKey longer than one character fails on its length, before the
      character set is looked at, once method and timeout are acceptable. */
  lemma GatherKeyLengthBeforeCharset(e: Element, url: string)
    requires Lower(e.tag) == "gather"
    requires "method" in e.attrs ==> e.attrs["method"] in Methods
    requires CheckInteger("timeout", AttributeOr(e, "timeout", 5), Some(0)).Ok?
    requires "finishOnKey" in e.attrs && |e.attrs["finishOnKey"]| > 1
    ensures ParseVerb(e, url) == Err(FinishOnKeyTooLong(e.attrs["finishOnKey"]))
  {
  }

  /** A one-character finishOnKey outside "0123456789#*" is rejected naming it. */
  lemma GatherKeyOutsideCharset(e: Element, url: string)
    requires Lower(e.tag) == "gather"
    requires "method" in e.attrs ==> e.attrs["method"] in Methods
    requires CheckInteger("timeout", AttributeOr(e, "timeout", 5), Some(0)).Ok?
    requires "finishOnKey" in e.attrs && |e.attrs["finishOnKey"]| == 1
    requires e.attrs["finishOnKey"][0] !in FinishKeys
    ensures ParseVerb(e, url) == Err(InvalidFinishOnKey(e.attrs["finishOnKey"]))
  {
    ContainsShort(FinishKeys, e.attrs["finishOnKey"]);
  }

  /** The finishOnKey test is a substring test, so an empty value passes it. */
  lemma GatherAcceptsEmptyKey(url: string)
    ensures ParseVerb(Element("Gather", map["finishOnKey" := ""], None, []), url)
      == Ok(Gather(url, "POST", 5, "", None, []))
  {
    LowerGather("Gather");
  }

  /** Every parsed Gather finishes on nothing or on one of "0123456789#*". */
  lemma GatherKeyIsShort(e: Element, url: string)
    requires ParseVerb(e, url).Ok? && ParseVerb(e, url).value.Gather?
    ensures var k := ParseVerb(e, url).value.finishOnKey;
      k == "" || (|k| == 1 && k[0] in FinishKeys)
  {
    var k := ParseVerb(e, url).value.finishOnKey;
    ContainsShort(FinishKeys, k);
  }

  /** With no Say parser, a nested Say fails at dispatch, before the sub-verb
      check can admit it. */
  lemma GatherNestedSay(url: string, spoken: Option<string>)
    ensures ParseVerb(Element("Gather", map[], None, [Element("Say", map[], spoken, [])]), url)
      == Err(NoParser("Say"))
  {
    var say := Element("Say", map[], spoken, []);
    LowerSay(say.tag);
    assert ParseVerb(say, url) == Err(NoParser("Say"));
    assert ParseList([say], url) == Err(NoParser("Say"));
    BareGather(None, [say], url);
  }

  /** A nested Hangup parses but is rejected by the sub-verb check. */
  lemma GatherNestedHangup(url: string)
    ensures ParseVerb(Element("Gather", map[], None, [Element("Hangup", map[], None, [])]), url)
      == Err(InvalidSubVerb("Hangup"))
  {
    var hangup := Element("Hangup", map[], None, []);
    LowerHangup(hangup.tag);
    assert ParseVerb(hangup, url) == Ok(Hangup);
    var parsed := ParseList([hangup], url);
    assert [hangup][0] == hangup;
    assert parsed.Ok?;
    assert parsed.value[0] == Hangup;
    assert parsed.value == [Hangup];
    assert FirstInvalidSubVerb([Hangup]) == Some("Hangup");
    BareGather(None, [hangup], url);
  }

  /** Everything a parsed Gather holds is a Play. */
  lemma {:induction false} GatherNounsArePlays(e: Element, url: string)
    requires ParseVerb(e, url).Ok? && ParseVerb(e, url).value.Gather?
    ensures forall i :: 0 <= i < |ParseVerb(e, url).value.nouns| ==> ParseVerb(e, url).value.nouns[i].Play?
  {
    var g := ParseVerb(e, url).value;
    forall i | 0 <= i < |g.nouns|
      ensures g.nouns[i].Play?
    {
      assert g.nouns[i].Name() in SubVerbs;
    }
  }

  /** The invalid-root message names the tag found, and asks for 'Request'. */
  lemma InvalidRootMessage(url: string)
    ensures Parse(Element("foobar", map[], None, []), url).Err?
    ensures Describe(Parse(Element("foobar", map[], None, []), url).error)
      == "Invalid root 'foobar'. Should be 'Request'."
  {
    assert "foobar"[0] != "Response"[0];
    assert Parse(Element("foobar", map[], None, []), url) == Err(InvalidRoot("foobar"));
    assert Repr("foobar") == "'foobar'";
    assert "Invalid root " + "'foobar'" == "Invalid root 'foobar'";
    assert "Invalid root 'foobar'" + ". Should be 'Request'." == "Invalid root 'foobar'. Should be 'Request'.";
  }

  /** An unknown child tag is reported as written, not lower-cased. */
  lemma UnknownVerbMessage(url: string)
    ensures Describe(Parse(Element("Response", map[], None, [Element("Sms", map[], Some("Foobar"), [])]), url).error)
      == "Cannot find parser for verb 'Sms'"
  {
    var sms := Element("Sms", map[], Some("Foobar"), []);
    assert Lower("Sms") == [LowerChar('S'), LowerChar('m'), LowerChar('s')];
    assert ParseVerb(sms, url) == Err(NoParser("Sms"));
  }
}
