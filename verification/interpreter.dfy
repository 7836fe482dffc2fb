/** The verb loop shared by `_handle_connected_call` and `new_session` in
    vxtwinio/twilio_api.py: it walks parsed instructions in order and turns
    them into outbound messages and session changes.

    A Play sends its URL and continues. A Hangup sends a session close, clears
    the session and stops. A Gather records its action and method in the
    session, sends one message per nested Play (or a single empty one), marks
    the last with its finish key, and stops. */
module Interpreter {
  import opened Wrappers
  import opened TwiML
  import opened CallSession

  /** One effect of the pass, before it is addressed. */
  datatype Action =
    | Speak(url: Option<string>)
    | Prompt(url: Option<string>, waitFor: Option<string>)
    | Close

  /** The result of a pass: the effects in order, the session as the pass
      leaves it, and whether the pass cleared it. */
  datatype Pass = Pass(actions: seq<Action>, session: Session, cleared: bool)

  /** How many instructions at the front are Plays. */
  function LeadingPlays(verbs: seq<Verb>): (n: nat)
    ensures n <= |verbs|
    ensures forall i :: 0 <= i < n ==> verbs[i].Play?
    ensures n < |verbs| ==> !verbs[n].Play?
  {
    if |verbs| == 0 || !verbs[0].Play? then 0 else 1 + LeadingPlays(verbs[1..])
  }

  /** The URLs of a Gather's nested Plays, in order; anything else nested
      produces nothing. */
  function GatherPrompts(nouns: seq<Verb>): (urls: seq<Option<string>>)
    ensures |urls| <= |nouns|
    ensures (forall i :: 0 <= i < |nouns| ==> nouns[i].Play?) ==>
      |urls| == |nouns| && forall i :: 0 <= i < |nouns| ==> urls[i] == nouns[i].url
    ensures (forall i :: 0 <= i < |nouns| ==> !nouns[i].Play?) ==> urls == []
  {
    if |nouns| == 0 then []
    else if nouns[0].Play? then [nouns[0].url] + GatherPrompts(nouns[1..])
    else GatherPrompts(nouns[1..])
  }

  /** The messages of a Gather: one per prompt, or one without a URL when
      there is none; only the last waits for the finish key. */
  function GatherActions(g: Verb): (r: seq<Action>)
    requires g.Gather?
    ensures |r| >= 1
    ensures forall i :: 0 <= i < |r| ==> r[i].Prompt?
    ensures forall i :: 0 <= i < |r| - 1 ==> r[i].waitFor.None?
    ensures r[|r| - 1].waitFor == Some(g.finishOnKey)
    ensures GatherPrompts(g.nouns) == [] ==> r == [Prompt(None, Some(g.finishOnKey))]
    ensures GatherPrompts(g.nouns) != [] ==>
      |r| == |GatherPrompts(g.nouns)| && forall i :: 0 <= i < |r| ==> r[i].url == GatherPrompts(g.nouns)[i]
  {
    var prompts := GatherPrompts(g.nouns);
    var urls := if prompts == [] then [None] else prompts;
    seq(|urls|, i requires 0 <= i < |urls| =>
      Prompt(urls[i], if i == |urls| - 1 then Some(g.finishOnKey) else None))
  }

  /** The session once a Gather is pending: its action and method are kept
      for the reply. */
  function Pending(s: Session, g: Verb): Session
    requires g.Gather?
  {
    s.(gatherAction := Some(g.action), gatherMethod := Some(g.httpMethod))
  }

  /** One interpretation pass over `verbs` for session `s`, as the loop
      runs. */
  function Interpret(verbs: seq<Verb>, s: Session): Pass
  {
    if |verbs| == 0 then Pass([], s, false)
    else
      match verbs[0]
      case Play(_, _, url) =>
        var rest := Interpret(verbs[1..], s);
        Pass([Speak(url)] + rest.actions, rest.session, rest.cleared)
      case Hangup => Pass([Close], s, true)
      case Gather(_, _, _, _, _, _) => Pass(GatherActions(verbs[0]), Pending(s, verbs[0]), false)
  }

  /** The Speak messages of the leading Plays, in order. */
  function Spoken(verbs: seq<Verb>): (r: seq<Action>)
    ensures |r| == LeadingPlays(verbs)
    ensures forall i :: 0 <= i < |r| ==> r[i] == Speak(verbs[i].url)
  {
    var k := LeadingPlays(verbs);
    seq(k, i requires 0 <= i < k => Speak(verbs[i].url))
  }

  /** What the first Hangup or Gather contributes, or nothing when there is
      none. */
  function Ending(verbs: seq<Verb>, s: Session): Pass {
    var k := LeadingPlays(verbs);
    if k == |verbs| then Pass([], s, false)
    else if verbs[k].Hangup? then Pass([Close], s, true)
    else Pass(GatherActions(verbs[k]), Pending(s, verbs[k]), false)
  }

  /** A pass described without the loop: the leading Plays speak, then the
      first stop, if any, ends it. */
  function FlatPass(verbs: seq<Verb>, s: Session): Pass {
    var e := Ending(verbs, s);
    Pass(Spoken(verbs) + e.actions, e.session, e.cleared)
  }

  lemma SpokenCons(verbs: seq<Verb>)
    requires |verbs| > 0 && verbs[0].Play?
    ensures Spoken(verbs) == [Speak(verbs[0].url)] + Spoken(verbs[1..])
  {
    var a := Spoken(verbs);
    var b := [Speak(verbs[0].url)] + Spoken(verbs[1..]);
    assert |a| == |b|;
    forall i | 0 <= i < |a|
      ensures a[i] == b[i]
    {
      if i > 0 {
        assert verbs[i] == verbs[1..][i - 1];
      }
    }
  }

  lemma EndingCons(verbs: seq<Verb>, s: Session)
    requires |verbs| > 0 && verbs[0].Play?
    ensures Ending(verbs, s) == Ending(verbs[1..], s)
  {
    var k := LeadingPlays(verbs);
    assert k == LeadingPlays(verbs[1..]) + 1;
    assert k < |verbs| ==> verbs[k] == verbs[1..][k - 1];
  }

  /** A leading Play speaks and leaves the rest of the flat pass as it is. */
  lemma FlatCons(verbs: seq<Verb>, s: Session)
    requires |verbs| > 0 && verbs[0].Play?
    ensures var rest := FlatPass(verbs[1..], s);
      FlatPass(verbs, s) == Pass([Speak(verbs[0].url)] + rest.actions, rest.session, rest.cleared)
  {
    var tail := verbs[1..];
    var e := Ending(tail, s);
    SpokenCons(verbs);
    EndingCons(verbs, s);
    assert [Speak(verbs[0].url)] + (Spoken(tail) + e.actions) == ([Speak(verbs[0].url)] + Spoken(tail)) + e.actions;
  }

  /** The loop and its flat description agree on every document: a pass
      speaks each leading Play in order; the first Hangup adds only the close
      and clears the session; the first Gather adds its messages and leaves
      its action and method pending; nothing after either has an effect, and
      a document of Plays alone leaves the session as it was. */
  lemma {:induction false} InterpretIsFlat(verbs: seq<Verb>, s: Session)
    ensures Interpret(verbs, s) == FlatPass(verbs, s)
  {
    if |verbs| > 0 && verbs[0].Play? {
      InterpretIsFlat(verbs[1..], s);
      FlatCons(verbs, s);
    }
  }

  /** How the messages of a pass are addressed: `_send_message` sends to the
      session's `To` from its `From` and omits unset metadata;
      `new_session` replies to the inbound message, so to the session's `From`,
      and writes every metadata key it names. A reply that names no metadata
      of its own, the close, carries over the inbound message's, whose voice
      part is `inboundVoice`. */
  datatype Delivery = SendTo | ReplyTo(inboundVoice: map<string, Option<string>>)

  /** The transport message an action becomes. */
  function Render(a: Action, s: Session, d: Delivery): (m: Message)
    ensures (m.event == SessionClose) <==> a.Close?
    ensures a.Close? && d.SendTo? ==> "speech_url" !in m.voice && "wait_for" !in m.voice
    ensures a.Close? && d.ReplyTo? ==> m.voice == d.inboundVoice
    ensures d.SendTo? ==> m.to == s.to && m.from == s.from
    ensures d.ReplyTo? ==> m.to == s.from && m.from == s.to
    ensures d.SendTo? && !a.Close? ==>
      ("speech_url" in m.voice <==> a.url.Some?) && ("speech_url" in m.voice ==> m.voice["speech_url"] == a.url)
    ensures d.SendTo? && a.Prompt? ==>
      ("wait_for" in m.voice <==> a.waitFor.Some?) && ("wait_for" in m.voice ==> m.voice["wait_for"] == a.waitFor)
    ensures d.ReplyTo? && !a.Close? ==> "speech_url" in m.voice && m.voice["speech_url"] == a.url
    ensures d.ReplyTo? && a.Prompt? ==> "wait_for" in m.voice && m.voice["wait_for"] == a.waitFor
    ensures d.ReplyTo? && a.Speak? ==> m.voice.Keys == {"speech_url"}
  {
    var to := if d.SendTo? then s.to else s.from;
    var from := if d.SendTo? then s.from else s.to;
    match a
    case Close => Message(to, from, SessionClose, if d.SendTo? then map[] else d.inboundVoice)
    case Speak(url) =>
      Message(to, from, NoEvent,
        if d.ReplyTo? then map["speech_url" := url] else Voice(url, None))
    case Prompt(url, waitFor) =>
      Message(to, from, NoEvent,
        if d.ReplyTo? then map["speech_url" := url, "wait_for" := waitFor] else Voice(url, waitFor))
  }

  /** `_send_message`'s voice metadata: a key only for each value given. */
  function Voice(url: Option<string>, waitFor: Option<string>): map<string, Option<string>> {
    var withUrl: map<string, Option<string>> := if url.Some? then map["speech_url" := url] else map[];
    if waitFor.Some? then withUrl["wait_for" := waitFor] else withUrl
  }

  function RenderAll(actions: seq<Action>, s: Session, d: Delivery): (ms: seq<Message>)
    ensures |ms| == |actions|
    ensures forall i :: 0 <= i < |actions| ==> ms[i] == Render(actions[i], s, d)
  {
    seq(|actions|, i requires 0 <= i < |actions| => Render(actions[i], s, d))
  }
}
