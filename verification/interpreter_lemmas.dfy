/** Properties of one interpretation pass: where it stops, how a Hangup ends
    it, and the shape of a Gather's messages. */
module InterpreterLemmas {
  import opened Wrappers
  import opened Xml
  import opened TwiML
  import opened CallSession
  import opened Interpreter
  import TwiMLLemmas

  /** The leading-Play count of a prefix that reaches past the first stop. */
  lemma LeadingPlaysOfPrefix(verbs: seq<Verb>, i: nat)
    requires i < |verbs| && !verbs[i].Play?
    ensures LeadingPlays(verbs[..i + 1]) == LeadingPlays(verbs)
  {
    var pre := verbs[..i + 1];
    assert forall j :: 0 <= j < |pre| ==> pre[j] == verbs[j];
  }

  /** Two documents that agree up to and including their first Hangup or
      Gather give the same pass. */
  lemma SameStopSamePass(u: seq<Verb>, v: seq<Verb>, s: Session)
    requires LeadingPlays(u) == LeadingPlays(v) < |u| && LeadingPlays(v) < |v|
    requires u[LeadingPlays(u)] == v[LeadingPlays(v)]
    requires forall j :: 0 <= j < LeadingPlays(u) ==> u[j] == v[j]
    ensures Interpret(u, s) == Interpret(v, s)
  {
    InterpretIsFlat(u, s);
    InterpretIsFlat(v, s);
    assert Spoken(u) == Spoken(v);
    assert Ending(u, s) == Ending(v, s);
  }

  /** Nothing after the first Hangup or Gather has any effect: the pass over
      the whole document equals the pass over the document cut after any
      Hangup or Gather in it. */
  lemma NothingAfterStop(verbs: seq<Verb>, i: nat, s: Session)
    requires i < |verbs| && !verbs[i].Play?
    ensures Interpret(verbs, s) == Interpret(verbs[..i + 1], s)
  {
    var pre := verbs[..i + 1];
    LeadingPlaysOfPrefix(verbs, i);
    assert forall j :: 0 <= j <= i ==> pre[j] == verbs[j];
    SameStopSamePass(verbs, pre, s);
  }

  /** A pass clears the session exactly when a Hangup ends it; the close is
      then its single last message. */
  lemma HangupClosesOnce(verbs: seq<Verb>, s: Session)
    ensures var r := Interpret(verbs, s);
      && (r.cleared <==> LeadingPlays(verbs) < |verbs| && verbs[LeadingPlays(verbs)].Hangup?)
      && (r.cleared <==> Close in r.actions)
      && (r.cleared ==> r.actions[|r.actions| - 1] == Close && Close !in r.actions[..|r.actions| - 1])
      && (r.cleared ==> r.session == s)
  {
    InterpretIsFlat(verbs, s);
    FlatClosesOnce(verbs, s);
  }

  lemma FlatClosesOnce(verbs: seq<Verb>, s: Session)
    ensures var r := FlatPass(verbs, s);
      && (r.cleared <==> LeadingPlays(verbs) < |verbs| && verbs[LeadingPlays(verbs)].Hangup?)
      && (r.cleared <==> Close in r.actions)
      && (r.cleared ==> r.actions[|r.actions| - 1] == Close && Close !in r.actions[..|r.actions| - 1])
      && (r.cleared ==> r.session == s)
  {
    var r := FlatPass(verbs, s);
    var sp := Spoken(verbs);
    var e := Ending(verbs, s);
    assert Close !in sp by {
      forall j | 0 <= j < |sp|
        ensures sp[j] != Close
      {
      }
    }
    assert Close !in e.actions <==> !e.cleared by {
      if !e.cleared && |verbs| > LeadingPlays(verbs) {
        var g := GatherActions(verbs[LeadingPlays(verbs)]);
        assert Close !in g by {
          forall j | 0 <= j < |g|
            ensures g[j] != Close
          {
            assert g[j].Prompt?;
          }
        }
      }
    }
    if e.cleared {
      assert r.actions[..|r.actions| - 1] == sp;
    }
  }

  /** A pass that ends in a Gather waits for input on its last message only,
      and that message waits for the Gather's finish key. */
  lemma GatherWaitsOnLast(verbs: seq<Verb>, s: Session)
    requires LeadingPlays(verbs) < |verbs| && verbs[LeadingPlays(verbs)].Gather?
    ensures var r := Interpret(verbs, s);
      && |r.actions| > 0
      && r.actions[|r.actions| - 1].Prompt?
      && r.actions[|r.actions| - 1].waitFor == Some(verbs[LeadingPlays(verbs)].finishOnKey)
      && (forall i :: 0 <= i < |r.actions| - 1 ==> !(r.actions[i].Prompt? && r.actions[i].waitFor.Some?))
      && r.session.gatherAction == Some(verbs[LeadingPlays(verbs)].action)
      && r.session.gatherMethod == Some(verbs[LeadingPlays(verbs)].httpMethod)
  {
    InterpretIsFlat(verbs, s);
    FlatGatherWaitsOnLast(verbs, s);
  }

  lemma FlatGatherWaitsOnLast(verbs: seq<Verb>, s: Session)
    requires LeadingPlays(verbs) < |verbs| && verbs[LeadingPlays(verbs)].Gather?
    ensures var r := FlatPass(verbs, s);
      && |r.actions| > 0
      && r.actions[|r.actions| - 1].Prompt?
      && r.actions[|r.actions| - 1].waitFor == Some(verbs[LeadingPlays(verbs)].finishOnKey)
      && (forall i :: 0 <= i < |r.actions| - 1 ==> !(r.actions[i].Prompt? && r.actions[i].waitFor.Some?))
  {
    var r := FlatPass(verbs, s);
    var sp := Spoken(verbs);
    var g := GatherActions(verbs[LeadingPlays(verbs)]);
    assert r.actions == sp + g;
    forall i | 0 <= i < |r.actions| - 1
      ensures !(r.actions[i].Prompt? && r.actions[i].waitFor.Some?)
    {
      if i >= |sp| {
        assert r.actions[i] == g[i - |sp|];
      } else {
        assert r.actions[i] == sp[i];
      }
    }
    assert r.actions[|r.actions| - 1] == g[|g| - 1];
  }

  /** The Gather of a parsed document sends one message per nested Play, in
      order, or exactly one message when it nests none. */
  lemma ParsedGatherPrompts(e: Element, url: string)
    requires ParseVerb(e, url).Ok? && ParseVerb(e, url).value.Gather?
    ensures var g := ParseVerb(e, url).value;
      var r := GatherActions(g);
      && |r| == (if |g.nouns| == 0 then 1 else |g.nouns|)
      && (|g.nouns| == 0 ==> r == [Prompt(None, Some(g.finishOnKey))])
      && (forall i :: 0 <= i < |g.nouns| ==> r[i].url == g.nouns[i].url)
  {
    TwiMLLemmas.GatherNounsArePlays(e, url);
  }
}
