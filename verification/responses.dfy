/** The response bodies of vxtwinio/responses/base.py: a `Response` holds a
    dictionary of fields, nested dictionaries included, that it writes either
    as an XML tree under `TwilioResponse` (keys kept) or as JSON with every key
    turned to snake case by `camel_to_snake`. JSON text itself is not
    modelled; `Convert` yields the dictionary that would be dumped. */
module Responses {
  import opened Wrappers
  import opened Text
  import opened Xml

  /** A field value: text, `None`, or a nested dictionary whose entries are
      in iteration order with distinct keys. */
  datatype Value = Leaf(text: Option<string>) | Dict(entries: seq<Entry>)

  datatype Entry = Entry(key: string, value: Value)

  // ---------------------------------------------------------------------
  // camel_to_snake

  /** The characters the pattern `(?!^)([A-Z+])` captures. */
  predicate Marked(c: char) {
    IsUpper(c) || c == '+'
  }

  /** The substitution: an underscore before every marked character that is
      not the first of the whole string. */
  function Underscore(s: string, atStart: bool): (r: string)
    ensures |r| >= |s|
  {
    if |s| == 0 then ""
    else (if !atStart && Marked(s[0]) then "_" + [s[0]] else [s[0]]) + Underscore(s[1..], false)
  }

  /** `camel_to_snake`: the substitution, then `lower()`. */
  function CamelToSnake(s: string): (r: string)
    ensures |r| >= |s|
    ensures forall i :: 0 <= i < |r| ==> !IsUpper(r[i])
  {
    Lower(Underscore(s, true))
  }

  /** A key that `CamelToSnake` never changes the meaning of twice: a '+' may
      only stand first. */
  predicate PlusOnlyFirst(s: string) {
    forall i :: 1 <= i < |s| ==> s[i] != '+'
  }

  predicate NoUpper(s: string) {
    forall i :: 0 <= i < |s| ==> !IsUpper(s[i])
  }

  lemma LowerAppend(a: string, b: string)
    ensures Lower(a + b) == Lower(a) + Lower(b)
  {
    assert forall i :: 0 <= i < |a + b| ==> Lower(a + b)[i] == (Lower(a) + Lower(b))[i];
  }

  lemma {:induction false} WithoutAppend(a: string, b: string, c: char)
    ensures Without(a + b, c) == Without(a, c) + Without(b, c)
  {
    if |a| == 0 {
      assert a + b == b;
    } else {
      assert (a + b)[1..] == a[1..] + b;
      WithoutAppend(a[1..], b, c);
    }
  }

  /** Lower-casing and removing underscores commute. */
  lemma {:induction false} LowerWithout(s: string)
    ensures Without(Lower(s), '_') == Lower(Without(s, '_'))
  {
    if |s| > 0 {
      assert Lower(s) == [LowerChar(s[0])] + Lower(s[1..]);
      LowerWithout(s[1..]);
      if s[0] != '_' {
        assert Lower([s[0]] + Without(s[1..], '_')) == [LowerChar(s[0])] + Lower(Without(s[1..], '_'));
      }
    }
  }

  /** The substitution only adds underscores. */
  lemma {:induction false} UnderscoreStripped(s: string, atStart: bool)
    ensures Without(Underscore(s, atStart), '_') == Without(s, '_')
  {
    if |s| > 0 {
      var head := if !atStart && Marked(s[0]) then "_" + [s[0]] else [s[0]];
      WithoutAppend(head, Underscore(s[1..], false), '_');
      UnderscoreStripped(s[1..], false);
      assert s == [s[0]] + s[1..];
      WithoutAppend([s[0]], s[1..], '_');
      if !atStart && Marked(s[0]) {
        WithoutAppend("_", [s[0]], '_');
      }
    }
  }

  /** Removing the underscores from a snake-case key gives the lower-cased
      original with its underscores removed: the conversion only inserts
      underscores and lowers case. */
  lemma CamelToSnakeStripped(s: string)
    ensures Without(CamelToSnake(s), '_') == Without(Lower(s), '_')
  {
    LowerWithout(Underscore(s, true));
    UnderscoreStripped(s, true);
    LowerWithout(s);
  }

  /** A string with nothing to mark is left as it is. */
  lemma {:induction false} UnderscoreNoop(s: string, atStart: bool)
    requires NoUpper(s)
    requires forall i :: (if atStart then 1 else 0) <= i < |s| ==> s[i] != '+'
    ensures Underscore(s, atStart) == s
  {
    if |s| > 0 {
      UnderscoreNoop(s[1..], false);
    }
  }

  /** The substitution keeps every character and adds only underscores. */
  lemma {:induction false} UnderscoreChars(s: string, atStart: bool, c: char)
    requires c != '_'
    ensures c in Underscore(s, atStart) <==> c in s
  {
    if |s| > 0 {
      UnderscoreChars(s[1..], false, c);
      var head := if !atStart && Marked(s[0]) then "_" + [s[0]] else [s[0]];
      assert Underscore(s, atStart) == head + Underscore(s[1..], false);
      assert s == [s[0]] + s[1..];
    }
  }

  /** Away from the start, a marked character makes the result longer. */
  lemma {:induction false} UnderscoreGrows(s: string)
    requires exists i :: 0 <= i < |s| && Marked(s[i])
    ensures |Underscore(s, false)| > |s|
  {
    if !Marked(s[0]) {
      var i :| 0 <= i < |s| && Marked(s[i]);
      assert s[1..][i - 1] == s[i];
      UnderscoreGrows(s[1..]);
    }
  }

  lemma LowerKeepsPlus(s: string)
    ensures '+' in Lower(s) <==> '+' in s
  {
    if '+' in s {
      var i :| 0 <= i < |s| && s[i] == '+';
      assert Lower(s)[i] == '+';
    }
    if '+' in Lower(s) {
      var i :| 0 <= i < |Lower(s)| && Lower(s)[i] == '+';
      assert s[i] == '+';
    }
  }

  /** A '+' after the first character survives the conversion, still after
      the first character. */
  lemma PlusAfterFirst(s: string)
    requires |s| > 0
    ensures PlusOnlyFirst(CamelToSnake(s)) <==> PlusOnlyFirst(s)
  {
    var u := Underscore(s, true);
    assert u == [s[0]] + Underscore(s[1..], false);
    assert u[1..] == Underscore(s[1..], false);
    UnderscoreChars(s[1..], false, '+');
    var r := CamelToSnake(s);
    assert r[1..] == Lower(u[1..]);
    LowerKeepsPlus(u[1..]);
    assert PlusOnlyFirst(s) <==> '+' !in s[1..];
    assert PlusOnlyFirst(r) <==> '+' !in r[1..];
  }

  /** Converting twice is converting once exactly when no '+' stands after
      the first character; such a '+' gains one more underscore each time. */
  lemma CamelToSnakeIdempotent(s: string)
    ensures CamelToSnake(CamelToSnake(s)) == CamelToSnake(s) <==> PlusOnlyFirst(s)
  {
    var r := CamelToSnake(s);
    if |s| == 0 {
      return;
    }
    PlusAfterFirst(s);
    if PlusOnlyFirst(s) {
      UnderscoreNoop(r, true);
      LowerUnchanged(r);
    } else {
      var i :| 1 <= i < |r| && r[i] == '+';
      assert r[1..][i - 1] == '+';
      UnderscoreGrows(r[1..]);
      assert Underscore(r, true) == [r[0]] + Underscore(r[1..], false);
    }
  }

  /** A key of the source's own JSON example. */
  lemma CamelToSnakeExample()
    ensures CamelToSnake("FooBar") == "foo_bar"
  {
    FooBarUnderscored();
    assert Lower("Foo_Bar") == "foo_bar" by {
      var l := Lower("Foo_Bar");
      assert l[0] == 'f' && l[1] == 'o' && l[2] == 'o' && l[3] == '_';
      assert l[4] == 'b' && l[5] == 'a' && l[6] == 'r';
    }
  }

  lemma FooBarUnderscored()
    ensures Underscore("FooBar", true) == "Foo_Bar"
  {
    assert Underscore("r", false) == "r" by {
      assert "r"[1..] == "";
    }
    assert Underscore("ar", false) == "ar" by {
      assert "ar"[1..] == "r";
    }
    assert Underscore("Bar", false) == "_Bar" by {
      assert "Bar"[1..] == "ar";
    }
    assert Underscore("oBar", false) == "o_Bar" by {
      assert "oBar"[1..] == "Bar";
    }
    assert Underscore("ooBar", false) == "oo_Bar" by {
      assert "ooBar"[1..] == "oBar";
    }
    assert "FooBar"[1..] == "ooBar";
  }

  // ---------------------------------------------------------------------
  // convert_dict_keys

  function KeysOf(es: seq<Entry>): set<string> {
    set i | 0 <= i < |es| :: es[i].key
  }

  predicate DistinctKeys(es: seq<Entry>) {
    forall i, j :: 0 <= i < j < |es| ==> es[i].key != es[j].key
  }

  /** Where `key` is stored, if anywhere. */
  function IndexOf(es: seq<Entry>, key: string): (r: Option<nat>)
    ensures r.None? <==> key !in KeysOf(es)
    ensures r.Some? ==> r.value < |es| && es[r.value].key == key
  {
    if |es| == 0 then None
    else if es[0].key == key then Some(0)
    else
      assert forall i :: 1 <= i < |es| ==> es[i] == es[1..][i - 1];
      match IndexOf(es[1..], key)
      case None => None
      case Some(j) => Some(j + 1)
  }

  /** `res[key] = value` on a dictionary: an existing key keeps its place and
      takes the new value, a new key goes last. */
  function Put(es: seq<Entry>, key: string, value: Value): (r: seq<Entry>)
    requires DistinctKeys(es)
    ensures KeysOf(r) == KeysOf(es) + {key}
    ensures key in KeysOf(es) ==> |r| == |es|
    ensures key !in KeysOf(es) ==> r == es + [Entry(key, value)]
    ensures forall i :: 0 <= i < |r| && r[i].key == key ==> r[i].value == value
    ensures forall i :: 0 <= i < |r| && r[i].key != key ==> i < |es| && r[i] == es[i]
    ensures DistinctKeys(r)
  {
    match IndexOf(es, key)
    case None =>
      var r := es + [Entry(key, value)];
      assert KeysOf(r) == KeysOf(es) + {key} by {
        assert r[|es|].key == key;
        forall k | k in KeysOf(es) ensures k in KeysOf(r) {
          var i :| 0 <= i < |es| && es[i].key == k;
          assert r[i] == es[i];
        }
      }
      r
    case Some(i) =>
      var r := es[i := Entry(key, value)];
      assert KeysOf(r) == KeysOf(es) by {
        forall k | k in KeysOf(es) ensures k in KeysOf(r) {
          var j :| 0 <= j < |es| && es[j].key == k;
          assert r[j].key == k;
        }
      }
      r
  }

  /** `convert_dict_keys` on one value: a dictionary has every key converted
      and every nested dictionary converted in turn; anything else is kept. */
  function Convert(v: Value): Value
    decreases v
  {
    match v
    case Leaf(_) => v
    case Dict(es) => Dict(ConvertEntries(es, []))
  }

  /** The loop of `convert_dict_keys`: the entries of `es` stored, in order,
      into the dictionary `acc` built so far. */
  function ConvertEntries(es: seq<Entry>, acc: seq<Entry>): (r: seq<Entry>)
    requires DistinctKeys(acc)
    ensures DistinctKeys(r)
    decreases es
  {
    if |es| == 0 then acc
    else ConvertEntries(es[1..], Put(acc, CamelToSnake(es[0].key), Convert(es[0].value)))
  }

  /** The keys of the converted dictionary are exactly the converted keys. */
  lemma {:induction false} ConvertedKeys(es: seq<Entry>, acc: seq<Entry>)
    requires DistinctKeys(acc)
    ensures forall k :: k in KeysOf(ConvertEntries(es, acc)) <==>
      k in KeysOf(acc) || exists i :: 0 <= i < |es| && k == CamelToSnake(es[i].key)
    decreases es
  {
    if |es| > 0 {
      var next := Put(acc, CamelToSnake(es[0].key), Convert(es[0].value));
      ConvertedKeys(es[1..], next);
      var r := ConvertEntries(es, acc);
      assert r == ConvertEntries(es[1..], next);
      forall k
        ensures k in KeysOf(r) <==> k in KeysOf(acc) || exists i :: 0 <= i < |es| && k == CamelToSnake(es[i].key)
      {
        if exists i :: 0 <= i < |es| && k == CamelToSnake(es[i].key) {
          var i :| 0 <= i < |es| && k == CamelToSnake(es[i].key);
          if i > 0 {
            assert es[1..][i - 1] == es[i];
          }
        }
        if exists i :: 0 <= i < |es[1..]| && k == CamelToSnake(es[1..][i].key) {
          var i :| 0 <= i < |es[1..]| && k == CamelToSnake(es[1..][i].key);
          assert es[1..][i] == es[i + 1];
        }
      }
    }
  }

  /** When no two keys convert to the same key, the conversion keeps the
      dictionary's shape: entry for entry, in order, key converted and value
      converted. */
  lemma {:induction false} ConvertKeepsShape(es: seq<Entry>, acc: seq<Entry>)
    requires DistinctKeys(acc)
    requires forall i, j :: 0 <= i < j < |es| ==> CamelToSnake(es[i].key) != CamelToSnake(es[j].key)
    requires forall i :: 0 <= i < |es| ==> CamelToSnake(es[i].key) !in KeysOf(acc)
    ensures var r := ConvertEntries(es, acc);
      && |r| == |acc| + |es|
      && r[..|acc|] == acc
      && forall i :: 0 <= i < |es| ==> r[|acc| + i] == Entry(CamelToSnake(es[i].key), Convert(es[i].value))
    decreases es
  {
    if |es| > 0 {
      var k := CamelToSnake(es[0].key);
      var next := Put(acc, k, Convert(es[0].value));
      assert next == acc + [Entry(k, Convert(es[0].value))];
      forall i | 0 <= i < |es[1..]|
        ensures CamelToSnake(es[1..][i].key) !in KeysOf(next)
      {
        assert es[1..][i] == es[i + 1];
      }
      ConvertKeepsShape(es[1..], next);
      var r := ConvertEntries(es, acc);
      assert r == ConvertEntries(es[1..], next);
      forall i | 0 <= i < |es|
        ensures r[|acc| + i] == Entry(CamelToSnake(es[i].key), Convert(es[i].value))
      {
        if i > 0 {
          assert es[1..][i - 1] == es[i];
          assert r[|next| + (i - 1)] == r[|acc| + i];
        } else {
          assert r[..|next|] == next;
          assert r[|acc|] == r[..|next|][|acc|];
        }
      }
      assert r[..|acc|] == r[..|next|][..|acc|];
    }
  }

  /** No key at any depth has an upper-case letter. */
  predicate SnakeKeys(v: Value)
    decreases v
  {
    match v
    case Leaf(_) => true
    case Dict(es) => SnakeEntries(es)
  }

  predicate SnakeEntries(es: seq<Entry>)
    decreases es
  {
    forall i :: 0 <= i < |es| ==> NoUpper(es[i].key) && SnakeKeys(es[i].value)
  }

  lemma {:induction false} ConvertIsSnake(v: Value)
    ensures SnakeKeys(Convert(v))
    decreases v
  {
    match v
    case Leaf(_) =>
    case Dict(es) => ConvertEntriesSnake(es, []);
  }

  lemma {:induction false} ConvertEntriesSnake(es: seq<Entry>, acc: seq<Entry>)
    requires DistinctKeys(acc) && SnakeEntries(acc)
    ensures SnakeEntries(ConvertEntries(es, acc))
    decreases es
  {
    if |es| > 0 {
      var k := CamelToSnake(es[0].key);
      ConvertIsSnake(es[0].value);
      var next := Put(acc, k, Convert(es[0].value));
      assert SnakeEntries(next);
      ConvertEntriesSnake(es[1..], next);
    }
  }

  // ---------------------------------------------------------------------
  // Response.xml

  /** `format_xml_rec`: one child element per entry, tagged with the key as
      given; text for a leaf, child elements for a nested dictionary. */
  function ToElements(es: seq<Entry>): (r: seq<Element>)
    ensures |r| == |es|
    ensures forall i :: 0 <= i < |es| ==> r[i].tag == es[i].key && r[i].attrs == map[]
    decreases es
  {
    if |es| == 0 then []
    else [ToElement(es[0])] + ToElements(es[1..])
  }

  function ToElement(e: Entry): (r: Element)
    ensures r.tag == e.key && r.attrs == map[]
    decreases e
  {
    match e.value
    case Leaf(text) => Element(e.key, map[], text, [])
    case Dict(sub) => Element(e.key, map[], None, ToElements(sub))
  }

  /** `Response.xml`: the fields under an element named for the response,
      under `TwilioResponse`. */
  function ResponseXml(name: string, data: seq<Entry>): (r: Element)
    ensures r.tag == "TwilioResponse" && |r.children| == 1
    ensures r.children[0].tag == name && |r.children[0].children| == |data|
  {
    Element("TwilioResponse", map[], None, [Element(name, map[], None, ToElements(data))])
  }

  /** Reading the fields back from the elements: an element with children is
      a dictionary, one without is a leaf holding its text. */
  function FromElements(xs: seq<Element>): seq<Entry>
    decreases xs
  {
    if |xs| == 0 then []
    else
      var x := xs[0];
      [Entry(x.tag, if |x.children| == 0 then Leaf(x.text) else Dict(FromElements(x.children)))]
        + FromElements(xs[1..])
  }

  /** Every nested dictionary has at least one entry; an empty one would be
      written as an empty element, which reads back as a leaf. */
  predicate NoEmptyDicts(es: seq<Entry>)
    decreases es
  {
    forall i :: 0 <= i < |es| ==>
      match es[i].value
      case Leaf(_) => true
      case Dict(sub) => |sub| > 0 && NoEmptyDicts(sub)
  }

  /** The XML form loses nothing but empty dictionaries: reading it back
      gives the fields. */
  lemma {:induction false} XmlRoundTrip(es: seq<Entry>)
    requires NoEmptyDicts(es)
    ensures FromElements(ToElements(es)) == es
    decreases es
  {
    if |es| > 0 {
      if es[0].value.Dict? {
        XmlRoundTrip(es[0].value.entries);
      }
      assert NoEmptyDicts(es[1..]) by {
        forall i | 0 <= i < |es[1..]|
          ensures match es[1..][i].value
            case Leaf(_) => true
            case Dict(sub) => |sub| > 0 && NoEmptyDicts(sub)
        {
          assert es[1..][i] == es[i + 1];
        }
      }
      XmlRoundTrip(es[1..]);
    }
  }

  /** The one round trip that fails: an empty dictionary reads back as an
      empty leaf. */
  lemma EmptyDictReadsAsLeaf(key: string)
    ensures FromElements(ToElements([Entry(key, Dict([]))])) == [Entry(key, Leaf(None))]
  {
  }

  /** `ErrorResponse`: the exception's class name and message. */
  function ErrorFields(errorType: string, message: string): seq<Entry> {
    [Entry("error_type", Leaf(Some(errorType))), Entry("error_message", Leaf(Some(message)))]
  }
}
