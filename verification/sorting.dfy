/** The ordering a list response keeps its items in, vxtwinio/responses/base.py
    `ListResponse.__init__`: Python 2's `sorted` by each item's `sid`, where
    `None` comes before every string and strings compare character by
    character, a proper prefix first. */
module Sorting {
  import opened Wrappers
  import opened Responses

  /** One entry of a list response: the response's class name and its
      fields. */
  datatype Item = Item(name: string, fields: seq<Entry>) {
    /** `Response.sid`, the `Sid` field or `None`. A `Sid` holding a nested
        dictionary is taken as `None` here. */
    function Sid(): Option<string> {
      SidIn(fields)
    }
  }

  function SidIn(es: seq<Entry>): Option<string> {
    if |es| == 0 then None
    else if es[0].key == "Sid" then (if es[0].value.Leaf? then es[0].value.text else None)
    else SidIn(es[1..])
  }

  /** Python 2's `<` on byte strings. */
  predicate StrLess(a: string, b: string)
    decreases |a|
  {
    |b| > 0 && (|a| == 0 || a[0] < b[0] || (a[0] == b[0] && StrLess(a[1..], b[1..])))
  }

  lemma {:induction false} StrLessIrreflexive(a: string)
    ensures !StrLess(a, a)
    decreases |a|
  {
    if |a| > 0 {
      StrLessIrreflexive(a[1..]);
    }
  }

  lemma {:induction false} StrLessTransitive(a: string, b: string, c: string)
    requires StrLess(a, b) && StrLess(b, c)
    ensures StrLess(a, c)
    decreases |a|
  {
    if |a| > 0 && a[0] == b[0] && b[0] == c[0] {
      StrLessTransitive(a[1..], b[1..], c[1..]);
    }
  }

  lemma {:induction false} StrLessTotal(a: string, b: string)
    ensures a == b || StrLess(a, b) || StrLess(b, a)
    decreases |a|
  {
    if |a| > 0 && |b| > 0 && a[0] == b[0] {
      StrLessTotal(a[1..], b[1..]);
      if a[1..] == b[1..] {
        assert a == [a[0]] + a[1..] && b == [b[0]] + b[1..];
      }
    }
  }

  /** Python 2's `<` on sort keys that are `None` or a string. */
  predicate KeyLess(a: Option<string>, b: Option<string>) {
    b.Some? && (a.None? || StrLess(a.value, b.value))
  }

  lemma KeyLessIrreflexive(a: Option<string>)
    ensures !KeyLess(a, a)
  {
    if a.Some? {
      StrLessIrreflexive(a.value);
    }
  }

  lemma KeyLessTransitive(a: Option<string>, b: Option<string>, c: Option<string>)
    requires KeyLess(a, b) && KeyLess(b, c)
    ensures KeyLess(a, c)
  {
    if a.Some? {
      StrLessTransitive(a.value, b.value, c.value);
    }
  }

  lemma KeyLessTotal(a: Option<string>, b: Option<string>)
    ensures a == b || KeyLess(a, b) || KeyLess(b, a)
  {
    if a.Some? && b.Some? {
      StrLessTotal(a.value, b.value);
    }
  }

  /** Not after: `a <= b` for a total order. */
  predicate KeyAtMost(a: Option<string>, b: Option<string>) {
    !KeyLess(b, a)
  }

  lemma KeyAtMostTransitive(a: Option<string>, b: Option<string>, c: Option<string>)
    requires KeyAtMost(a, b) && KeyAtMost(b, c)
    ensures KeyAtMost(a, c)
  {
    if KeyLess(c, a) {
      KeyLessTotal(a, b);
      KeyLessTotal(b, c);
      if a == b {
      } else if b == c {
      } else {
        KeyLessTransitive(a, b, c);
        KeyLessTransitive(c, a, b);
      }
    }
  }

  predicate Sorted(xs: seq<Item>) {
    forall i, j :: 0 <= i < j < |xs| ==> KeyAtMost(xs[i].Sid(), xs[j].Sid())
  }

  /** One step of insertion: `x` goes before the first item not below it,
      so it stays ahead of items with the same sid. */
  function Insert(x: Item, xs: seq<Item>): (r: seq<Item>)
    ensures |r| == |xs| + 1
    ensures multiset(r) == multiset(xs) + multiset{x}
  {
    if |xs| == 0 then [x]
    else if !KeyLess(xs[0].Sid(), x.Sid()) then [x] + xs
    else
      assert xs == [xs[0]] + xs[1..];
      [xs[0]] + Insert(x, xs[1..])
  }

  /** `sorted(items, key=lambda k: k.sid)`. */
  function Sort(xs: seq<Item>): (r: seq<Item>)
    ensures |r| == |xs|
    ensures multiset(r) == multiset(xs)
  {
    if |xs| == 0 then []
    else
      assert xs == [xs[0]] + xs[1..];
      Insert(xs[0], Sort(xs[1..]))
  }

  /** An item no later than every item of a sorted sequence can go first. */
  lemma ConsSorted(h: Item, rest: seq<Item>)
    requires Sorted(rest)
    requires forall j :: 0 <= j < |rest| ==> KeyAtMost(h.Sid(), rest[j].Sid())
    ensures Sorted([h] + rest)
  {
    var r := [h] + rest;
    forall i, j | 0 <= i < j < |r|
      ensures KeyAtMost(r[i].Sid(), r[j].Sid())
    {
      if i == 0 {
        assert r[j] == rest[j - 1];
      } else {
        assert r[i] == rest[i - 1] && r[j] == rest[j - 1];
      }
    }
  }

  lemma SortedTail(xs: seq<Item>)
    requires Sorted(xs) && |xs| > 0
    ensures Sorted(xs[1..])
  {
    forall i, j | 0 <= i < j < |xs[1..]|
      ensures KeyAtMost(xs[1..][i].Sid(), xs[1..][j].Sid())
    {
      assert xs[1..][i] == xs[i + 1] && xs[1..][j] == xs[j + 1];
    }
  }

  /** The head of a sorted sequence is no later than anything inserted
      behind it. */
  lemma HeadFirst(x: Item, xs: seq<Item>)
    requires Sorted(xs) && |xs| > 0 && KeyLess(xs[0].Sid(), x.Sid())
    ensures forall j :: 0 <= j < |Insert(x, xs[1..])| ==> KeyAtMost(xs[0].Sid(), Insert(x, xs[1..])[j].Sid())
  {
    var rest := Insert(x, xs[1..]);
    forall j | 0 <= j < |rest|
      ensures KeyAtMost(xs[0].Sid(), rest[j].Sid())
    {
      assert rest[j] in multiset(rest);
      if rest[j] == x {
        KeyLessIrreflexive(x.Sid());
        if KeyLess(x.Sid(), xs[0].Sid()) {
          KeyLessTransitive(x.Sid(), xs[0].Sid(), x.Sid());
        }
      } else {
        assert rest[j] in multiset(xs[1..]);
        var k :| 0 <= k < |xs[1..]| && xs[1..][k] == rest[j];
        assert xs[k + 1] == rest[j];
      }
    }
  }

  lemma {:induction false} InsertSorted(x: Item, xs: seq<Item>)
    requires Sorted(xs)
    ensures Sorted(Insert(x, xs))
  {
    if |xs| == 0 {
    } else if !KeyLess(xs[0].Sid(), x.Sid()) {
      forall j | 0 <= j < |xs|
        ensures KeyAtMost(x.Sid(), xs[j].Sid())
      {
        if j > 0 {
          KeyAtMostTransitive(x.Sid(), xs[0].Sid(), xs[j].Sid());
        }
      }
      ConsSorted(x, xs);
    } else {
      SortedTail(xs);
      InsertSorted(x, xs[1..]);
      HeadFirst(x, xs);
      ConsSorted(xs[0], Insert(x, xs[1..]));
    }
  }

  /** The sort orders by sid and keeps every item: its result is a sorted
      permutation of its input. */
  lemma {:induction false} SortSorted(xs: seq<Item>)
    ensures Sorted(Sort(xs))
    ensures multiset(Sort(xs)) == multiset(xs)
  {
    if |xs| > 0 {
      SortSorted(xs[1..]);
      InsertSorted(xs[0], Sort(xs[1..]));
    }
  }

  /** Sorting sorted items changes nothing. */
  lemma {:induction false} SortKeepsSorted(xs: seq<Item>)
    requires Sorted(xs)
    ensures Sort(xs) == xs
  {
    if |xs| > 0 {
      SortedTail(xs);
      SortKeepsSorted(xs[1..]);
      if |xs| > 1 {
        assert KeyAtMost(xs[0].Sid(), xs[1].Sid());
      }
      assert xs == [xs[0]] + xs[1..];
    }
  }
}
