/** The paged list responses of vxtwinio/responses/base.py: `ListResponse`
    cuts its sorted items into pages and describes each page with attributes
    (its number, size, bounds and the URIs of the first, next, previous and
    last pages), written as XML attributes or alongside the items in JSON. */
module Pagination {
  import opened Wrappers
  import opened Text
  import opened Xml
  import opened Responses
  import opened Sorting

  /** Page sizes above this are cut down to it. */
  const MaxPageSize := 1000

  datatype PageAttributes = PageAttributes(
    page: int,
    numPages: int,
    pageSize: int,
    total: int,
    start: int,
    end: int,
    uri: string,
    firstPageUri: string,
    nextPageUri: Option<string>,
    previousPageUri: Option<string>,
    lastPageUri: string)

  datatype Page = Page(attributes: PageAttributes, items: seq<Item>)

  /** The source's `StopIteration` when no item's sid is above the
      `AfterSid` asked for. */
  datatype PageError = NoItemAfter(afterSid: string)

  /** `ListResponse(uri, items)`: the items are kept sorted by sid. */
  datatype ListResponse = ListResponse(name: string, uri: string, items: seq<Item>)

  function MakeList(name: string, uri: string, items: seq<Item>): (r: ListResponse)
    ensures Sorted(r.items) && multiset(r.items) == multiset(items)
    ensures r.name == name && r.uri == uri
  {
    SortSorted(items);
    ListResponse(name, uri, Sort(items))
  }

  function Min(a: int, b: int): int {
    if a <= b then a else b
  }

  /** `int(ceil(total * 1.0 / size)) or 1`: the pages needed for `total`
      items, and one page when there are none. */
  function NumPages(total: nat, size: int): (r: int)
    requires size >= 1
    ensures r >= 1
    ensures total == 0 ==> r == 1
    ensures total > 0 ==> (r - 1) * size < total <= r * size
  {
    if total == 0 then 1 else (total + size - 1) / size
  }

  /** Where a Python slice bound `i` lands in a sequence of length `n`: a
      negative bound counts from the end, and both ends are clamped. */
  function SliceBound(i: int, n: nat): (r: nat)
    ensures r <= n
    ensures 0 <= i <= n ==> r == i
    ensures i > n ==> r == n
  {
    if i < 0 then (if i + n < 0 then 0 else i + n)
    else if i > n then n
    else i
  }

  /** `xs[i:j]` in Python. */
  function Slice(xs: seq<Item>, i: int, j: int): (r: seq<Item>)
    ensures 0 <= i <= |xs| && i <= j ==> r == xs[i..Min(j, |xs|)]
  {
    var a := SliceBound(i, |xs|);
    var b := SliceBound(j, |xs|);
    if a <= b then xs[a..b] else []
  }

  /** The first index whose item's sid is above `afterSid`. */
  function FirstAfter(items: seq<Item>, afterSid: string): (r: Option<nat>)
    ensures r.None? <==> forall i :: 0 <= i < |items| ==> !KeyLess(Some(afterSid), items[i].Sid())
    ensures r.Some? ==> r.value < |items| && KeyLess(Some(afterSid), items[r.value].Sid())
    ensures r.Some? ==> forall i :: 0 <= i < r.value ==> !KeyLess(Some(afterSid), items[i].Sid())
  {
    if |items| == 0 then None
    else if KeyLess(Some(afterSid), items[0].Sid()) then Some(0)
    else
      assert forall i :: 1 <= i < |items| ==> items[i] == items[1..][i - 1];
      match FirstAfter(items[1..], afterSid)
      case None => None
      case Some(n) => Some(n + 1)
  }

  /** `'%s?Page=%s&PageSize=%s' % (base, page, size)`. */
  function PageUri(base: string, page: int, size: int): string {
    base + "?Page=" + IntToString(page) + "&PageSize=" + IntToString(size)
  }

  /** `'%s' % sid` for a sid that may be `None`. */
  function SidText(sid: Option<string>): string {
    if sid.Some? then sid.value else "None"
  }

  /** The sid of a page's last item. */
  function LastSid(pageItems: seq<Item>): Option<string> {
    if |pageItems| == 0 then None else pageItems[|pageItems| - 1].Sid()
  }

  /** The next page's URI names the last sid of this page. */
  function NextUri(base: string, page: int, size: int, pageItems: seq<Item>): string
    requires |pageItems| > 0
  {
    PageUri(base, page + 1, size) + "&AfterSid=" + SidText(pageItems[|pageItems| - 1].Sid())
  }

  /** Where a page starts, and its number: after the first item above
      `afterSid` when one is given, else at `page` pages in. */
  function Position(items: seq<Item>, page: int, size: int, afterSid: Option<string>): (r: Result<(int, int), PageError>)
    requires size >= 1
    ensures afterSid.None? ==> r == Ok((page * size, page))
    ensures afterSid.Some? ==> (r.Err? <==> FirstAfter(items, afterSid.value).None?)
    ensures afterSid.Some? && r.Ok? ==>
      r.value.0 == FirstAfter(items, afterSid.value).value && r.value.1 == r.value.0 / size
  {
    match afterSid
    case None => Ok((page * size, page))
    case Some(sid) =>
      match FirstAfter(items, sid)
      case None => Err(NoItemAfter(sid))
      case Some(n) => Ok((n, n / size))
  }

  /** The page of `size` items from `start`, numbered `number`, with the
      attributes the source gives it. */
  function Build(items: seq<Item>, uri: string, size: int, start: int, number: int): (r: Page)
    requires 1 <= size
    ensures var a := r.attributes;
      && a.page == number && a.start == start && a.pageSize == size
      && a.total == |items|
      && a.numPages == NumPages(|items|, size)
      && |r.items| <= size
      && (0 <= start <= |items| ==> r.items == items[start..Min(start + size, |items|)])
      && a.end == start + |r.items|
      && (a.nextPageUri.None? <==> |r.items| < size)
  {
    var numPages := NumPages(|items|, size);
    var pageItems := Slice(items, start, start + size);
    var base := Before(uri, '?');
    var next := if |pageItems| < size then None else Some(NextUri(base, number, size, pageItems));
    var previous := if number == 0 then None else Some(PageUri(base, number - 1, size));
    Page(
      PageAttributes(number, numPages, size, |items|, start, start + |pageItems|, uri,
        PageUri(base, number, size), next, previous, PageUri(base, numPages - 1, size)),
      pageItems)
  }

  /** The URIs of a built page: all on the list's URI with its query
      dropped; the first-page URI names the page itself, the last-page URI
      the last page; a previous page exists except on page 0, and the next
      page's URI names the last sid of this page. */
  lemma BuildUris(items: seq<Item>, uri: string, size: int, start: int, number: int)
    requires 1 <= size
    ensures var r := Build(items, uri, size, start, number);
      var a := r.attributes;
      var base := Before(uri, '?');
      && a.uri == uri
      && a.firstPageUri == PageUri(base, number, size)
      && a.lastPageUri == PageUri(base, a.numPages - 1, size)
      && (a.previousPageUri.None? <==> number == 0)
      && (a.previousPageUri.Some? ==> a.previousPageUri.value == PageUri(base, number - 1, size))
      && (a.nextPageUri.Some? ==> |r.items| > 0 && a.nextPageUri.value == NextUri(base, number, size, r.items))
  {
  }

  /** `_get_page_attributes` as the source writes it: the page size is capped
      at 1000; a page starts after the first sid above `afterSid` when one is
      given, and at `page` pages in otherwise; a next-page URI is offered
      whenever the page is full. */
  function PageAsWritten(items: seq<Item>, uri: string, page: int, pagesize: int, afterSid: Option<string>): (r: Result<Page, PageError>)
    requires pagesize >= 1
    ensures r.Err? <==> afterSid.Some? && FirstAfter(items, afterSid.value).None?
    ensures r.Err? ==> r.error == NoItemAfter(afterSid.value)
    ensures r.Ok? ==>
      var a := r.value.attributes;
      var size := Min(pagesize, MaxPageSize);
      && 1 <= size <= MaxPageSize
      && (afterSid.None? ==> a.start == page * size && a.page == page)
      && (afterSid.Some? ==>
            a.start == FirstAfter(items, afterSid.value).value && a.page == a.start / size)
      && r.value == Build(items, uri, size, a.start, a.page)
  {
    var size := Min(pagesize, MaxPageSize);
    var (start, number) :- Position(items, page, size, afterSid);
    Ok(Build(items, uri, size, start, number))
  }

  /** `_get_page_attributes`, with the next-page URI withheld when the page
      reaches the last item, since following it could find no item after
      that page's last sid. Everything else is as the source writes it. */
  function GetPage(items: seq<Item>, uri: string, page: int, pagesize: int, afterSid: Option<string>): (r: Result<Page, PageError>)
    requires pagesize >= 1
    ensures r.Ok? <==> PageAsWritten(items, uri, page, pagesize, afterSid).Ok?
    ensures r.Err? ==> r == PageAsWritten(items, uri, page, pagesize, afterSid)
    ensures r.Ok? ==>
      var w := PageAsWritten(items, uri, page, pagesize, afterSid).value;
      var a := r.value.attributes;
      && r.value.items == w.items
      && a == w.attributes.(nextPageUri := a.nextPageUri)
      && (a.nextPageUri.None? <==> |r.value.items| < a.pageSize || a.end >= |items|)
      && (a.nextPageUri.Some? ==> a.nextPageUri == w.attributes.nextPageUri)
  {
    var p :- PageAsWritten(items, uri, page, pagesize, afterSid);
    var a := p.attributes;
    var next := if |p.items| < a.pageSize || a.end >= |items| then None else a.nextPageUri;
    Ok(p.(attributes := a.(nextPageUri := next)))
  }

  lemma MulDiv(k: int, n: int)
    requires n >= 1
    ensures (k * n) / n == k
  {
    var q := (k * n) / n;
    var r := (k * n) % n;
    assert k * n == q * n + r && 0 <= r < n;
    assert (k - q) * n == k * n - q * n;
    MulSign(k - q, n);
  }

  lemma MulSign(d: int, n: int)
    requires n >= 1
    ensures d >= 1 ==> d * n >= n
    ensures d <= -1 ==> d * n <= -n
  {
    if d >= 1 {
      NonNegativeProduct(d - 1, n);
      assert d * n == (d - 1) * n + n;
    }
    if d <= -1 {
      NonNegativeProduct(-d - 1, n);
      assert d * n == -((-d - 1) * n) - n;
    }
  }

  /** The page holding index `(page + 1) * size` is numbered `page + 1`. */
  lemma NextPageNumber(page: int, size: int)
    requires size >= 1
    ensures (page * size + size) / size == page + 1
  {
    assert page * size + size == (page + 1) * size;
    MulDiv(page + 1, size);
  }

  /** In strictly increasing sids, the first sid above the one at `last` is
      the next one. */
  lemma FirstAfterNext(items: seq<Item>, last: nat)
    requires last + 1 < |items|
    requires items[last].Sid().Some?
    requires forall i, j :: 0 <= i < j < |items| ==> KeyLess(items[i].Sid(), items[j].Sid())
    ensures FirstAfter(items, items[last].Sid().value) == Some(last + 1)
  {
    var afterSid := items[last].Sid();
    forall i | 0 <= i <= last
      ensures !KeyLess(afterSid, items[i].Sid())
    {
      if i == last {
        KeyLessIrreflexive(afterSid);
      } else if KeyLess(afterSid, items[i].Sid()) {
        KeyLessTransitive(afterSid, items[i].Sid(), afterSid);
        KeyLessIrreflexive(afterSid);
      }
    }
    assert KeyLess(afterSid, items[last + 1].Sid());
  }

  /** A page that offers a next-page URI is full and ends before the last
      item. */
  lemma FullPage(items: seq<Item>, uri: string, page: int, pagesize: int)
    requires pagesize >= 1 && page >= 0
    requires GetPage(items, uri, page, pagesize, None).Ok?
    requires GetPage(items, uri, page, pagesize, None).value.attributes.nextPageUri.Some?
    ensures var p := GetPage(items, uri, page, pagesize, None).value;
      var start := p.attributes.start;
      var size := Min(pagesize, MaxPageSize);
      && start == page * size
      && 0 <= start && start + size < |items|
      && p.items == items[start..start + size]
      && p.attributes.end == start + size
  {
    var p := GetPage(items, uri, page, pagesize, None).value;
    var w := PageAsWritten(items, uri, page, pagesize, None).value;
    var size := Min(pagesize, MaxPageSize);
    var start := w.attributes.start;
    assert start == page * size;
    NonNegativeProduct(page, size);
    assert w == Build(items, uri, size, start, page);
    assert |p.items| == size && p.attributes.end < |items|;
  }

  lemma NonNegativeProduct(a: int, b: int)
    requires a >= 0 && b >= 0
    ensures a * b >= 0
  {
  }

  /** Asking for the page after sid `items[last]` starts at `last + 1`. */
  lemma PageAfter(items: seq<Item>, uri: string, page: int, pagesize: int, last: nat)
    requires pagesize >= 1
    requires last + 1 < |items|
    requires items[last].Sid().Some?
    requires forall i, j :: 0 <= i < j < |items| ==> KeyLess(items[i].Sid(), items[j].Sid())
    ensures var r := GetPage(items, uri, page, pagesize, items[last].Sid());
      && r.Ok?
      && r.value.attributes.start == last + 1
      && r.value.attributes.page == (last + 1) / Min(pagesize, MaxPageSize)
  {
    FirstAfterNext(items, last);
  }

  /** Following the next-page URI of a page continues the list where the page
      ended: the next page starts at this page's end and is numbered one
      more, when every item has a sid and the sids strictly increase. */
  lemma NextPageContinues(items: seq<Item>, uri: string, page: int, pagesize: int)
    requires pagesize >= 1 && page >= 0
    requires forall i :: 0 <= i < |items| ==> items[i].Sid().Some?
    requires forall i, j :: 0 <= i < j < |items| ==> KeyLess(items[i].Sid(), items[j].Sid())
    requires GetPage(items, uri, page, pagesize, None).Ok?
    requires GetPage(items, uri, page, pagesize, None).value.attributes.nextPageUri.Some?
    ensures var p := GetPage(items, uri, page, pagesize, None).value;
      var afterSid := LastSid(p.items);
      && GetPage(items, uri, page + 1, pagesize, afterSid).Ok?
      && GetPage(items, uri, page + 1, pagesize, afterSid).value.attributes.start == p.attributes.end
      && GetPage(items, uri, page + 1, pagesize, afterSid).value.attributes.page == page + 1
  {
    var p := GetPage(items, uri, page, pagesize, None).value;
    var size := Min(pagesize, MaxPageSize);
    var last := p.attributes.start + size - 1;
    assert 0 <= last && last + 1 < |items| && p.attributes.end == last + 1
        && LastSid(p.items) == items[last].Sid() && (last + 1) / size == page + 1 by {
      FullPage(items, uri, page, pagesize);
      NextPageNumber(page, size);
    }
    var afterSid := items[last].Sid();
    assert afterSid.Some?;
    var q := GetPage(items, uri, page + 1, pagesize, afterSid);
    assert q.Ok? && q.value.attributes.start == last + 1 && q.value.attributes.page == (last + 1) / size by {
      PageAfter(items, uri, page + 1, pagesize, last);
    }
    assert GetPage(items, uri, page + 1, pagesize, LastSid(p.items)) == q;
  }

  /** The source's next-page URI can lead nowhere: a full last page of two
      items with sids "0" and "1" offers a next page after sid "1", and
      asking for that page finds no item after it. */
  lemma FullLastPageDeadEnd(uri: string)
    ensures var items := [Item("Call", [Entry("Sid", Leaf(Some("0")))]),
                          Item("Call", [Entry("Sid", Leaf(Some("1")))])];
      && PageAsWritten(items, uri, 0, 2, None).Ok?
      && PageAsWritten(items, uri, 0, 2, None).value.attributes.nextPageUri.Some?
      && PageAsWritten(items, uri, 0, 2, None).value.items[1].Sid() == Some("1")
      && PageAsWritten(items, uri, 1, 2, Some("1")) == Err(NoItemAfter("1"))
      && GetPage(items, uri, 0, 2, None).value.attributes.nextPageUri.None?
  {
    var items := [Item("Call", [Entry("Sid", Leaf(Some("0")))]),
                  Item("Call", [Entry("Sid", Leaf(Some("1")))])];
    assert items[0].Sid() == Some("0");
    assert items[1].Sid() == Some("1");
    assert !StrLess("1", "0");
    StrLessIrreflexive("1");
    var w := PageAsWritten(items, uri, 0, 2, None).value;
    assert w == Build(items, uri, 2, 0, 0);
    assert w.items == items;
  }

  /** An XML attribute value, before `str()`. */
  datatype Attr = Num(n: int) | Str(s: string) | Null

  /** `str(value)`, with `None` written as the empty string. */
  function Render(v: Attr): string {
    match v
    case Num(n) => IntToString(n)
    case Str(s) => s
    case Null => ""
  }

  /** The attributes in the order the source's dictionary lists them. */
  function AttributePairs(a: PageAttributes): seq<(string, Attr)> {
    [("page", Num(a.page)),
     ("num_pages", Num(a.numPages)),
     ("page_size", Num(a.pageSize)),
     ("total", Num(a.total)),
     ("start", Num(a.start)),
     ("end", Num(a.end)),
     ("uri", Str(a.uri)),
     ("first_page_uri", Str(a.firstPageUri)),
     ("next_page_uri", if a.nextPageUri.Some? then Str(a.nextPageUri.value) else Null),
     ("previous_page_uri", if a.previousPageUri.Some? then Str(a.previousPageUri.value) else Null),
     ("last_page_uri", Str(a.lastPageUri))]
  }

  /** `_format_attributes_for_xml`: underscores dropped from every key, every
      value made a string; of two keys that meet, the later wins. */
  function FormatAttributesForXml(pairs: seq<(string, Attr)>): map<string, string> {
    if |pairs| == 0 then map[]
    else
      var last := pairs[|pairs| - 1];
      FormatAttributesForXml(pairs[..|pairs| - 1])[Without(last.0, '_') := Render(last.1)]
  }

  /** The formatted attributes have exactly the keys of the pairs with their
      underscores dropped. */
  lemma {:induction false} FormattedKeys(pairs: seq<(string, Attr)>)
    ensures forall i :: 0 <= i < |pairs| ==> Without(pairs[i].0, '_') in FormatAttributesForXml(pairs)
    ensures forall k :: k in FormatAttributesForXml(pairs) ==>
      exists i :: 0 <= i < |pairs| && k == Without(pairs[i].0, '_')
  {
    if |pairs| > 0 {
      var init := pairs[..|pairs| - 1];
      var last := pairs[|pairs| - 1];
      FormattedKeys(init);
      assert FormatAttributesForXml(pairs) == FormatAttributesForXml(init)[Without(last.0, '_') := Render(last.1)];
      forall k | k in FormatAttributesForXml(pairs)
        ensures exists i :: 0 <= i < |pairs| && k == Without(pairs[i].0, '_')
      {
        if k != Without(last.0, '_') {
          assert k in FormatAttributesForXml(init);
          var i :| 0 <= i < |init| && k == Without(init[i].0, '_');
          assert init[i] == pairs[i];
        }
      }
      forall i | 0 <= i < |init|
        ensures Without(pairs[i].0, '_') in FormatAttributesForXml(pairs)
      {
        assert init[i] == pairs[i];
      }
    }
  }

  /** Each value is written as `str()` would, `None` as the empty string,
      under its key with underscores dropped, unless a later key meets it. */
  lemma {:induction false} FormattedValues(pairs: seq<(string, Attr)>, i: nat)
    requires i < |pairs|
    requires forall j :: i < j < |pairs| ==> Without(pairs[j].0, '_') != Without(pairs[i].0, '_')
    ensures Without(pairs[i].0, '_') in FormatAttributesForXml(pairs)
    ensures FormatAttributesForXml(pairs)[Without(pairs[i].0, '_')] == Render(pairs[i].1)
  {
    if i < |pairs| - 1 {
      var init := pairs[..|pairs| - 1];
      assert init[i] == pairs[i];
      forall j | i < j < |init|
        ensures Without(init[j].0, '_') != Without(init[i].0, '_')
      {
        assert init[j] == pairs[j];
      }
      FormattedValues(init, i);
    }
  }

  /** The root element of `format_xml`: the page's attributes as
      `_get_page_attributes` writes them (the next-page URI of a full last
      page included), and each of its items as the element its own response
      would write. */
  function FormatXml(list: ListResponse, page: int, pagesize: int, afterSid: Option<string>): (r: Result<Element, PageError>)
    requires pagesize >= 1
    ensures r.Ok? <==> PageAsWritten(list.items, list.uri, page, pagesize, afterSid).Ok?
    ensures r.Ok? ==>
      var p := PageAsWritten(list.items, list.uri, page, pagesize, afterSid).value;
      && r.value.tag == "TwilioResponse" && |r.value.children| == 1
      && r.value.children[0].tag == list.name
      && r.value.children[0].attrs == FormatAttributesForXml(AttributePairs(p.attributes))
      && |r.value.children[0].children| == |p.items|
      && forall i :: 0 <= i < |p.items| ==>
           r.value.children[0].children[i] == ResponseXml(p.items[i].name, p.items[i].fields).children[0]
  {
    var p :- PageAsWritten(list.items, list.uri, page, pagesize, afterSid);
    var children := seq(|p.items|, i requires 0 <= i < |p.items| =>
      ResponseXml(p.items[i].name, p.items[i].fields).children[0]);
    Ok(Element("TwilioResponse", map[], None,
      [Element(list.name, FormatAttributesForXml(AttributePairs(p.attributes)), None, children)]))
  }

  /** The dictionary `format_json` dumps: the page's attributes as written, and under
      the snake-case list name the items' converted dictionaries. */
  datatype JsonPage = JsonPage(attributes: PageAttributes, listKey: string, items: seq<Value>)

  function FormatJson(list: ListResponse, page: int, pagesize: int, afterSid: Option<string>): (r: Result<JsonPage, PageError>)
    requires pagesize >= 1
    ensures r.Ok? <==> PageAsWritten(list.items, list.uri, page, pagesize, afterSid).Ok?
    ensures r.Ok? ==>
      var p := PageAsWritten(list.items, list.uri, page, pagesize, afterSid).value;
      && r.value.attributes == p.attributes
      && r.value.listKey == CamelToSnake(list.name)
      && |r.value.items| == |p.items|
      && forall i :: 0 <= i < |p.items| ==> r.value.items[i] == Convert(Dict(p.items[i].fields)) && SnakeKeys(r.value.items[i])
  {
    var p :- PageAsWritten(list.items, list.uri, page, pagesize, afterSid);
    var items := seq(|p.items|, i requires 0 <= i < |p.items| => Convert(Dict(p.items[i].fields)));
    assert forall i :: 0 <= i < |items| ==> SnakeKeys(items[i]) by {
      forall i | 0 <= i < |items| ensures SnakeKeys(items[i]) {
        ConvertIsSnake(Dict(p.items[i].fields));
      }
    }
    Ok(JsonPage(p.attributes, CamelToSnake(list.name), items))
  }
}
