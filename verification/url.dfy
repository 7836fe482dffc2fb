/** Relative-reference resolution for a Gather `action` (Python 2's
    `urlparse.urljoin(base, url)`), simplified from section 5.2 of RFC 3986:
    the reference is split into scheme, authority and path by hand and merged
    with the base, without removing `.` and `..` segments. */
module Url {
  import opened Wrappers
  import opened Text

  predicate IsAlpha(c: char) {
    ('a' <= c <= 'z') || ('A' <= c <= 'Z')
  }

  predicate IsSchemeChar(c: char) {
    IsAlpha(c) || IsDigit(c) || c == '+' || c == '-' || c == '.'
  }

  function SchemeScan(s: string, i: nat): (r: nat)
    requires 1 <= i <= |s|
    ensures r <= |s|
    ensures r == 0 || (i < r && s[r - 1] == ':')
    decreases |s| - i
  {
    if i == |s| then 0
    else if s[i] == ':' then i + 1
    else if IsSchemeChar(s[i]) then SchemeScan(s, i + 1)
    else 0
  }

  /** Length of the `scheme:` prefix of `s` (section 3.1 of RFC 3986), 0 when
      `s` has no scheme. */
  function SchemeLength(s: string): (r: nat)
    ensures r <= |s|
    ensures r == 0 || (2 <= r && s[r - 1] == ':')
  {
    if |s| > 0 && IsAlpha(s[0]) then SchemeScan(s, 1) else 0
  }

  /** An absolute reference: it names its own scheme. */
  predicate HasScheme(s: string) {
    SchemeLength(s) > 0
  }

  predicate IsDelimiter(c: char) {
    c == '/' || c == '?' || c == '#'
  }

  function SpanScan(s: string, i: nat): (r: nat)
    requires i <= |s|
    ensures i <= r <= |s|
    ensures forall j :: i <= j < r ==> !IsDelimiter(s[j])
    ensures r == |s| || IsDelimiter(s[r])
    decreases |s| - i
  {
    if i == |s| || IsDelimiter(s[i]) then i
    else SpanScan(s, i + 1)
  }

  /** Length of the `//authority` part at the start of `s`, 0 when absent. */
  function AuthorityLength(s: string): (r: nat)
    ensures r <= |s|
  {
    if |s| >= 2 && s[0] == '/' && s[1] == '/' then SpanScan(s, 2) else 0
  }

  /** The directory of a path: everything up to and including its last `/`. */
  function Directory(path: string): (r: string)
    ensures r <= path
    ensures r == "" || r[|r| - 1] == '/'
    ensures '/' !in path[|r|..]
  {
    if |path| == 0 then ""
    else if path[|path| - 1] == '/' then path
    else Directory(path[..|path| - 1])
  }

  /** The parts of a base URL a reference can keep: its `scheme:`, its
      `//authority`, and its path without query or fragment. */
  datatype BaseParts = BaseParts(scheme: string, authority: string, path: string)

  function SplitBase(base: string): BaseParts {
    var n := SchemeLength(base);
    var rest := base[n..];
    var a := AuthorityLength(rest);
    BaseParts(base[..n], rest[..a], Before(Before(rest[a..], '#'), '?'))
  }

  /** Merges a non-empty reference without a scheme into the base. */
  function Join(base: string, p: BaseParts, u: string): string
    requires u != ""
  {
    if |u| >= 2 && u[0] == '/' && u[1] == '/' then p.scheme + u
    else if u[0] == '/' then p.scheme + p.authority + u
    else if u[0] == '#' then Before(base, '#') + u
    else if u[0] == '?' then p.scheme + p.authority + p.path + u
    else if p.authority != "" && p.path == "" then p.scheme + p.authority + "/" + u
    else p.scheme + p.authority + Directory(p.path) + u
  }

  /** The schemes `urljoin` resolves references against (Python 2's
      `uses_relative`); "" stands for a base without a scheme. */
  const UsesRelative: set<string> := {"ftp", "http", "gopher", "nntp", "imap", "wais", "file", "https",
                                      "shttp", "mms", "prospero", "rtsp", "rtspu", "", "sftp", "svn", "svn+ssh"}

  /** The lower-cased scheme name of `s`, without its colon; "" when `s` has
      none. */
  function SchemeName(s: string): (r: string)
    ensures HasScheme(s) <==> r != ""
    ensures !HasScheme(s) ==> r == ""
  {
    var n := SchemeLength(s);
    if n < 2 then "" else Lower(s[..n - 1])
  }

  /** Resolves `reference` against `base`. An absent or empty reference yields
      the base. A reference is returned unchanged when it names a scheme other
      than the base's, or when the base's scheme does not resolve relative
      references; a reference naming the base's own scheme is resolved
      without it. */
  function Resolve(base: string, reference: Option<string>): (r: string)
    ensures reference.None? ==> r == base
    ensures reference == Some("") ==> r == base
    ensures reference.Some? && reference.value != "" && base == "" ==> r == reference.value
    ensures reference.Some? && reference.value != "" && SchemeName(base) !in UsesRelative ==> r == reference.value
    ensures reference.Some? && HasScheme(reference.value) && SchemeName(reference.value) != SchemeName(base) ==>
      r == reference.value
    ensures reference.Some? && base != "" && HasScheme(reference.value)
            && SchemeLength(reference.value) == |reference.value| && SchemeName(base) == SchemeName(reference.value)
            && SchemeName(base) in UsesRelative ==>
      r == Before(base, '#')
  {
    if reference.None? || reference.value == "" then base
    else if base == "" then reference.value
    else
      var u := reference.value;
      var scheme := if HasScheme(u) then SchemeName(u) else SchemeName(base);
      if scheme != SchemeName(base) || scheme !in UsesRelative then u
      else
        var rest := u[SchemeLength(u)..];
        if rest == "" then Before(base, '#') else Join(base, SplitBase(base), rest)
  }

  /** A reference that repeats the base's scheme resolves as it would without
      that scheme. */
  lemma SameSchemeIgnored(base: string, u: string)
    requires base != "" && HasScheme(u) && SchemeName(u) == SchemeName(base) && SchemeName(base) in UsesRelative
    requires SchemeLength(u) < |u| && !HasScheme(u[SchemeLength(u)..])
    ensures Resolve(base, Some(u)) == Resolve(base, Some(u[SchemeLength(u)..]))
  {
  }

  /** A reference without a scheme, against a base whose scheme resolves
      relative references, is merged into the base. */
  lemma ResolveJoins(base: string, u: string)
    requires base != "" && u != "" && !HasScheme(u) && SchemeName(base) in UsesRelative
    ensures Resolve(base, Some(u)) == Join(base, SplitBase(base), u)
  {
    var scheme := if HasScheme(u) then SchemeName(u) else SchemeName(base);
    assert scheme == SchemeName(base);
    assert !(scheme != SchemeName(base) || scheme !in UsesRelative);
    var rest := u[SchemeLength(u)..];
    assert rest == u;
  }

  /** A reference naming the base's own scheme, when that scheme resolves
      relative references, has the rest merged into the base. */
  lemma ResolveSameSchemeJoins(base: string, u: string)
    requires base != "" && HasScheme(u) && SchemeName(u) == SchemeName(base) && SchemeName(base) in UsesRelative
    requires SchemeLength(u) < |u|
    ensures Resolve(base, Some(u)) == Join(base, SplitBase(base), u[SchemeLength(u)..])
  {
  }

  /** An absolute reference, with an authority, under the base's own scheme
      written the same way, is kept as given. */
  lemma AbsoluteSameSchemeKept(base: string, u: string)
    requires base != "" && HasScheme(u) && SchemeName(base) in UsesRelative
    requires SchemeLength(base) == SchemeLength(u) && base[..SchemeLength(base)] == u[..SchemeLength(u)]
    requires SchemeLength(u) + 2 <= |u| && u[SchemeLength(u)] == '/' && u[SchemeLength(u) + 1] == '/'
    ensures Resolve(base, Some(u)) == u
  {
    var n := SchemeLength(u);
    SameSchemeName(base, u);
    ResolveSameSchemeJoins(base, u);
    JoinNetworkPath(base, SplitBase(base), u[n..]);
    assert u == u[..n] + u[n..];
  }

  /** Two strings that begin with the same scheme text have the same scheme name. */
  lemma SameSchemeName(a: string, b: string)
    requires SchemeLength(a) == SchemeLength(b) && a[..SchemeLength(a)] == b[..SchemeLength(b)]
    ensures SchemeName(a) == SchemeName(b)
  {
    var n := SchemeLength(a);
    if n >= 2 {
      assert a[..n - 1] == a[..n][..n - 1];
      assert b[..n - 1] == b[..n][..n - 1];
    }
  }

  /** A network-path reference keeps only the base's scheme. */
  lemma JoinNetworkPath(base: string, p: BaseParts, u: string)
    requires |u| >= 2 && u[0] == '/' && u[1] == '/'
    ensures Join(base, p, u) == p.scheme + u
  {
  }

  /** Splitting on a character that does not occur keeps the whole string. */
  lemma BeforeAbsent(s: string, c: char)
    requires c !in s
    ensures Before(s, c) == s
  {
    var r := Before(s, c);
    assert |r| == |s| by {
      if |r| < |s| {
        assert false;
      }
    }
  }

  /** A path without a `/` has an empty directory. */
  lemma DirectoryAbsent(path: string)
    requires '/' !in path
    ensures Directory(path) == ""
  {
    var r := Directory(path);
    assert r == "" by {
      if r != "" {
        assert false;
      }
    }
  }

  /** A path-absolute reference keeps the base's scheme and authority. */
  lemma JoinRootRelative(base: string, p: BaseParts, u: string)
    requires u != "" && u[0] == '/' && (|u| < 2 || u[1] != '/')
    ensures Join(base, p, u) == p.scheme + p.authority + u
  {
  }

  lemma HttpScheme()
    ensures SchemeLength("http://test_url") == 5
  {
    var base := "http://test_url";
    assert base[4] == ':' && SchemeScan(base, 4) == 5;
    assert IsSchemeChar(base[3]) && SchemeScan(base, 3) == 5;
    assert IsSchemeChar(base[2]) && SchemeScan(base, 2) == 5;
    assert IsSchemeChar(base[1]) && SchemeScan(base, 1) == 5;
  }

  lemma TestUrlAuthority()
    ensures AuthorityLength("//test_url") == 10
  {
    var rest := "//test_url";
    assert forall j :: 2 <= j < |rest| ==> !IsDelimiter(rest[j]);
  }

  lemma HttpTestUrlParts()
    ensures SplitBase("http://test_url") == BaseParts("http:", "//test_url", "")
  {
    var base := "http://test_url";
    HttpScheme();
    assert base[5..] == "//test_url" && base[..5] == "http:";
    TestUrlAuthority();
    var rest := "//test_url";
    assert rest[..10] == rest && rest[10..] == "";
  }

  lemma HttpRelative()
    ensures "http" in UsesRelative
  {
  }

  lemma LowerHttp()
    ensures Lower("http") == "http"
  {
    var u := "http";
    assert LowerChar(u[0]) == 'h' && LowerChar(u[1]) == 't';
    assert LowerChar(u[2]) == 't' && LowerChar(u[3]) == 'p';
  }

  lemma HttpName()
    ensures SchemeName("http://test_url") == "http"
  {
    HttpScheme();
    assert "http://test_url"[..4] == "http";
    LowerHttp();
  }

  /** A path-absolute reference replaces the base's path. */
  lemma ResolveRootRelative()
    ensures Resolve("http://test_url", Some("/suburl")) == "http://test_url/suburl"
  {
    var base := "http://test_url";
    assert Resolve(base, Some("/suburl")) == Join(base, SplitBase(base), "/suburl") by {
      HttpName();
      HttpRelative();
      assert !HasScheme("/suburl");
      ResolveJoins(base, "/suburl");
    }
    JoinTestUrl();
  }

  lemma JoinTestUrl()
    ensures Join("http://test_url", SplitBase("http://test_url"), "/suburl") == "http://test_url/suburl"
  {
    HttpTestUrlParts();
    JoinRootRelative("http://test_url", BaseParts("http:", "//test_url", ""), "/suburl");
    assert "http:" + "//test_url" + "/suburl" == "http://test_url/suburl";
  }

  /** A relative path reference against a base without authority goes
      after the base's directory. */
  lemma JoinRelative(base: string, p: BaseParts, u: string)
    requires u != "" && u[0] != '/' && u[0] != '#' && u[0] != '?' && p.authority == ""
    ensures Join(base, p, u) == p.scheme + Directory(p.path) + u
  {
  }

  /** `test_url` has no scheme, no authority and no directory. */
  lemma TestUrlParts()
    ensures SplitBase("test_url") == BaseParts("", "", "test_url")
    ensures Directory("test_url") == ""
  {
    var base := "test_url";
    assert SchemeLength(base) == 0 by {
      assert base[4] == '_';
      assert SchemeScan(base, 4) == 0;
    }
    assert forall i :: 0 <= i < |base| ==> base[i] != '/' && base[i] != '#' && base[i] != '?';
    BeforeAbsent(base, '#');
    BeforeAbsent(base, '?');
    DirectoryAbsent(base);
    assert base[0..] == base && base[..0] == "";
  }

  lemma NoSchemeActionUrl()
    ensures !HasScheme("action_url")
  {
    assert "action_url"[6] == '_';
    assert SchemeScan("action_url", 6) == 0;
  }

  /** A relative reference against a base without a directory stays as it is. */
  lemma ResolveBareName()
    ensures Resolve("test_url", Some("action_url")) == "action_url"
  {
    TestUrlParts();
    NoSchemeActionUrl();
    assert SchemeName("test_url") == "";
    ResolveJoins("test_url", "action_url");
    JoinRelative("test_url", BaseParts("", "", "test_url"), "action_url");
  }
  lemma TelName()
    ensures SchemeName("tel:123") == "tel"
  {
    var b := "tel:123";
    assert b[3] == ':' && SchemeScan(b, 3) == 4;
    assert IsSchemeChar(b[2]) && SchemeScan(b, 2) == 4;
    assert IsSchemeChar(b[1]) && SchemeScan(b, 1) == 4;
    assert b[..3] == "tel";
    var u := "tel";
    assert LowerChar(u[0]) == 't' && LowerChar(u[1]) == 'e' && LowerChar(u[2]) == 'l';
  }

  /** Against a base whose scheme does not resolve relative references, a
      relative reference is kept as it is. */
  lemma ResolveAgainstTel()
    ensures Resolve("tel:123", Some("x")) == "x"
  {
    TelName();
    TelNotRelative();
  }

  lemma TelNotRelative()
    ensures "tel" !in UsesRelative
  {
    var t := "tel";
    assert forall w :: w in UsesRelative ==> |w| != 3 || w[0] != t[0];
  }

  lemma HttpColonC()
    ensures SchemeLength("http:c") == 5 && SchemeName("http:c") == "http"
  {
    var u := "http:c";
    assert u[4] == ':' && SchemeScan(u, 4) == 5;
    assert IsSchemeChar(u[3]) && SchemeScan(u, 3) == 5;
    assert IsSchemeChar(u[2]) && SchemeScan(u, 2) == 5;
    assert IsSchemeChar(u[1]) && SchemeScan(u, 1) == 5;
    assert u[..4] == "http";
    LowerHttp();
  }

  lemma HostScheme()
    ensures SchemeLength("http://h/a/b") == 5 && SchemeName("http://h/a/b") == "http"
  {
    var b := "http://h/a/b";
    assert b[4] == ':' && SchemeScan(b, 4) == 5;
    assert IsSchemeChar(b[3]) && SchemeScan(b, 3) == 5;
    assert IsSchemeChar(b[2]) && SchemeScan(b, 2) == 5;
    assert IsSchemeChar(b[1]) && SchemeScan(b, 1) == 5;
    assert b[..4] == "http";
    LowerHttp();
  }

  lemma HostAuthority()
    ensures AuthorityLength("//h/a/b") == 3
  {
    var rest := "//h/a/b";
    assert rest[3] == '/' && SpanScan(rest, 3) == 3;
    assert !IsDelimiter(rest[2]) && SpanScan(rest, 2) == 3;
  }

  lemma HostBaseParts()
    ensures SplitBase("http://h/a/b") == BaseParts("http:", "//h", "/a/b")
  {
    var b := "http://h/a/b";
    HostScheme();
    assert b[..5] == "http:" && b[5..] == "//h/a/b";
    HostAuthority();
    var rest := "//h/a/b";
    assert rest[..3] == "//h" && rest[3..] == "/a/b";
    BeforeAbsent("/a/b", '#');
    BeforeAbsent("/a/b", '?');
  }

  lemma DirectoryAB()
    ensures Directory("/a/b") == "/a/"
  {
    assert "/a/b"[..3] == "/a/";
  }

  /** A reference naming the base's own scheme without an authority is
      merged with the base's path. */
  lemma ResolveSameScheme()
    ensures Resolve("http://h/a/b", Some("http:c")) == "http://h/a/c"
  {
    var base := "http://h/a/b";
    assert Resolve(base, Some("http:c")) == Join(base, SplitBase(base), "c") by {
      HttpColonC();
      HostScheme();
      HttpRelative();
      ResolveSameSchemeJoins(base, "http:c");
      assert "http:c"[5..] == "c";
    }
    JoinHostC();
  }

  lemma JoinHostC()
    ensures Join("http://h/a/b", SplitBase("http://h/a/b"), "c") == "http://h/a/c"
  {
    var base := "http://h/a/b";
    var p := BaseParts("http:", "//h", "/a/b");
    assert SplitBase(base) == p by {
      HostBaseParts();
    }
    assert Join(base, p, "c") == p.scheme + p.authority + Directory(p.path) + "c" by {
      JoinUnderDirectory(base, p, "c");
    }
    DirectoryAB();
    ConcatHostC();
  }

  lemma ConcatHostC()
    ensures "http:" + "//h" + "/a/" + "c" == "http://h/a/c"
  {
  }

  /** A relative path reference against a base with a path goes after the
      base's directory. */
  lemma JoinUnderDirectory(base: string, p: BaseParts, u: string)
    requires u != "" && u[0] != '/' && u[0] != '#' && u[0] != '?' && p.path != ""
    ensures Join(base, p, u) == p.scheme + p.authority + Directory(p.path) + u
  {
  }

}
