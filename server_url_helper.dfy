/** The server URL helper (src/ServerUrlHelper.php): composes a root-relative
    path, or, once a request URI is bound, an absolute URL rebased onto that URI. */
module ServerUrl {
  import opened Wrappers
  import opened PhpText

  /** A URI: everything before the path (scheme and authority) as one prefix,
      then path, query and fragment ("" when absent). */
  datatype Uri = Uri(prefix: string, path: string, query: string, fragment: string)

  /** `(string) $uri`: the query and fragment appear only when non-empty. */
  function UriString(u: Uri): string {
    u.prefix + u.path
      + (if u.query != "" then "?" + u.query else "")
      + (if u.fragment != "" then "#" + u.fragment else "")
  }

  /** The parts of a specification string `path[?query][#fragment]`. */
  datatype SpecParts = SpecParts(path: string, query: Option<string>, fragment: Option<string>)

  function QueryPart(query: Option<string>): string {
    if query.Some? then "?" + query.value else ""
  }

  function FragmentPart(fragment: Option<string>): string {
    if fragment.Some? then "#" + fragment.value else ""
  }

  function JoinSpec(p: SpecParts): string {
    p.path + QueryPart(p.query) + FragmentPart(p.fragment)
  }

  /** The fragment group `(?P<fragment>.*)` followed by `$`: `.` does not match
      a newline, and `$` matches at the end or before one final newline. */
  function FragmentTail(t: string): Option<string> {
    if '\n' !in t then Some(t)
    else if t[|t| - 1] == '\n' && '\n' !in t[..|t| - 1] then Some(t[..|t| - 1])
    else None
  }

  /** The match of
      `^(?P<path>[^?#]*)(?:(?:\?(?P<query>[^#]*))?(?:\#(?P<fragment>.*))?)$`,
      or None when the pattern does not match. The path takes everything up to
      the first `?` or `#`. */
  function SplitSpec(spec: string): Option<SpecParts> {
    var i := IndexOfAny(spec, {'?', '#'});
    SplitAfterPath(spec[..i], spec[i..])
  }

  /** What follows the path: nothing, a query, or a fragment. */
  function SplitAfterPath(path: string, tail: string): Option<SpecParts> {
    if tail == [] then Some(SpecParts(path, None, None))
    else if tail[0] == '?' then SplitAfterQueryMark(path, tail[1..])
    else WithFragment(path, None, tail[1..])
  }

  /** After `?`: the query runs up to the first `#`. */
  function SplitAfterQueryMark(path: string, rest: string): Option<SpecParts> {
    var k := IndexOfAny(rest, {'#'});
    if k == |rest| then Some(SpecParts(path, Some(rest), None))
    else WithFragment(path, Some(rest[..k]), rest[k + 1..])
  }

  function WithFragment(path: string, query: Option<string>, t: string): Option<SpecParts> {
    match FragmentTail(t)
    case None => None
    case Some(f) => Some(SpecParts(path, query, Some(f)))
  }

  /** The pieces are well formed: no `?` or `#` in the path, no `#` in the query,
      no newline in the fragment. */
  predicate WellFormedParts(p: SpecParts) {
    && '?' !in p.path && '#' !in p.path
    && (p.query.Some? ==> '#' !in p.query.value)
    && (p.fragment.Some? ==> '\n' !in p.fragment.value)
  }

  /** Joining the parts gives `spec` back, possibly short of a final newline. */
  predicate JoinsBack(spec: string, r: Option<SpecParts>) {
    r.Some? ==> spec == JoinSpec(r.value) || spec == JoinSpec(r.value) + "\n"
  }

  lemma FragmentTailSpec(t: string)
    ensures FragmentTail(t).Some? ==> '\n' !in FragmentTail(t).value
    ensures FragmentTail(t).Some? ==> t == FragmentTail(t).value || t == FragmentTail(t).value + "\n"
    ensures '\n' !in t ==> FragmentTail(t) == Some(t)
  {
    if FragmentTail(t).Some? && '\n' in t {
      assert t == t[..|t| - 1] + "\n";
    }
  }

  lemma WithFragmentJoin(path: string, query: Option<string>, t: string)
    ensures var r := WithFragment(path, query, t);
      && (r.Some? ==> r.value.path == path && r.value.query == query && '\n' !in r.value.fragment.value)
      && JoinsBack(path + QueryPart(query) + "#" + t, r)
      && ('\n' !in t ==> r == Some(SpecParts(path, query, Some(t))))
  {
    FragmentTailSpec(t);
    WithFragmentJoinsBack(path, query, t);
  }

  lemma WithFragmentJoinsBack(path: string, query: Option<string>, t: string)
    ensures JoinsBack(path + QueryPart(query) + "#" + t, WithFragment(path, query, t))
  {
    FragmentTailSpec(t);
    var r := WithFragment(path, query, t);
    if r.Some? {
      var f := r.value.fragment.value;
      assert JoinSpec(r.value) == path + QueryPart(query) + "#" + f;
      if t == f + "\n" {
        assert path + QueryPart(query) + "#" + t == JoinSpec(r.value) + "\n";
      }
    }
  }

  lemma SplitAfterQueryMarkJoin(path: string, rest: string)
    ensures var r := SplitAfterQueryMark(path, rest);
      && (r.Some? ==> r.value.path == path && r.value.query.Some? && '#' !in r.value.query.value)
      && (r.Some? && r.value.fragment.Some? ==> '\n' !in r.value.fragment.value)
      && JoinsBack(path + "?" + rest, r)
      && ('\n' !in rest ==> r.Some? && JoinSpec(r.value) == path + "?" + rest)
  {
    var k := IndexOfAny(rest, {'#'});
    if k < |rest| {
      var query := rest[..k];
      var t := rest[k + 1..];
      assert '#' !in query;
      assert path + "?" + rest == path + QueryPart(Some(query)) + "#" + t;
      assert '\n' !in rest ==> '\n' !in t;
      WithFragmentJoin(path, Some(query), t);
    } else {
      assert '#' !in rest;
    }
  }

  /** The split loses nothing: the parts are well formed, and joining them
      gives the specification back, short of a final newline that `$` skips;
      a specification without a newline always matches. */
  lemma SplitJoin(spec: string)
    ensures SplitSpec(spec).Some? ==> WellFormedParts(SplitSpec(spec).value)
    ensures JoinsBack(spec, SplitSpec(spec))
    ensures '\n' !in spec ==> SplitSpec(spec).Some? && JoinSpec(SplitSpec(spec).value) == spec
  {
    var i := IndexOfAny(spec, {'?', '#'});
    var path, tail := spec[..i], spec[i..];
    assert spec == path + tail;
    assert '?' !in path && '#' !in path;
    if tail != [] {
      assert '\n' !in spec ==> '\n' !in tail[1..];
      if tail[0] == '?' {
        assert spec == path + "?" + tail[1..];
        SplitAfterQueryMarkJoin(path, tail[1..]);
      } else {
        assert spec == path + QueryPart(None) + "#" + tail[1..];
        WithFragmentJoin(path, None, tail[1..]);
      }
    }
  }

  /** Splitting well-formed parts joined together gives the parts back. */
  lemma JoinSplit(p: SpecParts)
    requires WellFormedParts(p)
    ensures SplitSpec(JoinSpec(p)) == Some(p)
  {
    var spec := JoinSpec(p);
    var tail := QueryPart(p.query) + FragmentPart(p.fragment);
    assert spec == p.path + tail;
    assert tail != [] ==> tail[0] in {'?', '#'};
    IndexOfAnyAt(spec, {'?', '#'}, |p.path|);
    assert spec[..|p.path|] == p.path && spec[|p.path|..] == tail;
    JoinSplitTail(p);
  }

  /** What follows the path splits back into the query and the fragment. */
  lemma JoinSplitTail(p: SpecParts)
    requires WellFormedParts(p)
    ensures SplitAfterPath(p.path, QueryPart(p.query) + FragmentPart(p.fragment)) == Some(p)
  {
    var tail := QueryPart(p.query) + FragmentPart(p.fragment);
    if p.query.Some? {
      assert tail[0] == '?' && tail[1..] == p.query.value + FragmentPart(p.fragment);
      JoinSplitQuery(p);
    } else if p.fragment.Some? {
      assert tail[0] == '#' && tail[1..] == p.fragment.value;
      WithFragmentJoin(p.path, None, p.fragment.value);
    }
  }

  lemma JoinSplitQuery(p: SpecParts)
    requires WellFormedParts(p) && p.query.Some?
    ensures SplitAfterQueryMark(p.path, p.query.value + FragmentPart(p.fragment)) == Some(p)
  {
    var q := p.query.value;
    var rest := q + FragmentPart(p.fragment);
    IndexOfAnyAt(rest, {'#'}, |q|);
    assert rest[..|q|] == q;
    if p.fragment.Some? {
      assert rest[|q| + 1..] == p.fragment.value;
      WithFragmentJoin(p.path, p.query, p.fragment.value);
    } else {
      assert rest == q;
    }
  }

  lemma IndexOfAnyAt(s: string, chars: set<char>, i: nat)
    requires i <= |s| && (i < |s| ==> s[i] in chars)
    requires forall j :: 0 <= j < i ==> s[j] !in chars
    ensures IndexOfAny(s, chars) == i
  {
  }

  /** The `__invoke` branch with no URI bound: a null or empty path gives `/`,
      a path starting with `/` is returned as it is, anything else gets a `/` in front. */
  function RootRelative(path: Option<string>): (r: string)
    ensures |r| > 0 && r[0] == '/'
  {
    var p := path.GetOr("");
    if IsEmpty(p) then "/"
    else if p[0] == '/' then p
    else "/" + p
  }

  /** What the no-URI branch returns, said without its branches: the path
      itself when it already starts with `/`, otherwise the path behind one `/`,
      except that an empty path (PHP's "" and "0") gives just `/`. */
  lemma RootRelativeSpec(path: Option<string>)
    ensures var p := path.GetOr("");
      var r := RootRelative(path);
      && (IsEmpty(p) ==> r == "/")
      && (!IsEmpty(p) ==> (r == p || r == "/" + p) && r[1..] == (if p[0] == '/' then p[1..] else p))
  {
  }

  /** The no-URI branch is idempotent. */
  lemma RootRelativeIdempotent(path: Option<string>)
    ensures RootRelative(Some(RootRelative(path))) == RootRelative(path)
  {
  }

  /** `createUrlFromUri($specification)` as a URI: the bound URI without its
      query and fragment, rebased by the specification's parts. */
  function RebasedUri(uri: Uri, spec: string): Uri {
    // An unmatched pattern leaves no path, and the query and fragment fall back to "".
    var parts := SplitSpec(spec).GetOr(SpecParts("", None, None));
    var query := parts.query.GetOr("");
    var fragment := parts.fragment.GetOr("");
    var stripped := uri.(query := "", fragment := "");
    var path :=
      if !IsEmpty(parts.path) && parts.path[0] != '/'
      then RTrim(uri.path, {'/'}) + "/" + parts.path
      else parts.path;
    var withPath := if !IsEmpty(path) then stripped.(path := path) else stripped;
    var withQuery := if !IsEmpty(query) then withPath.(query := query) else withPath;
    if !IsEmpty(fragment) then withQuery.(fragment := fragment) else withQuery
  }

  function CreateUrlFromUri(uri: Uri, spec: string): string {
    UriString(RebasedUri(uri, spec))
  }

  /** The bound URI's own query and fragment never reach the result. */
  lemma BoundQueryAndFragmentDropped(uri: Uri, spec: string, query: string, fragment: string)
    ensures RebasedUri(uri.(query := query, fragment := fragment), spec) == RebasedUri(uri, spec)
  {
  }

  /** How the path of the result is chosen: a relative path is joined to the
      URI's path with exactly one `/`, an absolute path replaces it, and an
      empty path leaves it. */
  lemma RebasedPath(uri: Uri, spec: string)
    requires SplitSpec(spec).Some?
    ensures var p := SplitSpec(spec).value.path;
      var r := RebasedUri(uri, spec).path;
      && (!IsEmpty(p) && p[0] != '/' ==>
            var base := RTrim(uri.path, {'/'});
            r == base + "/" + p && (base == [] || base[|base| - 1] != '/') && r[|base| + 1] != '/')
      && (!IsEmpty(p) && p[0] == '/' ==> r == p)
      && (IsEmpty(p) ==> r == uri.path)
  {
    var p := SplitSpec(spec).value.path;
    if !IsEmpty(p) && p[0] != '/' {
      var base := RTrim(uri.path, {'/'});
      var joined := base + "/" + p;
      assert joined[|base| + 1] == p[0];
      assert !IsEmpty(joined) by {
        assert |joined| >= 2;
      }
    }
  }

  /** The query and fragment of the result come from the specification alone,
      and only when PHP does not consider them empty. */
  lemma RebasedQueryAndFragment(uri: Uri, spec: string)
    ensures var parts := SplitSpec(spec).GetOr(SpecParts("", None, None));
      var q := parts.query.GetOr("");
      var f := parts.fragment.GetOr("");
      var r := RebasedUri(uri, spec);
      && r.prefix == uri.prefix
      && r.query == (if IsEmpty(q) then "" else q)
      && r.fragment == (if IsEmpty(f) then "" else f)
  {
  }

  /** A specification the pattern cannot match (a newline inside the fragment)
      keeps the bound URI's path and drops its query and fragment. */
  lemma UnmatchedSpecification(uri: Uri, spec: string)
    requires SplitSpec(spec).None?
    ensures RebasedUri(uri, spec) == uri.(query := "", fragment := "")
  {
  }

  /** With the URI "https://example.com/resource" bound (any scheme and
      authority in front, and whatever query and fragment it carries),
      "foo/bar?foo=bar" gives the URI's path joined with "foo/bar" and the query
      "foo=bar": "https://example.com/resource/foo/bar?foo=bar". */
  lemma RelativePathWithQueryExample(uri: Uri, spec: string)
    requires uri.path == "/resource"
    requires spec == "foo/bar?foo=bar"
    ensures CreateUrlFromUri(uri, spec) == uri.prefix + "/resource/foo/bar" + "?foo=bar"
  {
    var joined := RebasedRelativePathWithQuery(uri, spec);
    RelativePathWithQueryExampleSuffix("?" + "foo=bar");
    QueryOnly(Uri(uri.prefix, joined, "foo=bar", ""), "?foo=bar");
  }

  /** The query step of RelativePathWithQueryExample. */
  lemma RelativePathWithQueryExampleSuffix(text: string)
    requires text == "?" + "foo=bar"
    ensures text == "?foo=bar"
  {
  }

  /** A URI with a query and no fragment renders as prefix, path and `?query`. */
  lemma QueryOnly(u: Uri, suffix: string)
    requires u.query != "" && u.fragment == ""
    requires suffix == "?" + u.query
    ensures UriString(u) == u.prefix + u.path + suffix
  {
    assert UriString(u) == u.prefix + u.path + suffix + "";
  }

  lemma RebasedRelativePathWithQuery(uri: Uri, spec: string) returns (joined: string)
    requires uri.path == "/resource"
    requires spec == "foo/bar?foo=bar"
    ensures joined == "/resource/foo/bar"
    ensures RebasedUri(uri, spec) == Uri(uri.prefix, joined, "foo=bar", "")
  {
    SplitRelativePathWithQuery(spec);
    joined := JoinedExample(uri.path, "foo/bar");
  }

  lemma JoinedExample(path: string, relative: string) returns (joined: string)
    requires path == "/resource" && relative == "foo/bar"
    ensures joined == RTrim(path, {'/'}) + "/" + relative
    ensures joined == "/resource/foo/bar"
  {
    assert RTrim(path, {'/'}) == path;
    joined := path + "/" + relative;
  }

  lemma SplitRelativePathWithQuery(spec: string)
    requires spec == "foo/bar?foo=bar"
    ensures SplitSpec(spec) == Some(SpecParts("foo/bar", Some("foo=bar"), None))
  {
    IndexOfAnyAt(spec, {'?', '#'}, 7);
    assert spec[..7] == "foo/bar" && spec[7..][1..] == "foo=bar";
    IndexOfAnyAt("foo=bar", {'#'}, 7);
  }

  /** With the URI "https://example.com/resource#bar" bound, "/" gives
      "https://example.com/": the bound fragment is dropped. */
  lemma RootPathExample(uri: Uri, spec: string)
    requires uri.path == "/resource" && uri.query == "" && uri.fragment == "bar"
    requires spec == "/"
    ensures CreateUrlFromUri(uri, spec) == uri.prefix + "/"
  {
    IndexOfAnyAt(spec, {'?', '#'}, 1);
    assert spec[..1] == "/" && spec[1..] == [];
    assert RebasedUri(uri, spec) == Uri(uri.prefix, "/", "", "");
  }

  /** With the URI "https://example.com/resource" bound, "#bar" keeps the path and
      adds the fragment: "https://example.com/resource#bar". */
  lemma FragmentOnlyExample(uri: Uri, spec: string)
    requires uri.path == "/resource" && uri.query == "" && uri.fragment == ""
    requires spec == "#bar"
    ensures CreateUrlFromUri(uri, spec) == uri.prefix + "/resource" + "#bar"
  {
    IndexOfAnyAt(spec, {'?', '#'}, 0);
    assert spec[..0] == [] && spec[0..][1..] == "bar";
    assert FragmentTail("bar") == Some("bar");
    assert RebasedUri(uri, spec) == Uri(uri.prefix, "/resource", "", "bar");
  }

  /** The helper. `uri` is the request URI bound by `setUri`, if any. */
  class ServerUrlHelper {
    var uri: Option<Uri>

    constructor ()
      ensures uri.None?
    {
      uri := None;
    }

    /** `setUri($uri)`. */
    method SetUri(u: Uri)
      modifies this
      ensures uri == Some(u)
    {
      uri := Some(u);
    }

    /** `__invoke($path)`. */
    method Invoke(path: Option<string>) returns (r: string)
      ensures uri.None? ==> r == RootRelative(path)
      ensures uri.Some? ==> r == CreateUrlFromUri(uri.value, path.GetOr(""))
      ensures uri.None? ==> |r| > 0 && r[0] == '/'
    {
      var p := path.GetOr("");
      if uri.Some? {
        return CreateUrlFromUri(uri.value, p);
      }
      if IsEmpty(p) {
        return "/";
      }
      if p[0] == '/' {
        return p;
      }
      return "/" + p;
    }

    /** `generate($path)`: the same as `__invoke($path)`. */
    method Generate(path: Option<string>) returns (r: string)
      ensures uri.None? ==> r == RootRelative(path)
      ensures uri.Some? ==> r == CreateUrlFromUri(uri.value, path.GetOr(""))
    {
      r := Invoke(path);
    }
  }
}
