/** The URL helper (src/UrlHelper.php): asks the router for the URI of a named
    route, or of the route that matched the current request, puts the base path
    in front of it and appends a query string and a fragment. */
module UrlGeneration {
  import opened Wrappers
  import opened PhpText
  import opened PhpArray
  import opened HttpMessage
  import opened QueryString
  import Fragment

  /** The outcome of routing the current request. */
  datatype RouteResult =
    | RouteSuccess(matchedRouteName: string, matchedParams: Assoc<string>)
    | RouteFailure

  /** The `$options` array: `router` (options passed to the router),
      `reuse_result_params` and `reuse_query_params`. `None` is an option
      that is not set, or set to null. */
  datatype Options = Options(
    router: Option<Assoc<string>>,
    reuseResultParams: Option<bool>,
    reuseQueryParams: Option<bool>)
  {
    function RouterOptions(): Assoc<string> {
      router.GetOr([])
    }

    /** Matched parameters are reused unless the option says otherwise. */
    predicate ReuseResultParams() {
      reuseResultParams.GetOr(true)
    }

    /** The current query is reused only when the option asks for it. */
    predicate ReuseQueryParams() {
      reuseQueryParams.GetOr(false)
    }
  }

  const NoOptions := Options(None, None, None)

  /** What the helper throws: its own runtime exception, an invalid-argument
      exception with a code, or whatever the router throws. */
  datatype UrlError =
    | RuntimeError(message: string)
    | InvalidArgument(message: string, code: int)
    | RouterError(message: string)

  const NoResultMessage := "Attempting to use matched result when none was injected; aborting"
  const FailedResultMessage := "Attempting to use matched result when routing failed; aborting"
  const FragmentMessage := "Fragment identifier must conform to RFC 3986"
  const FragmentErrorCode := 400

  /** `RouterInterface::generateUri($name, $params, $options)`: a URI, or the
      message of the exception it throws. */
  type Router = (string, Assoc<string>, Assoc<string>) -> Result<string, string>

  function Route(router: Router, name: string, params: Assoc<string>, options: Assoc<string>): Result<string, UrlError> {
    match router(name, params, options)
    case Success(uri) => Success(uri)
    case Failure(message) => Failure(RouterError(message))
  }

  // ---------------------------------------------------------------------------
  // The private steps of __invoke

  /** The base path the helper stores: `'/' . ltrim($path, '/')`. */
  function NormalizeBasePath(path: string): (r: string)
    ensures |r| >= 1 && r[0] == '/'
  {
    "/" + LTrim(path, {'/'})
  }

  /** The stored base path is the given path without its leading slashes,
      behind exactly one slash. */
  lemma BasePathNormalized(path: string)
    ensures var r := NormalizeBasePath(path);
      && 1 <= |r| <= |path| + 1
      && (|r| >= 2 ==> r[1] != '/')
      && r[1..] == path[|path| - (|r| - 1)..]
      && (forall i :: 0 <= i < |path| - (|r| - 1) ==> path[i] == '/')
  {
    var rest := LTrim(path, {'/'});
    assert NormalizeBasePath(path)[1..] == rest;
  }

  /** What goes in front of a generated path: nothing when the base path is "/". */
  function PathPrefix(basePath: string): string {
    if basePath == "/" then "" else basePath
  }

  /** `generateUriFromResult`: the matched route, with the given parameters
      overriding the matched ones. */
  function GenerateUriFromResult(router: Router, params: Assoc<string>, result: RouteResult, routerOptions: Assoc<string>): Result<string, UrlError> {
    if result.RouteFailure? then Failure(RuntimeError(FailedResultMessage))
    else Route(router, result.matchedRouteName, Merge(result.matchedParams, params), routerOptions)
  }

  /** `mergeParams`: the matched parameters under the given ones, only for the
      route that matched. */
  function MergeParams(route: string, result: RouteResult, params: Assoc<string>): Assoc<string> {
    if result.RouteFailure? then params
    else if result.matchedRouteName != route then params
    else Merge(result.matchedParams, params)
  }

  /** `mergeQueryParams`: the current request's query under the given one, only
      for the route that matched; without a request the current query is empty. */
  function MergeQueryParams(route: string, result: RouteResult, request: Option<ServerRequest>, params: Assoc<string>): Assoc<string> {
    if result.RouteFailure? then params
    else if result.matchedRouteName != route then params
    else Merge(if request.Some? then request.value.queryParams else [], params)
  }

  /** `appendQueryStringArguments`. */
  function AppendQueryStringArguments(uri: string, queryParams: Assoc<string>): string {
    if |queryParams| > 0 then uri + "?" + BuildQuery(queryParams) else uri
  }

  /** `appendFragment`: a fragment is appended only when it is a valid RFC 3986
      fragment; any other fragment is refused with code 400. */
  function AppendFragment(uri: string, fragment: Option<string>): (r: Result<string, UrlError>)
    ensures r.Success? <==> fragment.None? || Fragment.IsFragment(fragment.value)
    ensures r.Failure? ==> r.error == InvalidArgument(FragmentMessage, FragmentErrorCode)
    ensures r.Success? ==> StartsWith(r.value, uri)
    ensures r.Success? && fragment.Some? ==> r.value[|uri|..] == "#" + fragment.value
    ensures fragment.None? ==> r == Success(uri)
  {
    if fragment.None? then Success(uri)
    else if !Fragment.IsFragment(fragment.value) then Failure(InvalidArgument(FragmentMessage, FragmentErrorCode))
    else
      var u := uri + "#" + fragment.value;
      assert u[..|uri|] == uri && u[|uri|..] == "#" + fragment.value;
      Success(u)
  }

  /** The route parameters sent to the router for a named route. */
  function RouteParamsFor(routeName: string, result: Option<RouteResult>, params: Assoc<string>, options: Options): Assoc<string> {
    if result.Some? && options.ReuseResultParams() then MergeParams(routeName, result.value, params) else params
  }

  /** The query parameters appended for a named route. */
  function QueryParamsFor(routeName: string, result: Option<RouteResult>, request: Option<ServerRequest>, params: Assoc<string>, options: Options): Assoc<string> {
    if result.Some? && options.ReuseQueryParams() then MergeQueryParams(routeName, result.value, request, params) else params
  }

  /** The router's answer for the call: the matched route when no name is
      given, otherwise the named route. */
  function Generated(router: Router, result: Option<RouteResult>, routeName: Option<string>,
                     routeParams: Assoc<string>, options: Options): Result<string, UrlError>
    requires routeName.Some? || result.Some?
  {
    if routeName.None? then GenerateUriFromResult(router, routeParams, result.value, options.RouterOptions())
    else Route(router, routeName.value, RouteParamsFor(routeName.value, result, routeParams, options), options.RouterOptions())
  }

  /** The query parameters appended: the given ones when no name is given. */
  function QueryFor(result: Option<RouteResult>, request: Option<ServerRequest>, routeName: Option<string>,
                    queryParams: Assoc<string>, options: Options): Assoc<string> {
    if routeName.None? then queryParams else QueryParamsFor(routeName.value, result, request, queryParams, options)
  }

  /** What `__invoke` computes before it looks at the fragment: the base path,
      the router's answer and the query string, or the first error. Without a
      route name the matched route is regenerated; the errors come in this
      order: no route result, a failed route result, the router. */
  function UrlBeforeFragment(router: Router, basePath: string, result: Option<RouteResult>, request: Option<ServerRequest>,
                             routeName: Option<string>, routeParams: Assoc<string>, queryParams: Assoc<string>,
                             options: Options): Result<string, UrlError>
  {
    if routeName.None? && result.None? then Failure(RuntimeError(NoResultMessage))
    else
      var generated := Generated(router, result, routeName, routeParams, options);
      if generated.Failure? then Failure(generated.error)
      else
        var query := QueryFor(result, request, routeName, queryParams, options);
        Success(AppendQueryStringArguments(PathPrefix(basePath) + generated.value, query))
  }

  /** What `__invoke` returns, or the exception it throws, for a helper whose
      router, base path, route result and request are given, with the fragment
      checked against the RFC 3986 grammar (see `UrlAsWritten` for the check
      the source performs). */
  function Url(router: Router, basePath: string, result: Option<RouteResult>, request: Option<ServerRequest>,
               routeName: Option<string>, routeParams: Assoc<string>, queryParams: Assoc<string>,
               fragment: Option<string>, options: Options): Result<string, UrlError>
  {
    var u := UrlBeforeFragment(router, basePath, result, request, routeName, routeParams, queryParams, options);
    if u.Failure? then Failure(u.error) else AppendFragment(u.value, fragment)
  }

  /** `appendFragment` as written: the fragment is checked with the pattern
      itself, whose `$` also lets one final newline through. */
  function AppendFragmentAsWritten(uri: string, fragment: Option<string>): (r: Result<string, UrlError>)
    ensures r.Success? <==> fragment.None? || Fragment.PatternMatches(fragment.value)
    ensures r.Failure? ==> r.error == InvalidArgument(FragmentMessage, FragmentErrorCode)
  {
    if fragment.None? then Success(uri)
    else if !Fragment.PatternMatches(fragment.value) then Failure(InvalidArgument(FragmentMessage, FragmentErrorCode))
    else Success(uri + "#" + fragment.value)
  }

  /** `__invoke` as written, with the source's fragment pattern. */
  function UrlAsWritten(router: Router, basePath: string, result: Option<RouteResult>, request: Option<ServerRequest>,
                        routeName: Option<string>, routeParams: Assoc<string>, queryParams: Assoc<string>,
                        fragment: Option<string>, options: Options): Result<string, UrlError>
  {
    var u := UrlBeforeFragment(router, basePath, result, request, routeName, routeParams, queryParams, options);
    if u.Failure? then Failure(u.error) else AppendFragmentAsWritten(u.value, fragment)
  }

  /** The text after the path: `?` and the query when there is one. */
  function QuerySuffix(query: Assoc<string>): string {
    if |query| > 0 then "?" + BuildQuery(query) else ""
  }

  /** The text at the end: `#` and the fragment when one is given. */
  function FragmentSuffix(fragment: Option<string>): string {
    if fragment.Some? then "#" + fragment.value else ""
  }

  // ---------------------------------------------------------------------------
  // Properties of the base path

  /** Storing a stored base path again changes nothing. */
  lemma BasePathIdempotent(path: string)
    ensures NormalizeBasePath(NormalizeBasePath(path)) == NormalizeBasePath(path)
  {
    var rest := LTrim(path, {'/'});
    var r := NormalizeBasePath(path);
    assert r[1..] == rest;
    assert LTrim(r, {'/'}) == LTrim(rest, {'/'});
  }

  /** A path without a leading slash is stored behind one. */
  lemma BasePathGetsSlash(path: string)
    requires path == [] || path[0] != '/'
    ensures NormalizeBasePath(path) == "/" + path
  {
  }

  // ---------------------------------------------------------------------------
  // Properties of __invoke

  /** Without a route name and without a route result the call fails before
      the router is asked. */
  lemma NoResultInjected(router1: Router, router2: Router, basePath: string, request: Option<ServerRequest>,
                         routeParams: Assoc<string>, queryParams: Assoc<string>, fragment: Option<string>, options: Options)
    ensures Url(router1, basePath, None, request, None, routeParams, queryParams, fragment, options)
         == Url(router2, basePath, None, request, None, routeParams, queryParams, fragment, options)
         == Failure(RuntimeError(NoResultMessage))
  {
  }

  /** Without a route name and after a routing failure the call fails before
      the router is asked, whatever the fragment. */
  lemma RoutingFailed(router1: Router, router2: Router, basePath: string, request: Option<ServerRequest>,
                      routeParams: Assoc<string>, queryParams: Assoc<string>, fragment: Option<string>, options: Options)
    ensures Url(router1, basePath, Some(RouteFailure), request, None, routeParams, queryParams, fragment, options)
         == Url(router2, basePath, Some(RouteFailure), request, None, routeParams, queryParams, fragment, options)
         == Failure(RuntimeError(FailedResultMessage))
  {
  }

  /** Without a route name the matched route is generated as if it were named,
      with its parameters reused and the current query not reused, whatever the
      options say about reuse and whatever the request is. */
  lemma RegenerateMatchedRoute(router: Router, basePath: string, name: string, matched: Assoc<string>,
                               request: Option<ServerRequest>, routeParams: Assoc<string>, queryParams: Assoc<string>,
                               fragment: Option<string>, options: Options)
    ensures var result := Some(RouteSuccess(name, matched));
      Url(router, basePath, result, request, None, routeParams, queryParams, fragment, options)
      == Url(router, basePath, result, None, Some(name), routeParams, queryParams, fragment, Options(options.router, Some(true), Some(false)))
  {
  }

  /** For the route that matched, with reuse on, the router receives the matched
      parameters overridden by the given ones: the matched keys first, in their
      order, then the keys only the given parameters have. */
  lemma MatchedParamsUnderGiven(name: string, matched: Assoc<string>, params: Assoc<string>, options: Options, k: string)
    requires options.ReuseResultParams()
    ensures var sent := RouteParamsFor(name, Some(RouteSuccess(name, matched)), params, options);
      && Lookup(sent, k) == (if HasKey(params, k) then Lookup(params, k) else Lookup(matched, k))
      && Keys(sent) == Keys(matched) + NewKeys(Keys(params), Keys(matched))
  {
    MergeLookup(matched, params, k);
    MergeKeys(matched, params);
  }

  /** For any other route, without a route result, after a routing failure, or
      with reuse off, the router receives the given parameters unchanged. */
  lemma GivenParamsVerbatim(name: string, result: Option<RouteResult>, params: Assoc<string>, options: Options)
    requires !(result.Some? && result.value.RouteSuccess? && result.value.matchedRouteName == name)
             || !options.ReuseResultParams()
    ensures RouteParamsFor(name, result, params, options) == params
  {
  }

  /** For the route that matched, with query reuse on, the appended query is
      the current request's query overridden by the given one. */
  lemma CurrentQueryUnderGiven(name: string, matched: Assoc<string>, request: ServerRequest, params: Assoc<string>,
                               options: Options, k: string)
    requires options.ReuseQueryParams()
    ensures var sent := QueryParamsFor(name, Some(RouteSuccess(name, matched)), Some(request), params, options);
      && Lookup(sent, k) == (if HasKey(params, k) then Lookup(params, k) else Lookup(request.queryParams, k))
      && Keys(sent) == Keys(request.queryParams) + NewKeys(Keys(params), Keys(request.queryParams))
  {
    MergeLookup(request.queryParams, params, k);
    MergeKeys(request.queryParams, params);
  }

  /** Without an injected request there is no current query to reuse. */
  lemma NoRequestNoCurrentQuery(name: string, result: Option<RouteResult>, params: Assoc<string>, options: Options)
    ensures QueryParamsFor(name, result, None, params, options) == params
  {
    MergeIntoEmpty(params);
  }

  /** Otherwise the given query is appended unchanged. */
  lemma GivenQueryVerbatim(name: string, result: Option<RouteResult>, request: Option<ServerRequest>,
                           params: Assoc<string>, options: Options)
    requires !(result.Some? && result.value.RouteSuccess? && result.value.matchedRouteName == name)
             || !options.ReuseQueryParams()
    ensures QueryParamsFor(name, result, request, params, options) == params
  {
  }

  /** For a named route, what the router throws is what the call throws. */
  lemma RouterErrorPropagates(router: Router, basePath: string, result: Option<RouteResult>, request: Option<ServerRequest>,
                              name: string, routeParams: Assoc<string>, queryParams: Assoc<string>,
                              fragment: Option<string>, options: Options, message: string)
    requires router(name, RouteParamsFor(name, result, routeParams, options), options.RouterOptions()) == Failure(message)
    ensures Url(router, basePath, result, request, Some(name), routeParams, queryParams, fragment, options)
         == Failure(RouterError(message))
  {
  }

  /** The call succeeds exactly when there is a route to generate, the router
      answers and the fragment, if any, is valid. */
  lemma UrlSucceedsIff(router: Router, basePath: string, result: Option<RouteResult>, request: Option<ServerRequest>,
                       routeName: Option<string>, routeParams: Assoc<string>, queryParams: Assoc<string>,
                       fragment: Option<string>, options: Options)
    ensures Url(router, basePath, result, request, routeName, routeParams, queryParams, fragment, options).Success?
        <==> && (routeName.Some? || result.Some?)
             && Generated(router, result, routeName, routeParams, options).Success?
             && (fragment.None? || Fragment.IsFragment(fragment.value))
  {
  }

  /** The layout of a generated URL: the base path (nothing for "/"), the
      router's answer, `?` and the query only when the query is not empty, and
      `#` and the fragment only when one is given. */
  lemma SuccessfulUrl(router: Router, basePath: string, result: Option<RouteResult>, request: Option<ServerRequest>,
                      routeName: Option<string>, routeParams: Assoc<string>, queryParams: Assoc<string>,
                      fragment: Option<string>, options: Options)
    requires Url(router, basePath, result, request, routeName, routeParams, queryParams, fragment, options).Success?
    ensures routeName.Some? || result.Some?
    ensures Url(router, basePath, result, request, routeName, routeParams, queryParams, fragment, options).value
         == PathPrefix(basePath) + Generated(router, result, routeName, routeParams, options).value
            + QuerySuffix(QueryFor(result, request, routeName, queryParams, options))
            + FragmentSuffix(fragment)
  {
    Appended(PathPrefix(basePath) + Generated(router, result, routeName, routeParams, options).value,
             QueryFor(result, request, routeName, queryParams, options), fragment);
  }

  /** Conversely, a router answer and a valid fragment make the call succeed
      with the URL assembled from its parts. */
  lemma UrlFromParts(router: Router, basePath: string, result: Option<RouteResult>, request: Option<ServerRequest>,
                     routeName: Option<string>, routeParams: Assoc<string>, queryParams: Assoc<string>,
                     fragment: Option<string>, options: Options, path: string, query: Assoc<string>)
    requires routeName.Some? || result.Some?
    requires Generated(router, result, routeName, routeParams, options) == Success(path)
    requires QueryFor(result, request, routeName, queryParams, options) == query
    requires fragment.None? || Fragment.IsFragment(fragment.value)
    ensures Url(router, basePath, result, request, routeName, routeParams, queryParams, fragment, options)
         == Success(PathPrefix(basePath) + path + QuerySuffix(query) + FragmentSuffix(fragment))
  {
    Appended(PathPrefix(basePath) + path, query, fragment);
  }

  /** Appending the query and then the fragment puts their suffixes after the path. */
  lemma Appended(path: string, query: Assoc<string>, fragment: Option<string>)
    requires AppendFragment(AppendQueryStringArguments(path, query), fragment).Success?
    ensures AppendFragment(AppendQueryStringArguments(path, query), fragment).value
         == path + QuerySuffix(query) + FragmentSuffix(fragment)
  {
    var withQuery := AppendQueryStringArguments(path, query);
    assert withQuery == path + QuerySuffix(query) by {
      if |query| > 0 {
        assert path + "?" + BuildQuery(query) == path + ("?" + BuildQuery(query));
      }
    }
    if fragment.Some? {
      assert withQuery + "#" + fragment.value == withQuery + ("#" + fragment.value);
    }
  }

  /** An invalid fragment never reaches a URL: the call fails, with the
      fragment error when nothing before it failed. */
  lemma InvalidFragmentRefused(router: Router, basePath: string, result: Option<RouteResult>, request: Option<ServerRequest>,
                               routeName: Option<string>, routeParams: Assoc<string>, queryParams: Assoc<string>,
                               fragment: Option<string>, options: Options)
    requires fragment.Some? && !Fragment.IsFragment(fragment.value)
    ensures var r := Url(router, basePath, result, request, routeName, routeParams, queryParams, fragment, options);
      && r.Failure?
      && (r.error.InvalidArgument? ==> r.error == InvalidArgument(FragmentMessage, FragmentErrorCode))
  {
  }

  /** The helper as written and the corrected helper agree on every call,
      except when the fragment ends in a newline that the pattern's `$` lets
      through: then the source appends it and the corrected helper refuses it. */
  lemma AsWrittenVersusIntended(router: Router, basePath: string, result: Option<RouteResult>, request: Option<ServerRequest>,
                                routeName: Option<string>, routeParams: Assoc<string>, queryParams: Assoc<string>,
                                fragment: Option<string>, options: Options)
    ensures var intended := Url(router, basePath, result, request, routeName, routeParams, queryParams, fragment, options);
      var asWritten := UrlAsWritten(router, basePath, result, request, routeName, routeParams, queryParams, fragment, options);
      var u := UrlBeforeFragment(router, basePath, result, request, routeName, routeParams, queryParams, options);
      && (intended.Success? ==> asWritten == intended)
      && (asWritten != intended ==>
            && fragment.Some? && |fragment.value| >= 2 && fragment.value[|fragment.value| - 1] == '\n'
            && intended == Failure(InvalidArgument(FragmentMessage, FragmentErrorCode))
            && asWritten == Success(u.value + "#" + fragment.value))
  {
    if fragment.Some? {
      Fragment.PatternVersusIntended(fragment.value);
    }
  }

  /** The source appends the fragment "a\n" to whatever the router answers,
      where the corrected helper refuses it. */
  lemma AsWrittenAcceptsNewline(router: Router, uri: string, name: string, fragment: string)
    requires router(name, [], []) == Success(uri)
    requires fragment == "a\n"
    ensures UrlAsWritten(router, "/", None, None, Some(name), [], [], Some(fragment), NoOptions) == Success(uri + "#" + fragment)
    ensures Url(router, "/", None, None, Some(name), [], [], Some(fragment), NoOptions)
         == Failure(InvalidArgument(FragmentMessage, FragmentErrorCode))
  {
    assert NoOptions.RouterOptions() == [];
    Fragment.PatternAcceptsTrailingNewline(fragment);
    assert PathPrefix("/") + uri == uri;
  }

  // ---------------------------------------------------------------------------
  // Worked examples

  /** A named route with a query and a fragment: whatever the router answers
      for route "foo" with `bar => baz` ("/foo/baz" in the project's tests),
      the query `qux => quux` and any valid fragment ("cor-ge" in the tests,
      valid by Fragment.PlainFragment) follow it. */
  lemma QueryAndFragmentExample(router: Router, uri: string, name: string, params: Assoc<string>,
                                query: Assoc<string>, fragment: string)
    requires router("foo", [("bar", "baz")], []) == Success(uri)
    requires name == "foo" && params == [("bar", "baz")]
    requires query == [("qux", "quux")] && Fragment.IsFragment(fragment)
    ensures Url(router, "/", None, None, Some(name), params, query, Some(fragment), NoOptions)
         == Success(uri + "?qux=quux" + "#" + fragment)
  {
    assert NoOptions.RouterOptions() == [];
    UrlFromParts(router, "/", None, None, Some(name), params, query, Some(fragment), NoOptions, uri, query);
    QueryAndFragmentExampleQuery(query);
    assert PathPrefix("/") + uri == uri;
  }

  /** The query step of QueryAndFragmentExample. */
  lemma QueryAndFragmentExampleQuery(query: Assoc<string>)
    requires query == [("qux", "quux")]
    ensures QuerySuffix(query) == "?qux=quux"
  {
    assert BuildQuery(query) == "qux" + "=" + "quux";
  }

  /** The empty fragment and "#" are refused with code 400, whatever the router. */
  lemma InvalidFragmentExample(router: Router, name: string, fragment: string)
    requires name == "foo"
    requires fragment == "" || fragment == "#"
    requires router(name, [], []).Success?
    ensures Url(router, "/", None, None, Some(name), [], [], Some(fragment), NoOptions)
         == Failure(InvalidArgument(FragmentMessage, FragmentErrorCode))
  {
    assert NoOptions.RouterOptions() == [];
    Fragment.RejectsEmptyAndHash(fragment);
  }

  /** A base path set to "/prefix" is put in front of what the router answers. */
  lemma BasePathExample(router: Router, uri: string, name: string, path: string)
    requires router("foo", [("bar", "baz")], []) == Success(uri)
    requires name == "foo" && path == "/prefix"
    ensures Url(router, NormalizeBasePath(path), None, None, Some(name), [("bar", "baz")], [], None, NoOptions)
         == Success("/prefix" + uri)
  {
    assert NoOptions.RouterOptions() == [];
    var basePath := PrefixPath(path);
    UrlFromParts(router, basePath, None, None, Some(name), [("bar", "baz")], [], None, NoOptions, uri, []);
    assert PathPrefix(basePath) + uri + "" + "" == "/prefix" + uri;
  }

  lemma PrefixPath(path: string) returns (basePath: string)
    requires path == "/prefix"
    ensures basePath == NormalizeBasePath(path) == "/prefix"
  {
    assert path[1..] == "prefix";
    assert LTrim(path[1..], {'/'}) == path[1..];
    basePath := NormalizeBasePath(path);
  }

  /** Regenerating the matched route "foo" with `bar => baz` and the extra
      parameter `baz => bat` asks the router for `bar => baz, baz => bat`, in
      that order, and returns its answer. */
  lemma MatchedParamsExample(router: Router, uri: string, matched: Assoc<string>, params: Assoc<string>)
    requires router("foo", [("bar", "baz"), ("baz", "bat")], []) == Success(uri)
    requires matched == [("bar", "baz")] && params == [("baz", "bat")]
    ensures Url(router, "/", Some(RouteSuccess("foo", matched)), None, None, params, [], None, NoOptions)
         == Success(uri)
  {
    assert NoOptions.RouterOptions() == [];
    assert Merge(matched, params) == Put(matched, "baz", "bat");
    PutAppends(matched, "baz", "bat");
    assert matched + [("baz", "bat")] == [("bar", "baz"), ("baz", "bat")];
    UrlFromParts(router, "/", Some(RouteSuccess("foo", matched)), None, None, params, [], None, NoOptions, uri, []);
    assert PathPrefix("/") + uri + "" + "" == uri;
  }

  /** Regenerating the matched route "matched-route" (matched with `foo => bar`)
      with the overriding parameter `foo => baz`, the query `query => params,
      are => present` and any valid fragment ("fragment/exists" in the tests):
      whatever the router answers for `foo => baz`, the query and the fragment
      follow it. */
  lemma RegeneratedWithQueryAndFragmentExample(router: Router, uri: string, matched: Assoc<string>, params: Assoc<string>,
                                               query: Assoc<string>, fragment: string)
    requires router("matched-route", [("foo", "baz")], []) == Success(uri)
    requires matched == [("foo", "bar")] && params == [("foo", "baz")]
    requires query == [("query", "params"), ("are", "present")]
    requires Fragment.IsFragment(fragment)
    ensures Url(router, "/", Some(RouteSuccess("matched-route", matched)), None, None, params, query, Some(fragment), NoOptions)
         == Success(uri + "?query=params&are=present" + "#" + fragment)
  {
    var result := RouteSuccess("matched-route", matched);
    RegeneratedPath(router, uri, result, matched, params);
    UrlFromParts(router, "/", Some(result), None, None, params, query, Some(fragment), NoOptions, uri, query);
    RegeneratedQuery(query);
    assert PathPrefix("/") + uri == uri;
  }

  /** The router step of the example above. */
  lemma RegeneratedPath(router: Router, uri: string, result: RouteResult, matched: Assoc<string>, params: Assoc<string>)
    requires router("matched-route", [("foo", "baz")], []) == Success(uri)
    requires result == RouteSuccess("matched-route", matched)
    requires matched == [("foo", "bar")] && params == [("foo", "baz")]
    ensures Generated(router, Some(result), None, params, NoOptions) == Success(uri)
  {
    assert NoOptions.RouterOptions() == [];
    assert Merge(matched, params) == Put(matched, "foo", "baz");
    PutFirst(matched, "baz");
    assert Merge(matched, params) == [("foo", "baz")] + [];
    assert [("foo", "baz")] + [] == [("foo", "baz")];
  }

  /** The query step of the example above. */
  lemma RegeneratedQuery(query: Assoc<string>)
    requires query == [("query", "params"), ("are", "present")]
    ensures QuerySuffix(query) == "?query=params&are=present"
  {
    RegeneratedQueryPairs(query);
    RegeneratedQueryText("?" + BuildQuery(query));
  }

  lemma RegeneratedQueryText(text: string)
    requires text == "?" + ("query" + "=" + "params" + "&" + ("are" + "=" + "present"))
    ensures text == "?query=params&are=present"
  {
  }

  lemma RegeneratedQueryPairs(query: Assoc<string>)
    requires query == [("query", "params"), ("are", "present")]
    ensures BuildQuery(query) == "query" + "=" + "params" + "&" + ("are" + "=" + "present")
  {
  }

  /** Router options are passed through: route "foo" with no parameters and
      the options `bar => baz`. */
  lemma RouterOptionsExample(router: Router, uri: string, name: string, routerOptions: Assoc<string>)
    requires router("foo", [], [("bar", "baz")]) == Success(uri)
    requires name == "foo" && routerOptions == [("bar", "baz")]
    ensures Url(router, "/", None, None, Some(name), [], [], None, Options(Some(routerOptions), None, None)) == Success(uri)
  {
    var options := Options(Some(routerOptions), None, None);
    assert options.RouterOptions() == [("bar", "baz")];
    UrlFromParts(router, "/", None, None, Some(name), [], [], None, options, uri, []);
    assert PathPrefix("/") + uri + "" + "" == uri;
  }

  /** With `reuse_query_params` on, regenerating the matched route "resource"
      carries the current query `foo => bar` over. */
  lemma ReusedQueryExample(router: Router, uri: string, name: string, request: ServerRequest)
    requires router("resource", [], []) == Success(uri)
    requires name == "resource" && request.queryParams == [("foo", "bar")]
    ensures Url(router, "/", Some(RouteSuccess("resource", [])), Some(request), Some(name), [], [], None,
                Options(None, None, Some(true)))
         == Success(uri + "?foo=bar")
  {
    var options := Options(None, None, Some(true));
    assert options.RouterOptions() == [] && options.ReuseResultParams() && options.ReuseQueryParams();
    var result := Some(RouteSuccess("resource", []));
    MergeIntoEmpty<string>([]);
    assert RouteParamsFor(name, result, [], options) == [];
    MergeSelf(request.queryParams);
    assert Merge(request.queryParams, []) == request.queryParams;
    assert QueryFor(result, Some(request), Some(name), [], options) == [("foo", "bar")];
    UrlFromParts(router, "/", result, Some(request), Some(name), [], [], None, options, uri, [("foo", "bar")]);
    ReusedQueryExampleQuery([("foo", "bar")]);
    assert PathPrefix("/") + uri == uri;
  }

  /** The query step of ReusedQueryExample. */
  lemma ReusedQueryExampleQuery(query: Assoc<string>)
    requires query == [("foo", "bar")]
    ensures QuerySuffix(query) == "?foo=bar"
  {
    assert BuildQuery(query) == "foo" + "=" + "bar";
  }

  // ---------------------------------------------------------------------------
  // The helper object

  class UrlHelper {
    const router: Router
    var basePath: string
    var result: Option<RouteResult>
    var request: Option<ServerRequest>

    /** The stored base path always begins with a slash. */
    predicate Valid()
      reads this
    {
      |basePath| >= 1 && basePath[0] == '/'
    }

    constructor(router: Router)
      ensures Valid()
      ensures this.router == router && basePath == "/" && result == None && request == None
    {
      this.router := router;
      basePath := "/";
      result := None;
      request := None;
    }

    /** `setRouteResult`. */
    method SetRouteResult(r: RouteResult)
      requires Valid()
      modifies this
      ensures Valid()
      ensures result == Some(r)
      ensures basePath == old(basePath) && request == old(request)
    {
      result := Some(r);
    }

    /** `setBasePath`: the path is stored with exactly one leading slash. */
    method SetBasePath(path: string)
      modifies this
      ensures Valid()
      ensures basePath == NormalizeBasePath(path)
      ensures result == old(result) && request == old(request)
    {
      basePath := NormalizeBasePath(path);
    }

    /** `setRequest`. */
    method SetRequest(r: ServerRequest)
      requires Valid()
      modifies this
      ensures Valid()
      ensures request == Some(r)
      ensures basePath == old(basePath) && result == old(result)
    {
      request := Some(r);
    }

    /** `getRouteResult`: the injected result, `None` when none was injected. */
    method GetRouteResult() returns (r: Option<RouteResult>)
      ensures r == result
    {
      r := result;
    }

    /** `getRequest`: the injected request, `None` when none was injected. */
    method GetRequest() returns (r: Option<ServerRequest>)
      ensures r == request
    {
      r := request;
    }

    /** `getBasePath`. */
    method GetBasePath() returns (p: string)
      requires Valid()
      ensures p == basePath && |p| >= 1 && p[0] == '/'
    {
      p := basePath;
    }

    /** `__invoke`: builds the URL step by step, stopping at the first error. */
    method Invoke(routeName: Option<string>, routeParams: Assoc<string>, queryParams: Assoc<string>,
                  fragment: Option<string>, options: Options) returns (r: Result<string, UrlError>)
      requires Valid()
      ensures r == Url(router, basePath, result, request, routeName, routeParams, queryParams, fragment, options)
    {
      var current := GetRouteResult();
      if routeName.None? && current.None? {
        return Failure(RuntimeError(NoResultMessage));
      }
      var prefix := GetBasePath();
      if prefix == "/" {
        prefix := "";
      }
      var routerOptions := options.RouterOptions();
      if routeName.None? {
        var generated := GenerateUriFromResult(router, routeParams, current.value, routerOptions);
        if generated.Failure? {
          return Failure(generated.error);
        }
        var path := prefix + generated.value;
        path := AppendQueryStringArguments(path, queryParams);
        r := AppendFragment(path, fragment);
        return;
      }
      var name := routeName.value;
      var params := routeParams;
      if current.Some? && options.ReuseResultParams() {
        params := MergeParams(name, current.value, params);
      }
      var query := queryParams;
      if current.Some? && options.ReuseQueryParams() {
        var currentRequest := GetRequest();
        query := MergeQueryParams(name, current.value, currentRequest, query);
      }
      var generated := Route(router, name, params, routerOptions);
      if generated.Failure? {
        return Failure(generated.error);
      }
      var path := prefix + generated.value;
      path := AppendQueryStringArguments(path, query);
      r := AppendFragment(path, fragment);
    }

    /** `generate`: the same as `__invoke`. */
    method Generate(routeName: Option<string>, routeParams: Assoc<string>, queryParams: Assoc<string>,
                    fragment: Option<string>, options: Options) returns (r: Result<string, UrlError>)
      requires Valid()
      ensures r == Url(router, basePath, result, request, routeName, routeParams, queryParams, fragment, options)
    {
      r := Invoke(routeName, routeParams, queryParams, fragment, options);
    }
  }
}
