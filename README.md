# mezzio-helpers, modelled in Dafny

This project models the core of the PHP package mezzio/mezzio-helpers and
proves properties of the model. The core is made of five components.

- **UrlHelper** (`url_helper.dfy`, module `UrlGeneration`). It asks the router
  for the URI of a named route, or of the route that matched the current
  request. It reuses the matched parameters and, on request, the current query
  parameters. It puts the base path in front, appends a query string, and
  appends a fragment once the fragment passes its RFC 3986 check. The helper
  is a class whose setters change its fields. `__invoke` is a method that works
  step by step and is proved equal to the function `Url`.
- **ServerUrlHelper** (`server_url_helper.dfy`, module `ServerUrl`). Without a
  bound URI it turns a path into a root-relative path. With a bound request
  URI it rebases the path, query and fragment of a specification
  `path[?query][#fragment]` onto that URI.
- **JsonStrategy** (`json_strategy.dfy`). It recognises JSON content types and
  parses a JSON request body. The body is kept as the `rawBody` attribute, and
  malformed JSON gives an error with code 400.
- **FormUrlEncodedStrategy** (`form_urlencoded_strategy.dfy`). It recognises the
  form media type and parses a form body, unless the request already has a
  parsed body.
- **ContentLengthMiddleware** (`content_length.dfy`). It adds a Content-Length
  header from the body's reported size when the header is missing.

Supporting modules:

- `php_text.dfy`: PHP string built-ins.
- `php_array.dfy`: ordered string-keyed arrays and `array_merge`.
- `decimal.dfy`: the decimal rendering of an integer.
- `http_message.dfy`: PSR-7 request and response values.
- `query_string.dfy`: `http_build_query`.
- `fragment.dfy`: the fragment pattern.
- `wrappers.dfy`: `Option` and `Result`.

Three outside services are function-typed parameters:

- The router (`Router`).
- The JSON decoder (`JsonDecoder`).
- The form decoder passed to the form strategy.

A PHP exception is the `Failure` side of a `Result`.

## Model

| member | source | states |
|---|---|---|
| UrlGeneration.UrlHelper.constructor | src/UrlHelper.php:34-42 | A new helper keeps its router, has base path "/", and has no route result and no request. |
| UrlGeneration.UrlHelper.SetRouteResult | src/UrlHelper.php:115-118 | Stores the result and leaves the base path and request alone, so the invariant that the base path starts with `/` is kept. |
| UrlGeneration.UrlHelper.SetBasePath | src/UrlHelper.php:123-126 | Stores `/` plus the path without its leading slashes, which keeps the invariant that the base path starts with `/`. Result and request are unchanged. |
| UrlGeneration.UrlHelper.SetRequest | src/UrlHelper.php:136-139 | Stores the request and leaves the base path and result alone, so the invariant is kept. |
| UrlGeneration.UrlHelper.GetRouteResult | src/UrlHelper.php:128-131 | Returns the injected result, or none when none was injected. |
| UrlGeneration.UrlHelper.GetRequest | src/UrlHelper.php:141-144 | Returns the injected request, or none. |
| UrlGeneration.UrlHelper.GetBasePath | src/UrlHelper.php:149-152 | Returns the stored base path, which is non-empty and starts with `/`. |
| UrlGeneration.UrlHelper.Invoke | src/UrlHelper.php:45-96 | The step-by-step `__invoke`, with its early exits, returns exactly `Url(...)` for the helper's router, base path, result and request. It uses the corrected fragment check; `UrlAsWritten` is the source's check. |
| UrlGeneration.UrlHelper.Generate | src/UrlHelper.php:99-107 | `generate` returns what `__invoke` returns for the same arguments. |
| UrlGeneration.Url | src/UrlHelper.php:45-96 | What `__invoke` returns, with the corrected fragment check. It has no contract of its own: UrlSucceedsIff, SuccessfulUrl, UrlFromParts, NoResultInjected, RoutingFailed, RouterErrorPropagates and InvalidFragmentRefused state its behaviour. |
| UrlGeneration.UrlAsWritten | src/UrlHelper.php:45-96 | What `__invoke` returns with the fragment pattern as written. AsWrittenVersusIntended relates it to `Url`. |
| UrlGeneration.AppendFragmentAsWritten | src/UrlHelper.php:245-255 | As written: succeeds if and only if there is no fragment or the pattern of line 32 matches it. Every failure is the InvalidArgument error with code 400. |
| UrlGeneration.AsWrittenVersusIntended | src/UrlHelper.php:32 | The source's `__invoke` and the corrected one agree whenever the corrected one succeeds. They differ only for a fragment of two or more characters ending in a newline. There the corrected call fails with the fragment error, while the source appends `#` and the fragment. |
| UrlGeneration.AsWrittenAcceptsNewline | src/UrlHelper.php:248-252 | For any router answer, the source turns the fragment "a\n" into the answer plus `#a\n`, where the corrected call refuses it. |
| UrlGeneration.GenerateUriFromResult | src/UrlHelper.php:157-169 | The matched route with the merged parameters, or the "routing failed" error. It has no contract of its own: RoutingFailed and MatchedParamsUnderGiven state it. |
| UrlGeneration.MergeParams | src/UrlHelper.php:188-199 | The parameter merge. It has no contract of its own: MatchedParamsUnderGiven and GivenParamsVerbatim state it. |
| UrlGeneration.MergeQueryParams | src/UrlHelper.php:216-227 | The query merge. It has no contract of its own: CurrentQueryUnderGiven, NoRequestNoCurrentQuery and GivenQueryVerbatim state it. |
| UrlGeneration.AppendQueryStringArguments | src/UrlHelper.php:232-238 | Appends `?` and the built query only for a non-empty query. It has no contract of its own: Appended and SuccessfulUrl state it. |
| UrlGeneration.PathPrefix | src/UrlHelper.php:59-62 | The base path "/" contributes nothing, any other base path itself. It has no contract of its own: SuccessfulUrl and BasePathExample state it. |
| UrlGeneration.NormalizeBasePath | src/UrlHelper.php:125 | The stored base path is non-empty and starts with `/`. |
| UrlGeneration.BasePathNormalized | src/UrlHelper.php:125 | The stored path is `/` followed by the given path without its leading slashes. The removed prefix is all slashes, and no second slash follows the first. |
| UrlGeneration.BasePathIdempotent | src/UrlHelper.php:123-126 | Storing an already stored base path again changes nothing. |
| UrlGeneration.BasePathGetsSlash | test/UrlHelperTest.php:196-201 | A path without a leading slash is stored as `/` plus the path, e.g. 'foo' becomes '/foo'. |
| UrlGeneration.AppendFragment | src/UrlHelper.php:245-255 | Succeeds if and only if there is no fragment or the fragment is valid. On failure the error is InvalidArgument with the RFC 3986 message and code 400. On success the URI is a prefix of the result and `#fragment` follows it. No fragment leaves the URI unchanged. |
| UrlGeneration.NoResultInjected | src/UrlHelper.php:52-57 | With neither a route name nor a result, the call fails with the "none was injected" RuntimeException whatever the router. |
| UrlGeneration.RoutingFailed | src/UrlHelper.php:157-163 | With no route name and a failed result, the call fails with the "routing failed" RuntimeException whatever the router and fragment. |
| UrlGeneration.RegenerateMatchedRoute | src/UrlHelper.php:67-72 | Without a route name, the result is that of naming the matched route with parameter reuse forced on, query reuse forced off and no request, whatever the reuse options say. |
| UrlGeneration.MatchedParamsUnderGiven | src/UrlHelper.php:188-199 | For the matched route with reuse on, the router gets the matched parameters overridden by the given ones. Each key's value comes from the given parameters when present there, else from the matched ones. Matched keys come first in order, then the new keys. |
| UrlGeneration.GivenParamsVerbatim | src/UrlHelper.php:74-79 | For another route, no result, a failed result, or reuse turned off, the router gets the given parameters unchanged. |
| UrlGeneration.CurrentQueryUnderGiven | src/UrlHelper.php:216-227 | For the matched route with query reuse on, the appended query is the request's query overridden by the given one, in `array_merge` order. |
| UrlGeneration.NoRequestNoCurrentQuery | src/UrlHelper.php:226 | Without an injected request, the current query counts as empty and the given query is used as it is. |
| UrlGeneration.GivenQueryVerbatim | src/UrlHelper.php:81-86 | For another route, no result, or query reuse off (the default), the given query is appended unchanged. |
| UrlGeneration.RouterErrorPropagates | src/UrlHelper.php:89 | For a named route, the router's exception is the call's exception. |
| UrlGeneration.UrlSucceedsIff | src/UrlHelper.php:45-96 | The call succeeds if and only if there is a route name or a result, the router answers, and the fragment is absent or valid. |
| UrlGeneration.SuccessfulUrl | src/UrlHelper.php:59-62 | A generated URL is the base path (nothing for "/"), then the router's answer, then `?query` only for a non-empty query, then `#fragment` only when a fragment is given. |
| UrlGeneration.UrlFromParts | src/UrlHelper.php:89-95 | Conversely, a router answer and a valid or absent fragment give exactly that assembled URL. |
| UrlGeneration.Appended | src/UrlHelper.php:232-255 | Appending the query and then the fragment adds their suffixes after the path. |
| UrlGeneration.InvalidFragmentRefused | src/UrlHelper.php:247-250 | An invalid fragment never yields a URL. The only InvalidArgument error is the fragment error. |
| UrlGeneration.QueryAndFragmentExample | test/UrlHelperTest.php:295-320 | Route "foo" with `bar => baz`, query `qux => quux` and any valid fragment (the test's "cor-ge" is one) gives the router's answer plus `?qux=quux#` and the fragment. |
| UrlGeneration.InvalidFragmentExample | test/UrlHelperTest.php:323-344 | Route "foo" with no parameters and the fragment "" or "#" is refused with code 400. |
| UrlGeneration.BasePathExample | test/UrlHelperTest.php:203-209 | With base path "/prefix", the router's answer gets "/prefix" in front. |
| UrlGeneration.MatchedParamsExample | test/UrlHelperTest.php:99-112 | Regenerating route "foo" matched with `bar => baz` and given `baz => bat` sends `bar => baz, baz => bat` to the router. |
| UrlGeneration.RegeneratedWithQueryAndFragmentExample | test/UrlHelperTest.php:361-388 | Regenerating "matched-route" with `foo => baz` over `foo => bar`, plus a query and any valid fragment (the test's "fragment/exists" is one), gives the answer plus `?query=params&are=present#` and the fragment. |
| UrlGeneration.RouterOptionsExample | test/UrlHelperTest.php:287-292 | The `router` option reaches the router. |
| UrlGeneration.ReusedQueryExample | test/UrlHelperTest.php:424-441 | With `reuse_query_params` true, the request's query `foo => bar` is appended. |
| QueryString.BuildQuery | src/UrlHelper.php:235 | The query string is empty exactly when there are no parameters, and it starts with the first `key=value` pair. |
| QueryString.SplitBuildQuery | src/UrlHelper.php:235 | Splitting a built query at `&` gives back its pairs, one per parameter. |
| QueryString.DecodePairs | src/UrlHelper.php:235 | Decoding the pairs one by one is `array_merge` of the parameters into what was decoded before. |
| QueryString.QueryRoundTrip | src/UrlHelper.php:232-238 | For keys and values that need no escaping, the form decoder reads back exactly the parameters, in their order. |
| Fragment.PatternAcceptsTrailingNewline | src/UrlHelper.php:32 | The pattern as written accepts "a\n", which is not a fragment. |
| Fragment.PatternVersusIntended | src/UrlHelper.php:32 | Every fragment passes the pattern. Anything else the pattern passes ends in a newline. |
| Fragment.FragmentIsClean | src/UrlHelper.php:32 | A fragment that passes the corrected check is non-empty, is made of allowed characters and `%HH` escapes, and holds no newline and no `#`. |
| Fragment.TokensIff | src/UrlHelper.php:32 | The token grammar of the pattern agrees with its character-by-character reading. |
| Fragment.RejectsEmptyAndHash | test/UrlHelperTest.php:323-329 | "" and "#" fail both the pattern and the corrected check. |
| Fragment.PlainFragment | src/UrlHelper.php:32 | A non-empty string of allowed characters without `%` is a fragment. |
| Fragment.PatternMatches | src/UrlHelper.php:32 | The fragment pattern as written, including PCRE's `$` before a final newline. It has no contract of its own: PatternAcceptsTrailingNewline, PatternVersusIntended and RejectsEmptyAndHash state it. |
| Fragment.IsFragment | src/UrlHelper.php:32 | The corrected check: the pattern anchored at the very end. It has no contract of its own: FragmentIsClean, TokensIff and PlainFragment state it. |
| ServerUrl.ServerUrlHelper.constructor | src/ServerUrlHelper.php:18 | A new helper has no URI bound. |
| ServerUrl.ServerUrlHelper.SetUri | src/ServerUrlHelper.php:63-66 | Binds the URI. |
| ServerUrl.ServerUrlHelper.Invoke | src/ServerUrlHelper.php:34-51 | Without a URI the result is the root-relative path and starts with `/`. With a URI it is the specification rebased onto that URI, where a null path counts as "". |
| ServerUrl.ServerUrlHelper.Generate | src/ServerUrlHelper.php:58-61 | `generate` returns what `__invoke` returns. |
| ServerUrl.RootRelative | src/ServerUrlHelper.php:42-50 | The root-relative result always starts with `/`. |
| ServerUrl.RootRelativeSpec | src/ServerUrlHelper.php:42-50 | An empty path ("" or "0") gives "/". Otherwise the result is the path, or the path behind one `/`, and its tail after the first `/` is the path without a leading slash. |
| ServerUrl.RootRelativeIdempotent | test/ServerUrlHelperTest.php:19-37 | Applying the no-URI branch to its own result changes nothing. |
| ServerUrl.FragmentTailSpec | src/ServerUrlHelper.php:71 | The fragment group takes no newline. It equals the rest of the text, or the rest short of one final newline. |
| ServerUrl.SplitJoin | src/ServerUrlHelper.php:70-77 | A matched specification splits into a path without `?` or `#`, a query without `#`, and a fragment without a newline. Joining them gives the specification back, short of a final newline that `$` skips. A specification without a newline always matches. |
| ServerUrl.JoinSplit | src/ServerUrlHelper.php:70-77 | Splitting joined well-formed parts gives the parts back. |
| ServerUrl.BoundQueryAndFragmentDropped | src/ServerUrlHelper.php:81-83 | The bound URI's own query and fragment never influence the result. |
| ServerUrl.RebasedPath | src/ServerUrlHelper.php:86-93 | A relative path is joined to the URI's path with exactly one `/`. An absolute path replaces it. An empty path keeps it. |
| ServerUrl.RebasedQueryAndFragment | src/ServerUrlHelper.php:96-103 | The result keeps the URI's prefix. Its query and fragment are those of the specification, or "" when PHP considers them empty. |
| ServerUrl.UnmatchedSpecification | src/ServerUrlHelper.php:70-77 | A specification the pattern cannot match leaves the URI's path and drops its query and fragment. |
| ServerUrl.RelativePathWithQueryExample | test/ServerUrlHelperTest.php:112-131 | On a URI with path `/resource` and any query and fragment, "foo/bar?foo=bar" gives `/resource/foo/bar?foo=bar` after the URI's prefix. |
| ServerUrl.RootPathExample | test/ServerUrlHelperTest.php:91-104 | On `/resource#bar`, "/" gives the prefix plus "/". |
| ServerUrl.FragmentOnlyExample | test/ServerUrlHelperTest.php:134-153 | On `/resource`, "#bar" gives `/resource#bar`. |
| ServerUrl.UriString | src/ServerUrlHelper.php:105 | `(string) $uri` for a URI given as prefix, path, query and fragment. It has no contract of its own: the examples state it. |
| ServerUrl.SplitSpec | src/ServerUrlHelper.php:70-77 | The match of the specification pattern. It has no contract of its own: SplitJoin, JoinSplit and FragmentTailSpec state it. |
| ServerUrl.RebasedUri | src/ServerUrlHelper.php:68-104 | The bound URI rebased by the specification. It has no contract of its own: RebasedPath, RebasedQueryAndFragment, BoundQueryAndFragmentDropped and UnmatchedSpecification state it. |
| ServerUrl.CreateUrlFromUri | src/ServerUrlHelper.php:68-106 | The rebased URI as a string. It has no contract of its own: the examples state it. |
| JsonStrategy.MatchIff | src/BodyParams/JsonStrategy.php:29-34 | A content type matches if and only if its trimmed media type (the text before the first `;`) ends with `/json` or `+json`. |
| JsonStrategy.ParametersIgnored | src/BodyParams/JsonStrategy.php:31-32 | Parameters after the first `;` never change the decision. |
| JsonStrategy.MatchPlain | src/BodyParams/JsonStrategy.php:33 | For a media type without `;` or surrounding whitespace, the match is the suffix test on the text itself. |
| JsonStrategy.AcceptsJson | test/BodyParams/JsonStrategyTest.php:31 | "application/json" is accepted. |
| JsonStrategy.AcceptsVendorJson | test/BodyParams/JsonStrategyTest.php:32-33 | "application/hal+json" and "application/vnd.resource.v2+json" are accepted. |
| JsonStrategy.RejectsJsonXml | test/BodyParams/JsonStrategyTest.php:53 | "application/json+xml" is rejected. |
| JsonStrategy.RejectsNotJson | test/BodyParams/JsonStrategyTest.php:54 | "application/notjson" is rejected. |
| JsonStrategy.RejectsJavascript | test/BodyParams/JsonStrategyTest.php:57 | "text/javascript" is rejected. |
| JsonStrategy.RejectsMultipart | test/BodyParams/JsonStrategyTest.php:58 | "form/multipart" is rejected. |
| JsonStrategy.RejectsFormUrlEncoded | test/BodyParams/JsonStrategyTest.php:59 | "application/x-www-form-urlencoded" is rejected. |
| JsonStrategy.AcceptsEmptySuffixPrefix | src/BodyParams/JsonStrategy.php:33 | The source accepts "application/+json". |
| JsonStrategy.AcceptsSpaceBeforeSuffix | src/BodyParams/JsonStrategy.php:33 | The source accepts "application/ +json". |
| JsonStrategy.Parse | src/BodyParams/JsonStrategy.php:41-63 | Every success stores the raw body as `rawBody` and keeps the query and body. An empty body ("" or "0") gives a null parsed body. A decoding error gives MalformedRequestBody with the prefixed message and code 400. Otherwise the parsed body is the decoded value. |
| JsonStrategy.EmptyBodyNotDecoded | src/BodyParams/JsonStrategy.php:45-49 | An empty body never reaches the decoder: any two decoders give the same result. |
| JsonStrategy.ScalarPassedThrough | src/BodyParams/JsonStrategy.php:60-62 | A body decoding to the scalar 1 is stored as 1. |
| JsonStrategy.Match | src/BodyParams/JsonStrategy.php:29-34 | `match`. It has no contract of its own: MatchIff, ParametersIgnored and MatchPlain state it. |
| FormUrlEncodedStrategy.MatchIff | src/BodyParams/FormUrlEncodedStrategy.php:20-23 | For a content type without a newline: it matches if and only if it starts with the media type and then ends or continues with a space or `;`. |
| FormUrlEncodedStrategy.AcceptsParameters | test/BodyParams/FormUrlEncodedStrategyTest.php:33-36 | The media type alone, or followed by `;` or a space and anything, is accepted. |
| FormUrlEncodedStrategy.RejectsLongerType | src/BodyParams/FormUrlEncodedStrategy.php:22 | Any other character straight after the media type is rejected. |
| FormUrlEncodedStrategy.RejectedTypes | test/BodyParams/FormUrlEncodedStrategyTest.php:52-55 | "…urlencoded2", "…urlencoded-too", "form/multipart" and "application/json" are rejected. |
| FormUrlEncodedStrategy.Parse | src/BodyParams/FormUrlEncodedStrategy.php:25-42 | A non-empty parsed body or an empty raw body returns the request unchanged. Otherwise only the parsed body changes, to the decoded raw body. |
| FormUrlEncodedStrategy.ParsedBodyWins | src/BodyParams/FormUrlEncodedStrategy.php:27-31 | With a parsed body present, neither the decoder nor the raw body matters. |
| FormUrlEncodedStrategy.Idempotent | src/BodyParams/FormUrlEncodedStrategy.php:25-42 | Parsing twice is parsing once. |
| FormUrlEncodedStrategy.DecodeExample | test/BodyParams/FormUrlEncodedStrategyTest.php:104-115 | The flat decoder reads "foo=bar&bar=foo" as `foo => bar, bar => foo`. |
| FormUrlEncodedStrategy.ParseExample | test/BodyParams/FormUrlEncodedStrategyTest.php:104-115 | Parsing that body sets the parsed body to that array and changes nothing else. |
| FormUrlEncodedStrategy.Match | src/BodyParams/FormUrlEncodedStrategy.php:20-23 | `match`. It has no contract of its own: MatchIff, AcceptsParameters, RejectsLongerType and RejectedTypes state it. |
| FormUrlEncodedStrategy.DecodeForm | src/BodyParams/FormUrlEncodedStrategy.php:39 | A flat `parse_str`. It has no contract of its own: DecodeExample and QueryString.QueryRoundTrip state it. |
| ContentLength.AddContentLength | src/ContentLengthMiddleware.php:29-39 | Status, body and size are unchanged. A present header or an unknown size leaves the response as it is. Otherwise the header list gains exactly `Content-Length: <size in decimal>` at the end. |
| ContentLength.Process | src/ContentLengthMiddleware.php:27-40 | The next handler's response comes back unchanged when it has a Content-Length header or an unknown size. Otherwise only its headers change: `Content-Length: <size in decimal>` is appended. |
| ContentLength.HeaderPresentAfter | src/ContentLengthMiddleware.php:30-39 | The result has the header if and only if it had it before or the size is known. |
| ContentLength.AddedValueReadsBack | src/ContentLengthMiddleware.php:39 | The added value is canonical decimal and reads back as the size. |
| ContentLength.Idempotent | src/ContentLengthMiddleware.php:27-40 | Running the middleware's decision twice is running it once. |
| ContentLength.FortyTwo | test/ContentLengthMiddlewareTest.php:52-61 | A 42-byte body without the header gets `Content-Length: 42`. |
| Decimal.ToDecimalIsCanonical | src/ContentLengthMiddleware.php:39 | `(string)` of a size is all digits, with no leading zero unless the size is 0. |
| Decimal.ParseToDecimal | src/ContentLengthMiddleware.php:39 | Reading the decimal text of a size gives the size back. |
| Decimal.ToDecimalParse | src/ContentLengthMiddleware.php:39 | Canonical decimal text rendered from its own value is the same text. |
| Decimal.ToDecimalInjective | src/ContentLengthMiddleware.php:39 | Different sizes never give the same header value. |
| Decimal.ToDecimal | src/ContentLengthMiddleware.php:39 | `(string)` of a size. The four lemmas above state its properties. |
| PhpArray.Put | src/UrlHelper.php:198 | `$a[$k] = $v`: an existing key keeps its place and a new key is appended. Key k then looks up v and every other key is unchanged. |
| PhpArray.MergeLookup | src/UrlHelper.php:198 | `array_merge` with string keys: a key of the second array takes its value from it, any other key keeps its value from the first. |
| PhpArray.MergeKeys | src/UrlHelper.php:198 | The merged keys are the first array's keys in order, then the second array's new keys in their order. |
| PhpArray.MergeSelf | src/UrlHelper.php:198 | Merging an array with itself changes nothing. |
| PhpArray.MergeIntoEmpty | src/UrlHelper.php:226 | Merging into an empty array gives the overrides unchanged. |
| PhpArray.Merge | src/UrlHelper.php:198 | `array_merge` with string keys. It has no contract of its own: MergeLookup, MergeKeys, MergeSelf and MergeIntoEmpty state it. |
| PhpText.LTrim | src/UrlHelper.php:125 | `ltrim` returns a suffix of its input that does not start with a stripped character, and everything removed was a stripped character. |
| PhpText.RTrim | src/ServerUrlHelper.php:87 | `rtrim` returns a prefix of its input that does not end with a stripped character, and everything removed was a stripped character. |
| PhpText.Trim | src/BodyParams/JsonStrategy.php:33 | The trimmed text neither starts nor ends with whitespace. |
| PhpText.BeforeFirst | src/BodyParams/JsonStrategy.php:31-32 | The first piece of `explode` is a prefix free of the separator, and the separator follows it whenever it is shorter than the input. |
| PhpText.IsEmpty | src/ServerUrlHelper.php:42 | PHP's `empty()` on a string: "" and "0". It has no contract of its own: RootRelativeSpec and JsonStrategy.Parse use it. |
| HttpMessage.ArrayValue | src/BodyParams/FormUrlEncodedStrategy.php:39-41 | A decoded form becomes a PHP array of the same keys, order and string values. |
| HttpMessage.IsEmptyValue | src/BodyParams/FormUrlEncodedStrategy.php:27-31 | PHP's `empty()` on a parsed body. It has no contract of its own: FormUrlEncodedStrategy.Parse and ParsedBodyWins use it. |
| HttpMessage.Response.WithHeader | src/ContentLengthMiddleware.php:39 | After `withHeader` the header is present. A new header is appended and the others are kept. |

## Findings

| source | as written | input that shows it | evidently intended | confidence | as-written member | corrected member |
|---|---|---|---|---|---|---|
| src/UrlHelper.php:32 | The fragment pattern ends in `$` without the D modifier. PCRE's `$` also matches before one final newline. | "a\n" passes the check, and the newline reaches the URL after `#`. | Only non-empty RFC 3986 fragments pass, so no newline is possible. | not executed | UrlGeneration.UrlAsWritten with Fragment.PatternMatches (shown by UrlGeneration.AsWrittenAcceptsNewline and Fragment.PatternAcceptsTrailingNewline) | UrlGeneration.Url with Fragment.IsFragment (proved by Fragment.FragmentIsClean and Fragment.PatternVersusIntended; used by UrlGeneration.AppendFragment) |

## Source and tests disagree

The model follows the code in both cases.

- `test/BodyParams/JsonStrategyTest.php:55-56` lists "application/+json" and
  "application/ +json" as rejected. The pattern `[/+]json$` at
  `src/BodyParams/JsonStrategy.php:33` accepts both. See
  `JsonStrategy.AcceptsEmptySuffixPrefix` and
  `JsonStrategy.AcceptsSpaceBeforeSuffix`.
- `test/BodyParams/JsonStrategyTest.php:156-183` expects a body that decodes to
  a scalar (`1`, `true`, `"string"`, …) to give a null parsed body.
  `src/BodyParams/JsonStrategy.php:60-62` stores whatever the decoder returns.
  See `JsonStrategy.ScalarPassedThrough`.

## Left out

- UrlGeneration.Url: uses the corrected fragment check, so a fragment of two or more characters ending in "\n" fails where the source appends it. `UrlAsWritten` is the source's behaviour, and `AsWrittenVersusIntended` states the difference.
- UrlGeneration.AppendFragment: uses the corrected fragment check, so it refuses a fragment ending in a newline that the source accepts. `AppendFragmentAsWritten` is the source's behaviour, and `AsWrittenVersusIntended` states the whole difference.
- UrlGeneration.UrlHelper.Invoke: the helper object uses the corrected check. It returns `Url`, not `UrlAsWritten`, so a fragment ending in a newline fails where the source appends it.
- UrlGeneration.UrlHelper.Generate: the same as `Invoke`.
- UrlGeneration.UrlSucceedsIff: "valid fragment" means the corrected check. With the source's check, a fragment ending in a newline also succeeds (see `AsWrittenVersusIntended`).
- UrlGeneration.InvalidFragmentRefused: holds for the corrected check only. The source yields a URL for "a\n" (see `AsWrittenAcceptsNewline`).
- The router, `json_decode`/`json_last_error_msg` and `parse_str` are outside
  code. They are parameters of the model, with no properties assumed.
- QueryString.BuildQuery: `http_build_query` is modelled for flat string
  values that need no escaping. Percent-encoding, nested arrays, integer keys
  and non-string values are not modelled.
- FormUrlEncodedStrategy.DecodeForm: a flat `k=v&k=v` decoder. It is given as
  one possible `parse_str`. Percent and `+` decoding, bracketed keys and
  integer-key renumbering are not modelled.
- PHP arrays are modelled with string keys and string values only.
  `array_merge`'s renumbering of integer keys is not modelled.
- The route, reuse and router options hold booleans and string arrays.
  PHP's `(bool)` cast of other option values is not modelled, and neither is a
  non-array `router` option.
- PSR-7 URI objects: a URI is its prefix (scheme and authority), path, query
  and fragment. Normalisation and encoding by `withPath`, `withQuery` and
  `withFragment` are not modelled, and `(string)` is plain concatenation.
- ServerUrl.RebasedUri: when the specification does not match the pattern, PHP
  reads an undefined `$matches['path']` and raises a warning. The model treats
  that path as empty and does not model the warning.
- Request bodies are strings. Stream reading, stream position and body size
  computation are not modelled; the size is a given optional number.
- JSON values are given by the decoder. Floats, big integers and decoding
  depth are not modelled.
- The type errors PHP raises for non-string base paths
  (`test/UrlHelperTest.php:251-270`) are ruled out by the types of the model.
- The factories, the middleware that only pass values through, the body-params
  middleware and the template-variable container are not part of this model.
- Concurrency is not modelled; every object is used by one caller at a time.
