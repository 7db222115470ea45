/** The Content-Length middleware (src/ContentLengthMiddleware.php): after the
    next handler has produced a response, add a Content-Length header from the
    body's reported size, unless the header is already there or the size is
    unknown. */
module ContentLength {
  import opened Wrappers
  import opened HttpMessage
  import opened Decimal

  const ContentLengthHeader := "Content-Length"

  /** The middleware's decision on the response the next handler returned. */
  function AddContentLength(response: Response): (r: Response)
    ensures r.status == response.status && r.body == response.body && r.bodySize == response.bodySize
    ensures response.HasHeader(ContentLengthHeader) ==> r == response
    ensures response.bodySize.None? ==> r == response
    ensures !response.HasHeader(ContentLengthHeader) && response.bodySize.Some? ==>
      r.headers == response.headers + [(ContentLengthHeader, [ToDecimal(response.bodySize.value)])]
  {
    if response.HasHeader(ContentLengthHeader) then response
    else if response.bodySize.None? then response
    else response.WithHeader(ContentLengthHeader, ToDecimal(response.bodySize.value))
  }

  /** `process($request, $delegate)`: the next handler is a parameter. The
      response it returns comes back unchanged when it already has the header
      or does not know its size; otherwise the header with the size in decimal
      is added last, and nothing else changes. */
  function Process<Request>(request: Request, next: Request -> Response): (r: Response)
    ensures var n := next(request);
      n.HasHeader(ContentLengthHeader) || n.bodySize.None? ==> r == n
    ensures var n := next(request);
      !n.HasHeader(ContentLengthHeader) && n.bodySize.Some? ==>
        && r == n.(headers := r.headers)
        && r.headers == n.headers + [(ContentLengthHeader, [ToDecimal(n.bodySize.value)])]
  {
    AddContentLength(next(request))
  }

  /** Whatever the response, the result carries a Content-Length header exactly
      when the size is known or the header was already there. */
  lemma HeaderPresentAfter(response: Response)
    ensures AddContentLength(response).HasHeader(ContentLengthHeader)
        <==> response.HasHeader(ContentLengthHeader) || response.bodySize.Some?
  {
  }

  /** The added header holds the size in canonical decimal form, and that value
      reads back as the size. */
  lemma AddedValueReadsBack(response: Response)
    requires !response.HasHeader(ContentLengthHeader) && response.bodySize.Some?
    ensures var r := AddContentLength(response);
      var v := r.headers[|r.headers| - 1].1[0];
      IsCanonical(v) && ParseDecimal(v) == response.bodySize.value
  {
    ToDecimalIsCanonical(response.bodySize.value);
    ParseToDecimal(response.bodySize.value);
  }

  /** The transformation is idempotent. */
  lemma Idempotent(response: Response)
    ensures AddContentLength(AddContentLength(response)) == AddContentLength(response)
  {
  }

  /** A 42-byte body without the header gets `Content-Length: 42`. */
  lemma FortyTwo(headers: seq<(string, seq<string>)>)
    requires forall i :: 0 <= i < |headers| ==> headers[i].0 == "X-Test"
    ensures AddContentLength(Response(200, headers, "", Some(42))).headers
         == headers + [("Content-Length", ["42"])]
  {
    var response := Response(200, headers, "", Some(42));
    assert !response.HasHeader(ContentLengthHeader) by {
      forall i | 0 <= i < |headers| ensures !SameHeaderName(headers[i].0, ContentLengthHeader) {
        assert |headers[i].0| != |ContentLengthHeader|;
      }
    }
    assert DigitChar(4) == '4' && DigitChar(2) == '2';
    assert ToDecimal(42) == ToDecimal(4) + [DigitChar(2)] == "42";
  }
}
