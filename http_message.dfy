/** The immutable request and response values the helpers receive, reduced to
    the parts they read or change. Every `with...` operation returns a new value. */
module HttpMessage {
  import opened Wrappers
  import opened PhpArray
  import PhpText

  /** A PHP value as a parsed body or a request attribute can hold it.
      Arrays are ordered and string-keyed. */
  datatype PhpValue =
    | Null
    | Bool(b: bool)
    | Int(i: int)
    | Float(x: real)
    | Str(s: string)
    | Arr(entries: seq<(string, PhpValue)>)

  /** PHP's `empty()` on a value. */
  predicate IsEmptyValue(v: PhpValue) {
    match v
    case Null => true
    case Bool(b) => !b
    case Int(i) => i == 0
    case Float(x) => x == 0.0
    case Str(s) => PhpText.IsEmpty(s)
    case Arr(entries) => entries == []
  }

  /** A flat array of strings as a PHP value. */
  function ArrayValue(a: Assoc<string>): (v: PhpValue)
    ensures v.Arr? && |v.entries| == |a|
    ensures forall i :: 0 <= i < |a| ==> v.entries[i] == (a[i].0, Str(a[i].1))
  {
    Arr(seq(|a|, i requires 0 <= i < |a| => (a[i].0, Str(a[i].1))))
  }

  /** A server-side request: its query parameters, the contents of its body
      stream, its parsed body and its attributes. */
  datatype ServerRequest = ServerRequest(
    queryParams: Assoc<string>,
    body: string,
    parsedBody: PhpValue,
    attributes: map<string, PhpValue>)
  {
    /** `withAttribute($name, $value)`. */
    function WithAttribute(name: string, value: PhpValue): ServerRequest {
      this.(attributes := attributes[name := value])
    }

    /** `withParsedBody($data)`. */
    function WithParsedBody(data: PhpValue): ServerRequest {
      this.(parsedBody := data)
    }
  }

  /** A header name compared the way HTTP compares them, ignoring ASCII case. */
  function Lower(c: char): char {
    if 'A' <= c <= 'Z' then (c as int + 32) as char else c
  }

  predicate SameHeaderName(a: string, b: string) {
    |a| == |b| && forall i :: 0 <= i < |a| ==> Lower(a[i]) == Lower(b[i])
  }

  /** A response: status, headers in order (each with its list of values),
      body contents and the size the body stream reports (None when unknown). */
  datatype Response = Response(
    status: int,
    headers: seq<(string, seq<string>)>,
    body: string,
    bodySize: Option<nat>)
  {
    /** `hasHeader($name)`. */
    predicate HasHeader(name: string) {
      exists i :: 0 <= i < |headers| && SameHeaderName(headers[i].0, name)
    }

    /** `withHeader($name, $value)`: any header of that name is replaced, and the
        header is added last with the one value. */
    function WithHeader(name: string, value: string): (r: Response)
      ensures r.HasHeader(name)
      ensures !HasHeader(name) ==> r.headers == headers + [(name, [value])]
    {
      var r := this.(headers := Without(headers, name) + [(name, [value])]);
      assert SameHeaderName(r.headers[|r.headers| - 1].0, name);
      if !HasHeader(name) then
        WithoutAbsent(headers, name);
        r
      else r
    }
  }

  /** The headers whose name is not `name`. */
  function Without(hs: seq<(string, seq<string>)>, name: string): seq<(string, seq<string>)> {
    if hs == [] then []
    else if SameHeaderName(hs[0].0, name) then Without(hs[1..], name)
    else [hs[0]] + Without(hs[1..], name)
  }

  lemma {:induction false} WithoutAbsent(hs: seq<(string, seq<string>)>, name: string)
    requires forall i :: 0 <= i < |hs| ==> !SameHeaderName(hs[i].0, name)
    ensures Without(hs, name) == hs
  {
    if hs != [] {
      WithoutAbsent(hs[1..], name);
    }
  }
}
