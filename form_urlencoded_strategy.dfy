/** The form-urlencoded body-parsing strategy
    (src/BodyParams/FormUrlEncodedStrategy.php). The form decoder (`parse_str`)
    is a parameter of `Parse`; `DecodeForm` is a flat `k=v&k=v` decoder that can
    be passed for it. */
module FormUrlEncodedStrategy {
  import opened PhpText
  import opened PhpArray
  import opened HttpMessage

  const FormMediaType := "application/x-www-form-urlencoded"

  /** `match($contentType)`: the pattern
      `^application/x-www-form-urlencoded($|[ ;])`, case-sensitive. PCRE's `$`
      also matches before one final newline. */
  predicate Match(contentType: string) {
    && StartsWith(contentType, FormMediaType)
    && var rest := contentType[|FormMediaType|..];
       rest == "" || rest == "\n" || rest[0] == ' ' || rest[0] == ';'
  }

  /** For a content type without a newline: the media type, then the end, a
      space or a `;`. */
  lemma MatchIff(contentType: string)
    requires '\n' !in contentType
    ensures Match(contentType) <==>
      && StartsWith(contentType, FormMediaType)
      && (|contentType| == |FormMediaType|
          || contentType[|FormMediaType|] == ' '
          || contentType[|FormMediaType|] == ';')
  {
  }

  /** Parameters after the media type are accepted. */
  lemma AcceptsParameters(parameters: string)
    ensures Match(FormMediaType + ";" + parameters)
    ensures Match(FormMediaType + " " + parameters)
    ensures Match(FormMediaType)
  {
    assert (FormMediaType + ";" + parameters)[..|FormMediaType|] == FormMediaType;
    assert (FormMediaType + " " + parameters)[..|FormMediaType|] == FormMediaType;
  }

  /** Any other character straight after the media type is rejected. */
  lemma RejectsLongerType(tail: string)
    requires tail != [] && tail[0] != ' ' && tail[0] != ';' && tail != "\n"
    ensures !Match(FormMediaType + tail)
  {
    assert (FormMediaType + tail)[|FormMediaType|..] == tail;
  }

  /** The types the source rejects: a longer subtype and other types. */
  lemma RejectedTypes()
    ensures !Match("application/x-www-form-urlencoded2")
    ensures !Match("application/x-www-form-urlencoded-too")
    ensures !Match("form/multipart")
    ensures !Match("application/json")
  {
    RejectsLongerType("2");
    assert FormMediaType + "2" == "application/x-www-form-urlencoded2";
    RejectsLongerType("-too");
    assert FormMediaType + "-too" == "application/x-www-form-urlencoded-too";
  }

  /** `parse($request)`: a request that already has a non-empty parsed body, or
      whose raw body is empty, is returned as it is; otherwise its parsed body
      becomes the decoded raw body. */
  function Parse(decode: string -> Assoc<string>, request: ServerRequest): (r: ServerRequest)
    ensures !IsEmptyValue(request.parsedBody) ==> r == request
    ensures IsEmpty(request.body) ==> r == request
    ensures IsEmptyValue(request.parsedBody) && !IsEmpty(request.body) ==>
      r == request.(parsedBody := ArrayValue(decode(request.body)))
  {
    if !IsEmptyValue(request.parsedBody) then request
    else
      var rawBody := request.body;
      if IsEmpty(rawBody) then request
      else request.WithParsedBody(ArrayValue(decode(rawBody)))
  }

  /** An already parsed body means the raw body is never read and the decoder
      never called. */
  lemma ParsedBodyWins(d1: string -> Assoc<string>, d2: string -> Assoc<string>,
                       request: ServerRequest, otherBody: string)
    requires !IsEmptyValue(request.parsedBody)
    ensures Parse(d1, request) == request
    ensures Parse(d2, request.(body := otherBody)) == request.(body := otherBody)
  {
  }

  /** Parsing twice is parsing once. */
  lemma Idempotent(decode: string -> Assoc<string>, request: ServerRequest)
    ensures Parse(decode, Parse(decode, request)) == Parse(decode, request)
  {
  }

  // ---------------------------------------------------------------------------
  // A flat form decoder

  /** `explode($sep, $s)`. */
  function Split(s: string, sep: char): (pieces: seq<string>)
    ensures |pieces| > 0
    decreases |s|
  {
    var head := BeforeFirst(s, sep);
    if |head| == |s| then [s] else [head] + Split(s[|head| + 1..], sep)
  }

  /** Decodes `k=v&k=v`: pieces without a key are skipped, a piece without `=`
      has the empty value, and a later key overwrites an earlier one in place. */
  function DecodeForm(raw: string): Assoc<string> {
    DecodePieces([], Split(raw, '&'))
  }

  function DecodePieces(acc: Assoc<string>, pieces: seq<string>): Assoc<string>
    decreases |pieces|
  {
    if pieces == [] then acc
    else
      var piece := pieces[0];
      var key := BeforeFirst(piece, '=');
      var value := if |key| == |piece| then "" else piece[|key| + 1..];
      if key == "" then DecodePieces(acc, pieces[1..])
      else DecodePieces(Put(acc, key, value), pieces[1..])
  }

  /** The body `foo=bar&bar=foo` decodes to `foo => bar, bar => foo`, in that order. */
  lemma DecodeExample(raw: string)
    requires raw == "foo=bar&bar=foo"
    ensures DecodeForm(raw) == [("foo", "bar"), ("bar", "foo")]
  {
    SplitExample(raw);
    PiecesExample(raw[..7], raw[8..]);
  }

  lemma PiecesExample(p1: string, p2: string)
    requires p1 == "foo=bar" && p2 == "bar=foo"
    ensures DecodePieces([], [p1, p2]) == [("foo", "bar"), ("bar", "foo")]
  {
    FirstPieceExample(p1, p2);
    SecondPieceExample(p2);
  }

  lemma FirstPieceExample(p1: string, p2: string)
    requires p1 == "foo=bar"
    ensures DecodePieces([], [p1, p2]) == DecodePieces([("foo", "bar")], [p2])
  {
    PieceExample(p1, "foo", "bar");
    PutAppends([], "foo", "bar");
    assert [p1, p2][1..] == [p2];
  }

  lemma SecondPieceExample(p2: string)
    requires p2 == "bar=foo"
    ensures DecodePieces([("foo", "bar")], [p2]) == [("foo", "bar"), ("bar", "foo")]
  {
    PieceExample(p2, "bar", "foo");
    var acc1: Assoc<string> := [("foo", "bar")];
    assert Keys(acc1) == ["foo"];
    PutAppends(acc1, "bar", "foo");
    assert [p2][1..] == [];
  }

  lemma SplitExample(raw: string)
    requires raw == "foo=bar&bar=foo"
    ensures Split(raw, '&') == [raw[..7], raw[8..]]
  {
    var p2 := raw[8..];
    assert '&' !in raw[..7];
    BeforeFirstAt(raw, '&', 7);
    assert '&' !in p2;
    BeforeFirstWhole(p2, '&');
  }

  lemma PieceExample(piece: string, key: string, value: string)
    requires |key| == 3 && '=' !in key && piece == key + "=" + value
    ensures BeforeFirst(piece, '=') == key && piece[|key| + 1..] == value
  {
    assert piece[..3] == key;
    BeforeFirstAt(piece, '=', 3);
  }

  /** Parsing a request whose body is `foo=bar&bar=foo` and whose parsed body
      is null sets the parsed body to that array and changes nothing else. */
  lemma ParseExample(request: ServerRequest)
    requires request.body == "foo=bar&bar=foo" && request.parsedBody == Null
    ensures Parse(DecodeForm, request)
         == request.(parsedBody := Arr([("foo", Str("bar")), ("bar", Str("foo"))]))
  {
    DecodeExample(request.body);
  }
}
