/** The JSON body-parsing strategy (src/BodyParams/JsonStrategy.php). The JSON
    decoder (`json_decode` with `json_last_error_msg`) is a parameter. */
module JsonStrategy {
  import opened Wrappers
  import opened PhpText
  import opened HttpMessage

  /** The decoder: the decoded value, or the decoder's error message. */
  type JsonDecoder = string -> Result<PhpValue, string>

  /** MalformedRequestBodyException: a message and the code 400. */
  datatype MalformedRequestBody = MalformedRequestBody(message: string, code: int)

  const RawBodyAttribute := "rawBody"
  const ErrorPrefix := "Error when parsing JSON request body: "
  const MalformedBodyCode := 400

  /** The media type: the text of the content type before its first `;`. */
  function MediaType(contentType: string): string {
    BeforeFirst(contentType, ';')
  }

  /** The pattern `[/+]json$` (PCRE, no modifiers). */
  predicate JsonSuffixPattern(s: string) {
    EndsWithBeforeFinalNewline(s, "/json") || EndsWithBeforeFinalNewline(s, "+json")
  }

  /** `match($contentType)`. */
  predicate Match(contentType: string) {
    JsonSuffixPattern(Trim(MediaType(contentType)))
  }

  /** The match holds exactly when the trimmed media type ends with `/json` or
      `+json`: trimming leaves no final newline for `$` to skip. */
  lemma MatchIff(contentType: string)
    ensures Match(contentType) <==>
      var m := Trim(MediaType(contentType));
      EndsWith(m, "/json") || EndsWith(m, "+json")
  {
  }

  /** Parameters after the first `;` never change the decision. */
  lemma ParametersIgnored(mediaType: string, parameters: string)
    ensures Match(mediaType + ";" + parameters) == Match(mediaType)
  {
    BeforeFirstOfJoin(mediaType, ';', parameters);
  }

  /** A content type without `;` or surrounding whitespace is matched on its
      own text. */
  lemma MatchPlain(contentType: string)
    requires ';' !in contentType
    requires contentType != [] && contentType[0] !in Whitespace
    requires contentType[|contentType| - 1] !in Whitespace
    ensures Match(contentType) <==> EndsWith(contentType, "/json") || EndsWith(contentType, "+json")
  {
    BeforeFirstWhole(contentType, ';');
    assert RTrim(contentType, Whitespace) == contentType;
    assert LTrim(contentType, Whitespace) == contentType;
    MatchIff(contentType);
  }

  // The content types the source rejects.

  /** `json` followed by more text is rejected. */
  lemma RejectsJsonXml(contentType: string)
    requires contentType == "application/json+xml"
    ensures !Match(contentType)
  {
    MatchPlain(contentType);
  }

  /** `json` not preceded by `/` or `+` is rejected. */
  lemma RejectsNotJson(contentType: string)
    requires contentType == "application/notjson"
    ensures !Match(contentType)
  {
    MatchPlain(contentType);
  }

  /** A type merely starting with `j` is rejected. */
  lemma RejectsJavascript(contentType: string)
    requires contentType == "text/javascript"
    ensures !Match(contentType)
  {
    MatchPlain(contentType);
  }

  /** Another media type is rejected. */
  lemma RejectsMultipart(contentType: string)
    requires contentType == "form/multipart"
    ensures !Match(contentType)
  {
    MatchPlain(contentType);
  }

  /** The form media type is rejected. */
  lemma RejectsFormUrlEncoded(contentType: string)
    requires contentType == "application/x-www-form-urlencoded"
    ensures !Match(contentType)
  {
    MatchPlain(contentType);
  }

  /** The plain JSON media type is accepted. */
  lemma AcceptsJson(contentType: string)
    requires contentType == "application/json"
    ensures Match(contentType)
  {
    assert contentType[|contentType| - 5..] == "/json";
    MatchPlain(contentType);
  }

  /** Structured-syntax `+json` suffixes are accepted. */
  lemma AcceptsVendorJson(contentType: string)
    requires contentType == "application/hal+json" || contentType == "application/vnd.resource.v2+json"
    ensures Match(contentType)
  {
    if contentType == "application/hal+json" {
      assert contentType[|contentType| - 5..] == "+json";
      MatchPlain(contentType);
    } else {
      assert contentType[|contentType| - 5..] == "+json";
      MatchPlain(contentType);
    }
  }

  /** Accepted by the source, although the project's tests list it as rejected. */
  lemma AcceptsEmptySuffixPrefix(contentType: string)
    requires contentType == "application/+json"
    ensures Match(contentType)
  {
    MatchPlain(contentType);
  }

  /** Accepted by the source, although the project's tests list it as rejected. */
  lemma AcceptsSpaceBeforeSuffix(contentType: string)
    requires contentType == "application/ +json"
    ensures Match(contentType)
  {
    assert contentType[|contentType| - 5..] == "+json";
    MatchPlain(contentType);
  }

  /** `parse($request)`. */
  function Parse(decode: JsonDecoder, request: ServerRequest): (r: Result<ServerRequest, MalformedRequestBody>)
    ensures r.Success? ==>
      && r.value.attributes == request.attributes[RawBodyAttribute := Str(request.body)]
      && r.value.queryParams == request.queryParams
      && r.value.body == request.body
    ensures IsEmpty(request.body) ==> r.Success? && r.value.parsedBody == Null
    ensures !IsEmpty(request.body) ==>
      match decode(request.body)
      case Failure(msg) => r == Failure(MalformedRequestBody(ErrorPrefix + msg, MalformedBodyCode))
      case Success(v) => r.Success? && r.value.parsedBody == v
  {
    var rawBody := request.body;
    if IsEmpty(rawBody) then
      Success(request.WithAttribute(RawBodyAttribute, Str(rawBody)).WithParsedBody(Null))
    else
      match decode(rawBody)
      case Failure(msg) => Failure(MalformedRequestBody(ErrorPrefix + msg, MalformedBodyCode))
      case Success(parsed) => Success(request.WithAttribute(RawBodyAttribute, Str(rawBody)).WithParsedBody(parsed))
  }

  /** An empty body (including "0") is never handed to the decoder: any two
      decoders give the same result. */
  lemma EmptyBodyNotDecoded(d1: JsonDecoder, d2: JsonDecoder, request: ServerRequest)
    requires IsEmpty(request.body)
    ensures Parse(d1, request) == Parse(d2, request)
  {
  }

  /** The source passes a decoded scalar through as the parsed body; the
      project's tests expect null instead. */
  lemma ScalarPassedThrough(request: ServerRequest)
    requires request.body == "1"
    ensures Parse(_ => Success(Int(1)), request).value.parsedBody == Int(1)
  {
  }
}
