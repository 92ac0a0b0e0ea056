/**
 * Response body deserialization: the content-type dispatch of
 * `Deserializer.DeserializeResponseInto`.
 *
 * The response body is modelled as already buffered (`Option<string>`, where
 * `None` is a null body) and the declared media type as `Option<string>`
 * (`None` when the response carries no Content-Type header). The JSON and XML
 * libraries are passed in as functions from the body text to an optional
 * object (`None` is a null result), so every property below holds whatever
 * those libraries do.
 */
module Deserialization {
  import opened Wrappers

  /** The parts of an `HttpResponseMessage` the deserializer looks at. */
  datatype HttpResponse = HttpResponse(body: Option<string>, mediaType: Option<string>)

  /** The exception type the deserializer raises itself. */
  datatype DeserializationException = DeserializationException(message: string)

  /** The C# `object` returned: a null, the empty string, or a decoded instance. */
  datatype Object<T> = Null | EmptyString | Instance(value: T)

  /** Which decoder a media type selects. */
  datatype Format = Json | Xml | Unsupported(mediaType: string)

  const NullBodyMessage: string := "Response content is null or empty."

  // ---------------------------------------------------------------------------
  // Ordinal substring search (`string.Contains(string)`)
  // ---------------------------------------------------------------------------

  /** `sub` occurs in `s` at some position (ordinal comparison). */
  predicate Contains(s: string, sub: string)
    decreases |s|
  {
    sub <= s || (|s| > 0 && Contains(s[1..], sub))
  }

  /** `Contains` agrees with the positional definition of a substring. */
  lemma {:induction false} ContainsAt(s: string, sub: string)
    ensures Contains(s, sub) <==> exists i :: 0 <= i <= |s| && sub <= s[i..]
  {
    if sub <= s {
      assert sub <= s[0..];
    } else if |s| == 0 {
      forall i | 0 <= i <= |s| ensures !(sub <= s[i..]) {
        assert s[i..] == s;
      }
    } else {
      ContainsAt(s[1..], sub);
      if Contains(s[1..], sub) {
        var i :| 0 <= i <= |s[1..]| && sub <= s[1..][i..];
        assert s[1..][i..] == s[i + 1..];
      }
      if i :| 0 <= i <= |s| && sub <= s[i..] {
        assert i != 0 by { assert s[0..] == s; }
        assert s[1..][i - 1..] == s[i..];
      }
    }
  }

  /** A string occurs in any string that has it as a prefix of one of its suffixes. */
  lemma {:induction false} ContainsFrom(s: string, sub: string, i: nat)
    requires i <= |s| && sub <= s[i..]
    ensures Contains(s, sub)
  {
    if i == 0 {
      assert s[0..] == s;
    } else {
      assert s[1..][i - 1..] == s[i..];
      ContainsFrom(s[1..], sub, i - 1);
    }
  }

  /** A string occurs in any string that has it as an infix. */
  lemma {:induction false} ContainsInfix(p: string, x: string, q: string)
    ensures Contains(p + x + q, x)
  {
    if p == [] {
      assert p + x + q == x + q;
    } else {
      ContainsInfix(p[1..], x, q);
      assert (p + x + q)[1..] == p[1..] + x + q;
    }
  }

  /** The message of the unsupported-media-type exception; it names the media type. */
  function UnsupportedMessage(mediaType: string): (msg: string)
    ensures Contains(msg, mediaType)
    ensures "Unable to deserialize response with Content-Type '" <= msg
  {
    var prefix := "Unable to deserialize response with Content-Type '";
    ContainsInfix(prefix, mediaType, "'");
    prefix + mediaType + "'"
  }

  // ---------------------------------------------------------------------------
  // Dispatch
  // ---------------------------------------------------------------------------

  /** The decoder selected by the declared media type: JSON is tested first. */
  function MediaTypeFormat(mediaType: Option<string>): (f: Format)
    ensures f.Unsupported? ==> mediaType == Some(f.mediaType)
  {
    match mediaType
    case None => Json
    case Some(mt) =>
      if Contains(mt, "json") then Json
      else if Contains(mt, "xml") then Xml
      else Unsupported(mt)
  }

  /**
   * `DeserializeResponseInto(response, type)`: a null body fails, then the
   * media type picks the JSON decoder (whose null result becomes the empty
   * string), the XML decoder, or a failure naming the media type.
   */
  function DeserializeResponseInto<T>(
    response: HttpResponse,
    jsonDecode: string -> Option<T>,
    xmlDecode: string -> Option<T>
  ): (r: Result<Object<T>, DeserializationException>)
    ensures response.body.None? ==> r == Failure(DeserializationException(NullBodyMessage))
    ensures r.Failure? <==>
      response.body.None? || MediaTypeFormat(response.mediaType).Unsupported?
    ensures r.Failure? && response.body.Some? ==>
      Contains(r.error.message, response.mediaType.value)
    ensures response.body.Some? && MediaTypeFormat(response.mediaType) == Json ==>
      r.Success? && r.value != Null
    ensures response.body.Some? && MediaTypeFormat(response.mediaType) == Xml ==>
      r.Success? && r.value != EmptyString
  {
    match response.body
    case None => Failure(DeserializationException(NullBodyMessage))
    case Some(text) =>
      match MediaTypeFormat(response.mediaType)
      case Json =>
        Success(match jsonDecode(text) case Some(v) => Instance(v) case None => EmptyString)
      case Xml =>
        Success(match xmlDecode(text) case Some(v) => Instance(v) case None => Null)
      case Unsupported(mt) =>
        Failure(DeserializationException(UnsupportedMessage(mt)))
  }

  // ---------------------------------------------------------------------------
  // Properties of the dispatch
  // ---------------------------------------------------------------------------

  /** An unlabelled response is decoded as JSON. */
  lemma AbsentMediaTypeIsJson<T>(body: string, jsonDecode: string -> Option<T>, xmlDecode: string -> Option<T>)
    ensures DeserializeResponseInto(HttpResponse(Some(body), None), jsonDecode, xmlDecode)
      == Success(if jsonDecode(body).Some? then Instance(jsonDecode(body).value) else EmptyString)
  {
  }

  /** A media type mentioning "json" is decoded as JSON, even if it also mentions "xml". */
  lemma JsonTestedBeforeXml<T>(body: string, mt: string, jsonDecode: string -> Option<T>, xmlDecode: string -> Option<T>)
    requires Contains(mt, "json")
    ensures MediaTypeFormat(Some(mt)) == Json
    ensures DeserializeResponseInto(HttpResponse(Some(body), Some(mt)), jsonDecode, xmlDecode)
      == Success(if jsonDecode(body).Some? then Instance(jsonDecode(body).value) else EmptyString)
  {
  }

  /** A media type mentioning "xml" but not "json" is decoded as XML. */
  lemma XmlWithoutJsonIsXml<T>(body: string, mt: string, jsonDecode: string -> Option<T>, xmlDecode: string -> Option<T>)
    requires Contains(mt, "xml") && !Contains(mt, "json")
    ensures MediaTypeFormat(Some(mt)) == Xml
    ensures DeserializeResponseInto(HttpResponse(Some(body), Some(mt)), jsonDecode, xmlDecode)
      == Success(if xmlDecode(body).Some? then Instance(xmlDecode(body).value) else Null)
  {
  }

  /** Any other declared media type fails, and the message names it. */
  lemma OtherMediaTypeFails<T>(body: string, mt: string, jsonDecode: string -> Option<T>, xmlDecode: string -> Option<T>)
    requires !Contains(mt, "xml") && !Contains(mt, "json")
    ensures var r := DeserializeResponseInto(HttpResponse(Some(body), Some(mt)), jsonDecode, xmlDecode);
      r.Failure? && Contains(r.error.message, mt)
  {
  }

  /** Only a null body is rejected: an empty body reaches the decoders. */
  lemma EmptyBodyIsDecoded<T>(mediaType: Option<string>, jsonDecode: string -> Option<T>, xmlDecode: string -> Option<T>)
    requires !MediaTypeFormat(mediaType).Unsupported?
    ensures DeserializeResponseInto(HttpResponse(Some(""), mediaType), jsonDecode, xmlDecode).Success?
  {
  }

  /** A string that lacks one of the characters of `sub` does not contain `sub`. */
  lemma {:induction false} MissingCharNotContained(s: string, sub: string, i: nat)
    requires i < |sub| && sub[i] !in s
    ensures !Contains(s, sub)
  {
    if |s| > 0 {
      assert forall c :: c in s[1..] ==> c in s;
      MissingCharNotContained(s[1..], sub, i);
    }
  }

  /** Vendor JSON types are matched by the substring test. */
  lemma VendorJsonIsJson(mt: string)
    requires mt == "application/vnd.api+json"
    ensures MediaTypeFormat(Some(mt)) == Json
  {
    ContainsFrom(mt, "json", 20);
  }

  /** "text/xml" is decoded as XML. */
  lemma TextXmlIsXml(mt: string)
    requires mt == "text/xml"
    ensures MediaTypeFormat(Some(mt)) == Xml
  {
    MissingCharNotContained(mt, "json", 0);
    ContainsFrom(mt, "xml", 5);
  }

  /** "text/plain" is neither JSON nor XML, so it is rejected. */
  lemma TextPlainIsUnsupported(mt: string)
    requires mt == "text/plain"
    ensures MediaTypeFormat(Some(mt)) == Unsupported(mt)
  {
    MissingCharNotContained(mt, "json", 0);
    MissingCharNotContained(mt, "xml", 1);
  }
}
