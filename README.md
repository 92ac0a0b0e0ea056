# RestAssured.Net request builder and response deserializer, in Dafny

This project models two parts of RestAssured.Net, a fluent HTTP testing library for .NET:

- **`RequestSpecification`** (`request_specification.dfy`, module `RA`). This is the mutable fluent builder a test uses to put together one HTTP request. It accumulates headers and Accept values. It overwrites the query parameters key by key. The body, the content type and the character encoding are overwritten, so the last call wins. On `Get`/`Post`/`Put`/`Patch`/`Delete` it sets the HTTP method, the request URI and the content of the request message it owns, then hands that message to the transport. It releases the message at most once, and only through `Dispose`.
  The model is a Dafny class. Every builder method names the one field it changes in a field-level `modifies` clause (`modifies this`queryParams`), so every other field provably stays the same. Every builder method also returns the same instance. The ghost field `releases` counts how often the owned request message was released. The invariant `Valid()` ties that count to the `disposed` flag, so the message is released at most once.
- **`Deserializer.DeserializeResponseInto`** (`deserializer.dfy`, module `Deserialization`). This is a pure decision over the buffered response body and its declared media type:
  1. A null body fails with "Response content is null or empty.".
  2. A media type that is absent or contains `"json"` goes to the JSON decoder. A null result from that decoder becomes the empty string.
  3. Otherwise, a media type that contains `"xml"` goes to the XML decoder.
  4. Anything else fails with a message that names the media type.

  Substring tests are ordinal, as in `string.Contains(string)`. The predicate `Contains` gives them meaning. `ContainsAt` proves that `Contains` agrees with the positional definition.

`wrappers.dfy` holds the `Option` and `Result` datatypes that both modules use.

Library calls that the builder makes are kept symbolic:
- `QueryHelpers.AddQueryString(endpoint, queryParams)` followed by `new Uri(...)` becomes the value `WithQuery(endpoint, query)`.
- `new StringContent(body, encoding, mediaType)` becomes a record of its three arguments.
- An `Encoding` is identified by its web name. The default is `UTF8`, whose web name is `utf-8`.

The JSON and XML decoders are function parameters of type `string -> Option<T>`, where `None` is a null result. So every property of the dispatch holds whatever those libraries return.

The model follows what the code does where its own text suggests otherwise:
- The doc comment of `Accept` (RestAssuredNet/RA/RequestSpecification.cs:89) says it sets the value of the Accept header. The code at line 95 appends to the Accept list, so earlier values stay.
- The exception message at RestAssured.Net/Response/Deserialization/Deserializer.cs:43 says "null or empty". The test at line 41 rejects only a null body. An empty body `""` reaches the decoders (`EmptyBodyIsDecoded`). With the JSON decoder it may come back as the empty string.

## Model

| member | source | states |
|---|---|---|
| RA.RequestSpecification.constructor | RestAssuredNet/RA/RequestSpecification.cs:28-40 | A fresh specification has no headers and no Accept values, body `""`, content type `application/json`, UTF-8 encoding, no query parameters, is not disposed, and its request message has the GET method and no URI or content yet |
| RA.AddHeaderValues | RestAssuredNet/RA/RequestSpecification.cs:48-64 | Adding header values keeps every earlier value of that key as a prefix, appends the new values after them, creates the key if it was missing and at least one value is added, and leaves every other key unchanged |
| RA.AddHeaderValuesAccumulates | RestAssuredNet/RA/RequestSpecification.cs:48-64 | Two successive additions to one header equal a single addition of the concatenated values, so repeated `Header` calls accumulate in call order |
| RA.RequestSpecification.Header | RestAssuredNet/RA/RequestSpecification.cs:48-52 | Appends one value to header `key`, changes only the header store, and returns the same instance |
| RA.RequestSpecification.HeaderValues | RestAssuredNet/RA/RequestSpecification.cs:60-64 | Appends all the given values, in order, to header `key`, changes only the header store, and returns the same instance |
| RA.RequestSpecification.ContentType | RestAssuredNet/RA/RequestSpecification.cs:71-75 | Overwrites the content type (the last call wins), changes nothing else, and returns the same instance |
| RA.RequestSpecification.ContentEncoding | RestAssuredNet/RA/RequestSpecification.cs:82-86 | Overwrites the encoding (the last call wins), changes nothing else, and returns the same instance |
| RA.RequestSpecification.Accept | RestAssuredNet/RA/RequestSpecification.cs:93-97 | Appends the media type to the Accept list, keeps the earlier entries, changes nothing else, and returns the same instance |
| RA.RequestSpecification.QueryParam | RestAssuredNet/RA/RequestSpecification.cs:105-109 | The new query map is the old one with `key` set to `value`: an earlier value for `key` is overwritten and every other key is unchanged |
| RA.RequestSpecification.QueryParams | RestAssuredNet/RA/RequestSpecification.cs:116-120 | After setting each entry in some enumeration order, the query map is the old map overridden by the argument: its keys take the argument's values and all other keys keep theirs |
| RA.RequestSpecification.Body | RestAssuredNet/RA/RequestSpecification.cs:127-131 | Overwrites the body (the last call wins), changes nothing else, and returns the same instance |
| RA.RequestSpecification.And | RestAssuredNet/RA/RequestSpecification.cs:137-140 | Returns the same instance and has no frame, so it changes no state |
| RA.RequestSpecification.When | RestAssuredNet/RA/RequestSpecification.cs:146-149 | Returns the same instance and has no frame, so it changes no state |
| RA.RequestSpecification.Send | RestAssuredNet/RA/RequestSpecification.cs:234-244 | Sets the method, sets the URI to the endpoint merged with the current query map, sets the content from the current body, encoding and content type, and returns that prepared request; the builder state is kept |
| RA.RequestSpecification.Get | RestAssuredNet/RA/RequestSpecification.cs:156-159 | Sends with the GET method, the current query map, headers, Accept list, body, encoding and content type |
| RA.RequestSpecification.Post | RestAssuredNet/RA/RequestSpecification.cs:166-169 | Sends with the POST method and the current builder state |
| RA.RequestSpecification.Put | RestAssuredNet/RA/RequestSpecification.cs:176-179 | Sends with the PUT method and the current builder state |
| RA.RequestSpecification.Patch | RestAssuredNet/RA/RequestSpecification.cs:186-189 | Sends with the PATCH method and the current builder state |
| RA.RequestSpecification.Delete | RestAssuredNet/RA/RequestSpecification.cs:196-199 | Sends with the DELETE method and the current builder state |
| RA.RequestSpecification.Dispose | RestAssuredNet/RA/RequestSpecification.cs:204-211 | Leaves the specification disposed, releases the request message once if it was not yet disposed and not at all otherwise, and keeps the release count at most one |
| RA.RequestSpecification.DisposeCore | RestAssuredNet/RA/RequestSpecification.cs:217-226 | Returns at once when already disposed; otherwise releases the request message and sets the flag |
| RA.DisposeTwice | RestAssuredNet/RA/RequestSpecification.cs:204-226 | From any valid state, disposing twice leaves the request message released exactly once |
| RA.QueryParamChain | RestAssuredNet/RA/RequestSpecification.cs:105-159 | In a chain `QueryParam("page","1").And().QueryParams({page:2,size:10}).When().Get(e)`, the sent URI carries `page=2` and `size=10`, with the default body, encoding and content type |
| RA.HeaderChain | RestAssuredNet/RA/RequestSpecification.cs:48-97 | In a chain of two header calls and two `Accept` calls, the sent request carries all three header values and both Accept values, in call order |
| RA.BodyChain | RestAssuredNet/RA/RequestSpecification.cs:71-131 | When body, content type and encoding are each set twice, the sent content uses the second value of each |
| Deserialization.ContainsAt | RestAssured.Net/Response/Deserialization/Deserializer.cs:49-53 | The substring test used for dispatch holds exactly when the media type has the searched string at some position |
| Deserialization.UnsupportedMessage | RestAssured.Net/Response/Deserialization/Deserializer.cs:63 | The unsupported-type message starts with "Unable to deserialize response with Content-Type '" and contains the media type |
| Deserialization.MediaTypeFormat | RestAssured.Net/Response/Deserialization/Deserializer.cs:47-53 | Only a present media type can be unsupported, and the unsupported outcome carries exactly that media type |
| Deserialization.DeserializeResponseInto | RestAssured.Net/Response/Deserialization/Deserializer.cs:37-65 | A null body fails with "Response content is null or empty."; the result fails exactly when the body is null or the media type is unsupported; such a failure names the media type; the JSON path never returns null; the XML path never returns the empty-string fallback |
| Deserialization.AbsentMediaTypeIsJson | RestAssured.Net/Response/Deserialization/Deserializer.cs:47-52 | With no media type, the JSON decoder's result is returned, and a null result becomes the empty string |
| Deserialization.JsonTestedBeforeXml | RestAssured.Net/Response/Deserialization/Deserializer.cs:49-53 | A media type containing "json" is decoded as JSON even when it also contains "xml" |
| Deserialization.XmlWithoutJsonIsXml | RestAssured.Net/Response/Deserialization/Deserializer.cs:53-59 | A media type containing "xml" but not "json" is decoded by the XML decoder, and its result is returned as it is |
| Deserialization.OtherMediaTypeFails | RestAssured.Net/Response/Deserialization/Deserializer.cs:61-64 | A media type containing neither "json" nor "xml" fails with a message that contains the media type |
| Deserialization.EmptyBodyIsDecoded | RestAssured.Net/Response/Deserialization/Deserializer.cs:41-52 | Only a null body is rejected: an empty body with a JSON or XML media type is decoded successfully |
| Deserialization.VendorJsonIsJson | RestAssured.Net/Response/Deserialization/Deserializer.cs:49-52 | `application/vnd.api+json` is decoded as JSON |
| Deserialization.TextXmlIsXml | RestAssured.Net/Response/Deserialization/Deserializer.cs:53-59 | `text/xml` is decoded as XML |
| Deserialization.TextPlainIsUnsupported | RestAssured.Net/Response/Deserialization/Deserializer.cs:61-64 | `text/plain` is rejected as unsupported |

## Left out

- The transport call and the blocking wait (`HttpRequestProcessor.Send(...)` and `task.Result`, RequestSpecification.cs:247-248) are network I/O. `Send` returns the prepared request instead of a response.
- Send: the URI value `WithQuery(endpoint, query)` does not capture the order of the query parameters. `QueryHelpers.AddQueryString` writes them in the dictionary's enumeration order, which is in practice insertion order, so two chains that set the same parameters in different orders send different URLs but get equal URIs in the model.
- Send: `WithQuery` is injective, but `AddQueryString` is not. For example, endpoint `h?a=1` with no parameters and endpoint `h` with `a=1` give the same URL but different URIs in the model.
- URL encoding by `QueryHelpers.AddQueryString` and parsing by `new Uri(...)` are kept symbolic as `WithQuery(endpoint, query)`. Because of this, a malformed endpoint, which makes `new Uri` throw after the method has been set, is not modelled.
- `HttpHeaders.Add` validation is not modelled, and every header add succeeds. This covers invalid names, content headers added to request headers, and single-value headers added twice.
- Header names are compared exactly. .NET compares header names case-insensitively.
- The Accept list is kept apart from the header map. In .NET both live in the same header store. Parsing by `MediaTypeWithQualityHeaderValue`, which throws on a malformed media type, is not modelled.
- `StringContent` and `Encoding` are values. The exception `StringContent` throws on an invalid media type is not modelled.
- `object` arguments are modelled as the strings that `ToString()` returns. Null arguments, which C# strings and objects allow, are not modelled.
- The library behaviour of sending after `Dispose`, when the request message has already been released, is not modelled.
- `GC.SuppressFinalize` (RequestSpecification.cs:210) is runtime memory management. Only the ghost release count stays.
- `ReadAsStringAsync().Result` is asynchronous stream I/O. The body is modelled as an already-buffered `Option<string>`.
- The JSON and XML decoders are total function parameters. Exceptions thrown by `JsonConvert.DeserializeObject` or `XmlSerializer.Deserialize` on malformed input are not modelled.
- Multipart bodies, serializer settings and the reusable `Spec` are not part of this model. RequestSpecification.cs has no multipart or serializer-settings members.
