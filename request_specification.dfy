/**
 * The fluent request builder `RequestSpecification`.
 *
 * The `HttpRequestMessage` the builder owns is flattened into the class: its
 * header store (`headers`), its Accept list (`accept`) and the method, URI
 * and content that `Send` fills in. Each builder method names in its
 * `modifies` clause the one field it changes, so every other field is
 * unchanged by construction. Library calls the builder makes are kept
 * symbolic: `QueryHelpers.AddQueryString` plus `new Uri` becomes the value
 * `WithQuery(endpoint, query)`, and `new StringContent` becomes a record.
 */
module RA {
  import opened Wrappers

  datatype HttpMethod = Get | Post | Put | Patch | Delete

  /** A character encoding, identified by its web name. */
  datatype Encoding = Encoding(webName: string)

  const UTF8: Encoding := Encoding("utf-8")
  const DefaultContentType: string := "application/json"

  /** The request URI: `endpoint` with the query parameters `query` added. */
  datatype Uri = WithQuery(endpoint: string, query: map<string, string>)

  /** `new StringContent(body, encoding, mediaType)`. */
  datatype StringContent = StringContent(body: string, encoding: Encoding, mediaType: string)

  /** The fully prepared request handed to the transport. */
  datatype HttpRequest = HttpRequest(
    verb: HttpMethod,
    uri: Uri,
    headers: map<string, seq<string>>,
    accept: seq<string>,
    content: StringContent)

  /**
   * `HttpHeaders.Add(key, values)`: the values are appended after any values
   * already stored under `key`; other keys are untouched. A new entry is
   * stored only when at least one value is added.
   */
  function AddHeaderValues(headers: map<string, seq<string>>, key: string, values: seq<string>)
    : (r: map<string, seq<string>>)
    ensures r.Keys == if values == [] then headers.Keys else headers.Keys + {key}
    ensures key in headers ==> r[key] == headers[key] + values
    ensures key !in headers && values != [] ==> r[key] == values
    ensures forall k :: k in headers && k != key ==> r[k] == headers[k]
  {
    if key !in headers && values == [] then headers
    else headers[key := (if key in headers then headers[key] else []) + values]
  }

  /** Adding values to a header in two calls is the same as adding them all in one call. */
  lemma AddHeaderValuesAccumulates(headers: map<string, seq<string>>, key: string, first: seq<string>, second: seq<string>)
    ensures AddHeaderValues(AddHeaderValues(headers, key, first), key, second)
      == AddHeaderValues(headers, key, first + second)
  {
    if key in headers {
      assert headers[key] + first + second == headers[key] + (first + second);
    }
  }

  class RequestSpecification {
    // State of the owned request message; `new HttpRequestMessage()` starts as a GET.
    var headers: map<string, seq<string>>
    var accept: seq<string>
    var requestMethod: HttpMethod
    var requestUri: Option<Uri>
    var content: Option<StringContent>

    // Builder state.
    var requestBody: string
    var contentTypeHeader: string
    var contentEncoding: Encoding
    var queryParams: map<string, string>
    var disposed: bool

    /** How many times the owned request message has been released. */
    ghost var releases: nat

    /** The request message is released exactly when the builder is disposed, and at most once. */
    ghost predicate Valid()
      reads this`disposed, this`releases
    {
      releases == if disposed then 1 else 0
    }

    constructor ()
      ensures Valid()
      ensures headers == map[] && accept == []
      ensures requestMethod == HttpMethod.Get && requestUri == None && content == None
      ensures requestBody == "" && contentTypeHeader == DefaultContentType && contentEncoding == UTF8
      ensures queryParams == map[] && !disposed
    {
      headers, accept := map[], [];
      requestMethod, requestUri, content := HttpMethod.Get, None, None;
      requestBody := "";
      contentTypeHeader := DefaultContentType;
      contentEncoding := UTF8;
      queryParams := map[];
      disposed := false;
      releases := 0;
    }

    /** `Header(key, value)`: appends one value to the header `key`. */
    method Header(key: string, value: string) returns (r: RequestSpecification)
      modifies this`headers
      ensures r == this
      ensures headers == AddHeaderValues(old(headers), key, [value])
    {
      headers := AddHeaderValues(headers, key, [value]);
      r := this;
    }

    /** `Header(key, values)`: appends all the values, in order, to the header `key`. */
    method HeaderValues(key: string, values: seq<string>) returns (r: RequestSpecification)
      modifies this`headers
      ensures r == this
      ensures headers == AddHeaderValues(old(headers), key, values)
    {
      headers := AddHeaderValues(headers, key, values);
      r := this;
    }

    /** `ContentType(contentType)`: the last call wins. */
    method ContentType(contentType: string) returns (r: RequestSpecification)
      modifies this`contentTypeHeader
      ensures r == this && contentTypeHeader == contentType
    {
      contentTypeHeader := contentType;
      r := this;
    }

    /** `ContentEncoding(encoding)`: the last call wins. */
    method ContentEncoding(encoding: Encoding) returns (r: RequestSpecification)
      modifies this`contentEncoding
      ensures r == this && contentEncoding == encoding
    {
      contentEncoding := encoding;
      r := this;
    }

    /** `Accept(accept)`: appends a media type to the Accept list; earlier ones stay. */
    method Accept(mediaType: string) returns (r: RequestSpecification)
      modifies this`accept
      ensures r == this
      ensures accept == old(accept) + [mediaType]
    {
      accept := accept + [mediaType];
      r := this;
    }

    /** `QueryParam(key, value)`: sets `key`, overwriting an earlier value; other keys keep theirs. */
    method QueryParam(key: string, value: string) returns (r: RequestSpecification)
      modifies this`queryParams
      ensures r == this
      ensures queryParams == old(queryParams)[key := value]
    {
      queryParams := queryParams[key := value];
      r := this;
    }

    /**
     * `QueryParams(queryParams)`: sets every entry of the dictionary, one at a
     * time in the dictionary's enumeration order, which is left unspecified.
     */
    method QueryParams(parameters: map<string, string>) returns (r: RequestSpecification)
      modifies this`queryParams
      ensures r == this
      ensures queryParams == old(queryParams) + parameters
    {
      var pending := parameters.Keys;
      while pending != {}
        invariant pending <= parameters.Keys
        invariant queryParams.Keys == old(queryParams).Keys + (parameters.Keys - pending)
        invariant forall k :: k in parameters && k !in pending ==> queryParams[k] == parameters[k]
        invariant forall k :: k in old(queryParams) && k !in parameters.Keys - pending ==>
          queryParams[k] == old(queryParams)[k]
        decreases pending
      {
        var k :| k in pending;
        queryParams := queryParams[k := parameters[k]];
        pending := pending - {k};
      }
      assert queryParams == old(queryParams) + parameters;
      r := this;
    }

    /** `Body(body)`: the last call wins. */
    method Body(body: string) returns (r: RequestSpecification)
      modifies this`requestBody
      ensures r == this && requestBody == body
    {
      requestBody := body;
      r := this;
    }

    /** `And()`: changes nothing. */
    method And() returns (r: RequestSpecification)
      ensures r == this
    {
      r := this;
    }

    /** `When()`: changes nothing. */
    method When() returns (r: RequestSpecification)
      ensures r == this
    {
      r := this;
    }

    /**
     * The part of `Send(httpMethod, endpoint)` before the transport call: sets
     * the method, the URI (endpoint plus the current query parameters) and the
     * content (current body, encoding and content type), and returns the
     * request as it is handed to the transport. The builder state is kept, so
     * a later send uses it again.
     */
    method Send(httpMethod: HttpMethod, endpoint: string) returns (sent: HttpRequest)
      modifies this`requestMethod, this`requestUri, this`content
      ensures requestMethod == httpMethod
      ensures requestUri == Some(WithQuery(endpoint, queryParams))
      ensures content == Some(StringContent(requestBody, contentEncoding, contentTypeHeader))
      ensures sent == HttpRequest(httpMethod, requestUri.value, headers, accept, content.value)
    {
      requestMethod := httpMethod;
      var uri := WithQuery(endpoint, queryParams);
      requestUri := Some(uri);
      var body := StringContent(requestBody, contentEncoding, contentTypeHeader);
      content := Some(body);
      sent := HttpRequest(httpMethod, uri, headers, accept, body);
    }

    method Get(endpoint: string) returns (sent: HttpRequest)
      modifies this`requestMethod, this`requestUri, this`content
      ensures sent.verb == HttpMethod.Get && requestMethod == HttpMethod.Get
      ensures sent.uri == WithQuery(endpoint, queryParams) && requestUri == Some(sent.uri)
      ensures sent.content == StringContent(requestBody, contentEncoding, contentTypeHeader)
      ensures content == Some(sent.content)
      ensures sent.headers == headers && sent.accept == accept
    {
      sent := Send(HttpMethod.Get, endpoint);
    }

    method Post(endpoint: string) returns (sent: HttpRequest)
      modifies this`requestMethod, this`requestUri, this`content
      ensures sent.verb == HttpMethod.Post && requestMethod == HttpMethod.Post
      ensures sent.uri == WithQuery(endpoint, queryParams) && requestUri == Some(sent.uri)
      ensures sent.content == StringContent(requestBody, contentEncoding, contentTypeHeader)
      ensures content == Some(sent.content)
      ensures sent.headers == headers && sent.accept == accept
    {
      sent := Send(HttpMethod.Post, endpoint);
    }

    method Put(endpoint: string) returns (sent: HttpRequest)
      modifies this`requestMethod, this`requestUri, this`content
      ensures sent.verb == HttpMethod.Put && requestMethod == HttpMethod.Put
      ensures sent.uri == WithQuery(endpoint, queryParams) && requestUri == Some(sent.uri)
      ensures sent.content == StringContent(requestBody, contentEncoding, contentTypeHeader)
      ensures content == Some(sent.content)
      ensures sent.headers == headers && sent.accept == accept
    {
      sent := Send(HttpMethod.Put, endpoint);
    }

    method Patch(endpoint: string) returns (sent: HttpRequest)
      modifies this`requestMethod, this`requestUri, this`content
      ensures sent.verb == HttpMethod.Patch && requestMethod == HttpMethod.Patch
      ensures sent.uri == WithQuery(endpoint, queryParams) && requestUri == Some(sent.uri)
      ensures sent.content == StringContent(requestBody, contentEncoding, contentTypeHeader)
      ensures content == Some(sent.content)
      ensures sent.headers == headers && sent.accept == accept
    {
      sent := Send(HttpMethod.Patch, endpoint);
    }

    method Delete(endpoint: string) returns (sent: HttpRequest)
      modifies this`requestMethod, this`requestUri, this`content
      ensures sent.verb == HttpMethod.Delete && requestMethod == HttpMethod.Delete
      ensures sent.uri == WithQuery(endpoint, queryParams) && requestUri == Some(sent.uri)
      ensures sent.content == StringContent(requestBody, contentEncoding, contentTypeHeader)
      ensures content == Some(sent.content)
      ensures sent.headers == headers && sent.accept == accept
    {
      sent := Send(HttpMethod.Delete, endpoint);
    }

    /** `Dispose()`: releases the request message unless that was already done. */
    method Dispose()
      requires Valid()
      modifies this`disposed, this`releases
      ensures Valid() && disposed
      ensures releases == old(releases) + (if old(disposed) then 0 else 1)
    {
      DisposeCore(true);
    }

    /** `Dispose(disposing)`: guarded by the `disposed` flag; `disposing` is not consulted. */
    method DisposeCore(disposing: bool)
      requires Valid()
      modifies this`disposed, this`releases
      ensures Valid() && disposed
      ensures releases == old(releases) + (if old(disposed) then 0 else 1)
    {
      if disposed {
        return;
      }
      releases := releases + 1;
      disposed := true;
    }
  }

  /** A fluent chain as a test would write it: a repeated query parameter keeps its last value. */
  method QueryParamChain() returns (sent: HttpRequest)
    ensures sent.verb == Get
    ensures sent.uri == WithQuery("http://localhost:9876/posts", map["page" := "2", "size" := "10"])
    ensures sent.headers == map[] && sent.accept == []
    ensures sent.content == StringContent("", UTF8, DefaultContentType)
  {
    var spec := new RequestSpecification();
    var s := spec.QueryParam("page", "1");
    s := s.And();
    s := s.QueryParams(map["page" := "2", "size" := "10"]);
    assert spec.queryParams.Keys == {"page", "size"};
    s := s.When();
    sent := s.Get("http://localhost:9876/posts");
  }

  /** Repeated headers and Accept values accumulate in call order. */
  method HeaderChain() returns (sent: HttpRequest)
    ensures sent.verb == Delete
    ensures sent.headers == map["X-Trace" := ["a", "b", "c"]]
    ensures sent.accept == ["application/json", "text/xml"]
  {
    var spec := new RequestSpecification();
    var s := spec.Header("X-Trace", "a");
    assert spec.headers == map["X-Trace" := ["a"]];
    s := s.HeaderValues("X-Trace", ["b", "c"]);
    assert ["a"] + ["b", "c"] == ["a", "b", "c"];
    s := s.Accept("application/json");
    s := s.And();
    s := s.Accept("text/xml");
    s := s.When();
    sent := s.Delete("http://localhost:9876/posts/1");
  }

  /** Body, content type and encoding: the last call of each wins. */
  method BodyChain() returns (sent: HttpRequest)
    ensures sent.verb == Put
    ensures sent.uri == WithQuery("http://localhost:9876/posts/1", map[])
    ensures sent.content == StringContent("<id>2</id>", Encoding("us-ascii"), "application/xml")
  {
    var spec := new RequestSpecification();
    var s := spec.Body("{\"id\":1}");
    s := s.ContentType("text/plain");
    s := s.ContentEncoding(Encoding("utf-16"));
    s := s.And();
    s := s.Body("<id>2</id>");
    s := s.ContentType("application/xml");
    s := s.ContentEncoding(Encoding("us-ascii"));
    s := s.When();
    sent := s.Put("http://localhost:9876/posts/1");
  }

  /** Disposing twice releases the request message exactly once, from any valid state. */
  method DisposeTwice(spec: RequestSpecification)
    requires spec.Valid()
    modifies spec`disposed, spec`releases
    ensures spec.Valid() && spec.disposed && spec.releases == 1
  {
    spec.Dispose();
    spec.Dispose();
  }
}
