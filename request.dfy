/** The request descriptor the formatter reads, the wider request
    configuration the interceptor receives, and the two foreign services the
    formatter calls (`JSON.stringify` and the form-urlencoded encoder). */
module Request {
  import opened Js

  /** A header value as `Object.entries` yields it: `undefined`, or the
      text a template literal would print for it. */
  datatype HeaderValue = Absent | Present(text: string)

  datatype Header = Header(key: string, value: HeaderValue)

  /** The `auth` object of a request. */
  datatype Credentials = Credentials(username: string, password: string)

  /** The seven fields `generateCurlCommand` reads. `headers` is the list
      `Object.entries(headers)` produces, in its iteration order; a missing
      headers object is the empty list. */
  datatype CurlOptions = CurlOptions(
    url: string,
    httpMethod: string,
    headers: seq<Header>,
    params: Option<seq<(string, string)>>,
    data: Option<Json>,
    baseURL: Option<string>,
    auth: Option<Credentials>)

  /** The request configuration handed to an interceptor: the seven fields
      above and everything else the client carries (timeouts, adapters, ...),
      which the formatter never looks at. */
  datatype RequestConfig = RequestConfig(
    baseURL: Option<string>,
    httpMethod: string,
    headers: seq<Header>,
    data: Option<Json>,
    url: string,
    auth: Option<Credentials>,
    params: Option<seq<(string, string)>>,
    other: map<string, Json>)

  /** The descriptor the interceptor builds by copying exactly seven fields. */
  function ToCurlOptions(req: RequestConfig): (o: CurlOptions)
    ensures o.url == req.url && o.httpMethod == req.httpMethod && o.headers == req.headers
    ensures o.params == req.params && o.data == req.data && o.baseURL == req.baseURL && o.auth == req.auth
  {
    CurlOptions(req.url, req.httpMethod, req.headers, req.params, req.data, req.baseURL, req.auth)
  }

  /** A request configuration carrying the descriptor's seven fields and
      `other` for everything else. */
  function Reassemble(o: CurlOptions, other: map<string, Json>): (req: RequestConfig)
    ensures req.other == other
  {
    RequestConfig(o.baseURL, o.httpMethod, o.headers, o.data, o.url, o.auth, o.params, other)
  }

  /** The copy loses none of the seven fields and adds nothing: the request
      is its descriptor plus its other fields, and every descriptor is the
      copy of some request. */
  lemma ToCurlOptionsRoundTrip(req: RequestConfig, o: CurlOptions, other: map<string, Json>)
    ensures Reassemble(ToCurlOptions(req), req.other) == req
    ensures ToCurlOptions(Reassemble(o, other)) == o
  {
  }

  /** Nothing outside the seven fields reaches the descriptor. */
  lemma ToCurlOptionsIgnoresRest(req: RequestConfig, other: map<string, Json>)
    ensures ToCurlOptions(req.(other := other)) == ToCurlOptions(req)
  {
  }

  /** Foreign code the formatter calls: `JSON.stringify` for the body and the
      form-urlencoded byte encoder of one query name or value. */
  datatype Host = Host(stringify: Json -> string, formEncode: string -> string)

  /** The two builds of the formatter: `lib/index.ts` writes an empty value
      for every undefined header, `dist/index.js` writes `application/json`
      for an undefined Content-Type header. */
  datatype Variant = Lib | Dist
}
