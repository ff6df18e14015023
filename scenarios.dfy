/** The requests of the repository's test suites and the clauses each build
    prints for them; the command line is `"curl"` followed by those clauses
    rendered. The two suites disagree on an undefined Content-Type header:
    test/index.spec.js expects the lib output, test/index.spec.ts expects the
    dist output although it imports the lib build. */
module Scenarios {
  import opened Js
  import opened Ascii
  import opened Request
  import opened Curl
  import Interceptor

  const AcceptText: string := "application/json, text/plain, */*"
  const BerryUrl: string := "https://pokeapi.co/api/v2/berry-flavor/1"
  const BerryPath: string := "/berry-flavor/1"
  const PokeApi: string := "https://pokeapi.co/api/v2"
  const PostsUrl: string := "https://jsonplaceholder.typicode.com/posts"

  const AcceptAll: Header := Header("Accept", Present(AcceptText))
  const NoContentType: Header := Header("Content-Type", Absent)
  const Bearer: Header := Header("Authorization", Present("Bearer token..."))

  /** The body `{ userName: 'sample' }`. */
  const Sample: Json := JObject([("userName", JString("sample"))])

  /** A GET as the client hands it over: default Accept, undefined Content-Type. */
  function Get(url: string, params: Option<seq<(string, string)>>, baseURL: Option<string>, auth: Option<Credentials>): CurlOptions
  {
    CurlOptions(url, "get", [AcceptAll, NoContentType], params, None, baseURL, auth)
  }

  /** A POST of `Sample` with an explicit Content-Type and a bearer token. */
  function Post(contentType: string): CurlOptions
  {
    CurlOptions(PostsUrl, "post", [AcceptAll, Header("Content-Type", Present(contentType)), Bearer], None, Some(Sample), None, None)
  }

  /** The value each build writes for the undefined Content-Type. */
  function UndefinedContentType(variant: Variant): (v: string)
    ensures v == "" <==> variant == Lib
  {
    if variant == Lib then "" else DefaultContentType
  }

  lemma UpperVerbs()
    ensures ToUpper("get") == "GET"
    ensures ToUpper("post") == "POST"
  {
    assert ToUpper("get")[0] == 'G' && ToUpper("get")[1] == 'E' && ToUpper("get")[2] == 'T';
    assert ToUpper("post")[0] == 'P' && ToUpper("post")[1] == 'O' && ToUpper("post")[2] == 'S' && ToUpper("post")[3] == 'T';
  }

  lemma UndefinedContentTypeText(variant: Variant)
    ensures HeaderText(variant, NoContentType) == UndefinedContentType(variant)
  {
    if variant == Dist {
      ContentTypeLowerCase();
    }
  }

  lemma HeaderPair(variant: Variant, a: Header, b: Header)
    ensures HeaderClauses(variant, [a, b])
            == [HeaderLine(a.key, HeaderText(variant, a)), HeaderLine(b.key, HeaderText(variant, b))]
  {
  }

  lemma GetHeaders(variant: Variant)
    ensures HeaderClauses(variant, [AcceptAll, NoContentType])
            == [HeaderLine("Accept", AcceptText), HeaderLine("Content-Type", UndefinedContentType(variant))]
  {
    HeaderPair(variant, AcceptAll, NoContentType);
    UndefinedContentTypeText(variant);
  }

  /** Scenario [1]: `-X GET`, the Accept header, the undefined Content-Type. */
  lemma SimpleGet(variant: Variant, host: Host)
    ensures Plan(variant, host, Get(BerryUrl, None, None, None))
            == [Url(BerryUrl, None), Method("GET"), HeaderLine("Accept", AcceptText),
                HeaderLine("Content-Type", UndefinedContentType(variant))]
  {
    UpperVerbs();
    GetHeaders(variant);
    var o := Get(BerryUrl, None, None, None);
    assert Trailer(host, o) == [];
  }

  /** Scenario [2]: `params: { animal: 'berry' }` is appended after `?`. */
  lemma GetWithParams(variant: Variant, host: Host)
    requires host.formEncode("animal") == "animal" && host.formEncode("berry") == "berry"
    ensures Plan(variant, host, Get(BerryUrl, Some([("animal", "berry")]), None, None))
            == [Url(BerryUrl, Some("animal=berry")), Method("GET"), HeaderLine("Accept", AcceptText),
                HeaderLine("Content-Type", UndefinedContentType(variant))]
  {
    UpperVerbs();
    GetHeaders(variant);
    var o := Get(BerryUrl, Some([("animal", "berry")]), None, None);
    assert Query.EncodePairs(host.formEncode, [("animal", "berry")]) == ["animal" + "=" + "berry"];
    assert "animal" + "=" + "berry" == "animal=berry";
    assert Query.Serialize(host.formEncode, [("animal", "berry")]) == "animal=berry";
    assert Trailer(host, o) == [];
  }

  /** Scenario [3]: the credentials close the command as `--user 'berry:12345'`. */
  lemma GetWithAuth(variant: Variant, host: Host)
    ensures Plan(variant, host, Get(BerryUrl, None, None, Some(Credentials("berry", "12345"))))
            == [Url(BerryUrl, None), Method("GET"), HeaderLine("Accept", AcceptText),
                HeaderLine("Content-Type", UndefinedContentType(variant)), User("berry", "12345")]
  {
    UpperVerbs();
    GetHeaders(variant);
    var o := Get(BerryUrl, None, None, Some(Credentials("berry", "12345")));
    assert Trailer(host, o) == [User("berry", "12345")];
  }

  /** Scenarios [4] and [7]: an explicit Content-Type is written as given by
      both builds, and the body follows the headers as `--data-raw`. */
  lemma PostWithBody(variant: Variant, host: Host, contentType: string)
    requires host.stringify(Sample) == "{\"userName\":\"sample\"}"
    ensures Plan(variant, host, Post(contentType))
            == [Url(PostsUrl, None), Method("POST"), HeaderLine("Accept", AcceptText),
                HeaderLine("Content-Type", contentType), HeaderLine("Authorization", "Bearer token..."),
                DataRaw("{\"userName\":\"sample\"}")]
  {
    UpperVerbs();
    var o := Post(contentType);
    assert Trailer(host, o) == [DataRaw("{\"userName\":\"sample\"}")];
  }

  /** Scenario [5]: the base URL is written after the headers as `--url`,
      while the quoted URL stays the relative path. */
  lemma GetWithBaseUrl(variant: Variant, host: Host)
    ensures Plan(variant, host, Get(BerryPath, None, Some(PokeApi), None))
            == [Url(BerryPath, None), Method("GET"), HeaderLine("Accept", AcceptText),
                HeaderLine("Content-Type", UndefinedContentType(variant)), BaseUrl(PokeApi)]
  {
    UpperVerbs();
    GetHeaders(variant);
    var o := Get(BerryPath, None, Some(PokeApi), None);
    assert Trailer(host, o) == [BaseUrl(PokeApi)];
  }

  /** Scenario [6]: a client bound with `bindCurl` holds, after the request,
      the command of scenario [5] in its `curl` field. */
  method BoundClientWithBaseUrl(variant: Variant, host: Host, other: map<string, Json>) returns (curl: string)
    ensures curl == "curl" + RenderAll([Url(BerryPath, None), Method("GET"), HeaderLine("Accept", AcceptText),
                                        HeaderLine("Content-Type", UndefinedContentType(variant)), BaseUrl(PokeApi)])
  {
    var client := new Interceptor.AxiosCurl(variant, host);
    var req := RequestConfig(Some(PokeApi), "get", [AcceptAll, NoContentType], None, BerryPath, None, None, other);
    var _ := client.Intercept(req);
    curl := client.curl;
    assert ToCurlOptions(req) == Get(BerryPath, None, Some(PokeApi), None);
    GetWithBaseUrl(variant, host);
  }

  /** The two builds print different lines for scenario [1], where the
      suites' expected strings differ: the dist command is sixteen
      characters longer than the lib command. */
  lemma SuitesDisagree(host: Host)
    ensures |Command(Dist, host, Get(BerryUrl, None, None, None))|
            == |Command(Lib, host, Get(BerryUrl, None, None, None))| + |DefaultContentType|
    ensures Command(Lib, host, Get(BerryUrl, None, None, None)) != Command(Dist, host, Get(BerryUrl, None, None, None))
  {
    var o := Get(BerryUrl, None, None, None);
    var front := [Url(BerryUrl, None), Method("GET"), HeaderLine("Accept", AcceptText)];
    SimpleGet(Lib, host);
    SimpleGet(Dist, host);
    var lib, dist := HeaderLine("Content-Type", ""), HeaderLine("Content-Type", DefaultContentType);
    assert Plan(Lib, host, o) == front + [lib];
    assert Plan(Dist, host, o) == front + [dist];
    RenderAllAppend(front, [lib]);
    RenderAllAppend(front, [dist]);
    RenderOne(lib);
    RenderOne(dist);
  }
}
