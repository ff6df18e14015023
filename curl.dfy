/** `generateCurlCommand`: a request descriptor becomes a `curl` command
    line. The method below grows one accumulator as the source does; `Plan`
    is its declarative specification, the list of clauses that are emitted,
    and `Command` renders that list. */
module Curl {
  import opened Js
  import opened Ascii
  import opened Request
  import Query

  /** One clause of the command line, with its text already resolved. */
  datatype Clause =
    | Url(url: string, query: Option<string>)
    | Method(verb: string)
    | HeaderLine(key: string, value: string)
    | BaseUrl(baseURL: string)
    | DataRaw(json: string)
    | User(username: string, password: string)

  /** The text a clause contributes, leading space included. Nothing is
      escaped: a single quote inside a field closes the quoting early. */
  function Render(c: Clause): (r: string)
    ensures |r| >= 3 && r[0] == ' '
    ensures !c.Method? ==> r[|r| - 1] == '\''
  {
    match c
    case Url(u, None) => " '" + u + "'"
    case Url(u, Some(q)) => " '" + u + "?" + q + "'"
    case Method(m) => " -X " + m
    case HeaderLine(k, v) => " -H '" + k + ": " + v + "'"
    case BaseUrl(b) => " --url '" + b + "'"
    case DataRaw(j) => " --data-raw '" + j + "'"
    case User(u, p) => " --user '" + u + ":" + p + "'"
  }

  function RenderAll(cs: seq<Clause>): (r: string)
    ensures |r| >= |cs|
  {
    if cs == [] then "" else Render(cs[0]) + RenderAll(cs[1..])
  }

  const DefaultContentType: string := "application/json"

  /** The value written for one header entry. */
  function HeaderText(variant: Variant, h: Header): (r: string)
    ensures h.value.Present? ==> r == h.value.text
    ensures h.value.Absent? ==> r == "" || r == DefaultContentType
    ensures h.value.Absent? && variant == Lib ==> r == ""
  {
    match h.value
    case Present(text) => text
    case Absent =>
      if variant == Dist && ToLower(h.key) == "content-type" then DefaultContentType else ""
  }

  /** One header clause per entry, in entry order. */
  function HeaderClauses(variant: Variant, hs: seq<Header>): (cs: seq<Clause>)
    ensures |cs| == |hs|
  {
    seq(|hs|, i requires 0 <= i < |hs| => HeaderLine(hs[i].key, HeaderText(variant, hs[i])))
  }

  /** The URL clause: `params` is tested for presence only, so an empty
      parameter object still yields `url?`. */
  function UrlClause(host: Host, o: CurlOptions): (c: Clause)
    ensures c.Url? && c.url == o.url
    ensures c.query.Some? <==> o.params.Some?
  {
    match o.params
    case None => Url(o.url, None)
    case Some(ps) => Url(o.url, Some(Query.Serialize(host.formEncode, ps)))
  }

  /** The `--user` clause is written only when both credentials are non-empty. */
  predicate EmitsUser(o: CurlOptions)
  {
    o.auth.Some? && o.auth.value.username != "" && o.auth.value.password != ""
  }

  function BaseUrlPart(o: CurlOptions): (b: seq<Clause>)
  {
    if TruthyString(o.baseURL) then [BaseUrl(o.baseURL.value)] else []
  }

  function DataPart(host: Host, o: CurlOptions): (d: seq<Clause>)
  {
    if Truthy(o.data) then [DataRaw(host.stringify(o.data.value))] else []
  }

  function UserPart(o: CurlOptions): (u: seq<Clause>)
  {
    if EmitsUser(o) then [User(o.auth.value.username, o.auth.value.password)] else []
  }

  /** The optional clauses after the headers, in their fixed order. */
  function Trailer(host: Host, o: CurlOptions): (t: seq<Clause>)
    ensures |t| <= 3
  {
    BaseUrlPart(o) + DataPart(host, o) + UserPart(o)
  }

  /** The clauses emitted for `o`, in emission order. */
  function Plan(variant: Variant, host: Host, o: CurlOptions): (p: seq<Clause>)
    ensures |p| == 2 + |o.headers| + |Trailer(host, o)|
  {
    [UrlClause(host, o), Method(ToUpper(o.httpMethod))]
    + HeaderClauses(variant, o.headers)
    + Trailer(host, o)
  }

  /** The command line for `o`. */
  function Command(variant: Variant, host: Host, o: CurlOptions): (r: string)
    ensures "curl" <= r
  {
    "curl" + RenderAll(Plan(variant, host, o))
  }

  lemma {:induction false} RenderAllAppend(a: seq<Clause>, b: seq<Clause>)
    ensures RenderAll(a + b) == RenderAll(a) + RenderAll(b)
  {
    if a == [] {
      assert a + b == b;
    } else {
      assert (a + b)[1..] == a[1..] + b;
      RenderAllAppend(a[1..], b);
    }
  }

  lemma RenderOne(c: Clause)
    ensures RenderAll([c]) == Render(c)
  {
    assert [c][1..] == [];
  }

  /** Formatting `hs + [h]` is formatting `hs` followed by `h`'s clause. */
  lemma HeaderClausesSnoc(variant: Variant, hs: seq<Header>, h: Header)
    ensures RenderAll(HeaderClauses(variant, hs + [h]))
            == RenderAll(HeaderClauses(variant, hs)) + Render(HeaderLine(h.key, HeaderText(variant, h)))
  {
    var c := HeaderLine(h.key, HeaderText(variant, h));
    assert HeaderClauses(variant, hs + [h]) == HeaderClauses(variant, hs) + [c];
    RenderAllAppend(HeaderClauses(variant, hs), [c]);
  }

  /** The header clause texts the source writes for an undefined value. */
  lemma DefaultHeaderTexts(key: string)
    ensures Render(HeaderLine(key, DefaultContentType)) == " -H '" + key + ": application/json'"
    ensures Render(HeaderLine(key, "")) == " -H '" + key + ": '"
  {
    var p := " -H '" + key;
    assert p + ": " + DefaultContentType + "'" == p + ": application/json'";
    assert p + ": " + "" + "'" == p + ": '";
  }

  /** The command as the accumulator builds it: one append per clause group. */
  lemma CommandChain(variant: Variant, host: Host, o: CurlOptions)
    ensures Command(variant, host, o)
            == "curl" + Render(UrlClause(host, o)) + Render(Method(ToUpper(o.httpMethod)))
               + RenderAll(HeaderClauses(variant, o.headers))
               + RenderAll(BaseUrlPart(o)) + RenderAll(DataPart(host, o)) + RenderAll(UserPart(o))
  {
    var front := [UrlClause(host, o), Method(ToUpper(o.httpMethod))];
    var hc := HeaderClauses(variant, o.headers);
    var b, d, u := BaseUrlPart(o), DataPart(host, o), UserPart(o);
    var r0, r1, rh := Render(front[0]), Render(front[1]), RenderAll(hc);
    var rb, rd, ru := RenderAll(b), RenderAll(d), RenderAll(u);
    assert RenderAll(front) == r0 + r1 by {
      assert front == [front[0]] + [front[1]];
      RenderAllAppend([front[0]], [front[1]]);
      RenderOne(front[0]);
      RenderOne(front[1]);
    }
    calc {
      Command(variant, host, o);
      "curl" + RenderAll((front + hc) + Trailer(host, o));
      { RenderAllAppend(front + hc, Trailer(host, o)); }
      "curl" + (RenderAll(front + hc) + RenderAll((b + d) + u));
      { RenderAllAppend(front, hc); RenderAllAppend(b + d, u); RenderAllAppend(b, d); }
      "curl" + ((r0 + r1 + rh) + (rb + rd + ru));
      { AppendAssoc(r0 + r1 + rh, rb + rd, ru);
        AppendAssoc(r0 + r1 + rh, rb, rd);
        AppendAssoc("curl", r0 + r1 + rh + rb + rd, ru);
        AppendAssoc("curl", r0 + r1 + rh + rb, rd);
        AppendAssoc("curl", r0 + r1 + rh, rb);
        AppendAssoc("curl", r0 + r1, rh);
        AppendAssoc("curl", r0, r1); }
      "curl" + r0 + r1 + rh + rb + rd + ru;
    }
  }

  /** An optional clause group that is emitted: the line grows by its clause. */
  lemma OneClause(before: string, after: string, cs: seq<Clause>)
    requires |cs| == 1 && after == before + Render(cs[0])
    ensures after == before + RenderAll(cs)
  {
    assert cs == [cs[0]];
    RenderOne(cs[0]);
  }

  /** An optional clause group that is skipped: the line is unchanged. */
  lemma NoClause(before: string, after: string, cs: seq<Clause>)
    requires cs == [] && after == before
    ensures after == before + RenderAll(cs)
  {
    assert before + "" == before;
  }

  lemma AppendAssoc(a: string, b: string, c: string)
    ensures a + b + c == a + (b + c)
  {
  }

  /** One more entry formatted: the prefix grows by that entry's clause. */
  lemma HeaderStep(variant: Variant, prefix: string, entries: seq<Header>, i: nat)
    requires i < |entries|
    ensures prefix + RenderAll(HeaderClauses(variant, entries[..i]))
              + Render(HeaderLine(entries[i].key, HeaderText(variant, entries[i])))
            == prefix + RenderAll(HeaderClauses(variant, entries[..i + 1]))
  {
    assert entries[..i + 1] == entries[..i] + [entries[i]];
    HeaderClausesSnoc(variant, entries[..i], entries[i]);
    AppendAssoc(prefix, RenderAll(HeaderClauses(variant, entries[..i])),
                Render(HeaderLine(entries[i].key, HeaderText(variant, entries[i]))));
  }

  /** The `for` loop over `Object.entries(options.headers)`: one ` -H` clause
      per entry, appended in entry order. */
  method AppendHeaders(variant: Variant, curlCommand: string, entries: seq<Header>)
    returns (result: string)
    ensures result == curlCommand + RenderAll(HeaderClauses(variant, entries))
  {
    result := curlCommand;
    for i := 0 to |entries|
      invariant result == curlCommand + RenderAll(HeaderClauses(variant, entries[..i]))
    {
      var key, value := entries[i].key, entries[i].value;
      DefaultHeaderTexts(key);
      ghost var before := result;
      ghost var clause := Render(HeaderLine(key, HeaderText(variant, entries[i])));
      if value.Present? {
        result := result + (" -H '" + key + ": " + value.text + "'");
        assert result == before + clause;
      } else if variant == Dist && ToLower(key) == "content-type" {
        result := result + (" -H '" + key + ": application/json'");
        assert result == before + clause;
      } else {
        result := result + (" -H '" + key + ": '");
        assert result == before + clause;
      }
      HeaderStep(variant, curlCommand, entries, i);
    }
    assert entries[..|entries|] == entries;
  }

  /** `generateCurlCommand` (lib/index.ts when `variant == Lib`,
      dist/index.js when `variant == Dist`). */
  method GenerateCurlCommand(variant: Variant, host: Host, options: CurlOptions)
    returns (curlCommand: string)
    ensures curlCommand == Command(variant, host, options)
  {
    curlCommand := "curl";

    if options.params.Some? {
      var params := Query.Serialize(host.formEncode, options.params.value);
      curlCommand := curlCommand + (" '" + options.url + "?" + params + "'");
    } else {
      curlCommand := curlCommand + (" '" + options.url + "'");
    }

    curlCommand := curlCommand + (" -X " + ToUpper(options.httpMethod));
    ghost var opening := curlCommand;
    assert opening == "curl" + Render(UrlClause(host, options)) + Render(Method(ToUpper(options.httpMethod)));

    curlCommand := AppendHeaders(variant, curlCommand, options.headers);

    ghost var beforeBase := curlCommand;
    if options.baseURL.Some? && options.baseURL.value != "" {
      curlCommand := curlCommand + (" --url '" + options.baseURL.value + "'");
      OneClause(beforeBase, curlCommand, BaseUrlPart(options));
    } else {
      NoClause(beforeBase, curlCommand, BaseUrlPart(options));
    }

    ghost var beforeData := curlCommand;
    if Truthy(options.data) {
      curlCommand := curlCommand + (" --data-raw '" + host.stringify(options.data.value) + "'");
      OneClause(beforeData, curlCommand, DataPart(host, options));
    } else {
      NoClause(beforeData, curlCommand, DataPart(host, options));
    }

    ghost var beforeUser := curlCommand;
    if options.auth.Some? {
      var username, password := options.auth.value.username, options.auth.value.password;
      if username != "" && password != "" {
        curlCommand := curlCommand + (" --user '" + username + ":" + password + "'");
        OneClause(beforeUser, curlCommand, UserPart(options));
      } else {
        NoClause(beforeUser, curlCommand, UserPart(options));
      }
    } else {
      NoClause(beforeUser, curlCommand, UserPart(options));
    }
    assert curlCommand == opening + RenderAll(HeaderClauses(variant, options.headers)) + RenderAll(BaseUrlPart(options))
                          + RenderAll(DataPart(host, options)) + RenderAll(UserPart(options));
    CommandChain(variant, host, options);
  }
}
