/** What the formatter promises, stated over the clause plan and over the
    rendered command line. */
module CurlProperties {
  import opened Js
  import opened Ascii
  import opened Request
  import opened Curl
  import Query

  /** Position of a clause kind in the fixed emission order. */
  function Rank(c: Clause): (r: nat)
    ensures r <= 5
    ensures r == 2 <==> c.HeaderLine?
  {
    match c
    case Url(_, _) => 0
    case Method(_) => 1
    case HeaderLine(_, _) => 2
    case BaseUrl(_) => 3
    case DataRaw(_) => 4
    case User(_, _) => 5
  }

  /** Clause kinds never go backwards, and only header clauses repeat. */
  ghost predicate InFixedOrder(cs: seq<Clause>)
  {
    forall i, j :: 0 <= i < j < |cs| ==>
      Rank(cs[i]) < Rank(cs[j]) || (cs[i].HeaderLine? && cs[j].HeaderLine?)
  }

  lemma OrderedConcat(a: seq<Clause>, b: seq<Clause>)
    requires InFixedOrder(a) && InFixedOrder(b)
    requires forall i, j :: 0 <= i < |a| && 0 <= j < |b| ==>
               Rank(a[i]) < Rank(b[j]) || (a[i].HeaderLine? && b[j].HeaderLine?)
    ensures InFixedOrder(a + b)
  {
    var c := a + b;
    forall i, j | 0 <= i < j < |c|
      ensures Rank(c[i]) < Rank(c[j]) || (c[i].HeaderLine? && c[j].HeaderLine?)
    {
      if j < |a| {
        assert c[i] == a[i] && c[j] == a[j];
      } else if i >= |a| {
        assert c[i] == b[i - |a|] && c[j] == b[j - |a|];
      } else {
        assert c[i] == a[i] && c[j] == b[j - |a|];
      }
    }
  }

  /** Every clause of `s` has a rank between `lo` and `hi`. */
  predicate RankedIn(s: seq<Clause>, lo: int, hi: int)
  {
    forall i :: 0 <= i < |s| ==> lo <= Rank(s[i]) <= hi
  }

  lemma RankedConcat(a: seq<Clause>, b: seq<Clause>, lo: int, hi: int)
    requires RankedIn(a, lo, hi) && RankedIn(b, lo, hi)
    ensures RankedIn(a + b, lo, hi)
  {
    var c := a + b;
    forall i | 0 <= i < |c| ensures lo <= Rank(c[i]) <= hi {
      if i < |a| { assert c[i] == a[i]; } else { assert c[i] == b[i - |a|]; }
    }
  }

  /** The optional clauses after the headers come in their order. */
  lemma TrailerOrder(host: Host, o: CurlOptions)
    ensures InFixedOrder(Trailer(host, o))
    ensures forall i :: 0 <= i < |Trailer(host, o)| ==> 3 <= Rank(Trailer(host, o)[i])
  {
    var b, d, u := BaseUrlPart(o), DataPart(host, o), UserPart(o);
    assert RankedIn(b, 3, 3) && RankedIn(d, 4, 4) && RankedIn(u, 5, 5);
    OrderedConcat(b, d);
    RankedConcat(b, d, 3, 4);
    OrderedConcat(b + d, u);
    RankedConcat(b + d, u, 3, 5);
  }

  /** URL, method, headers, `--url`, `--data-raw`, `--user`: in this order,
      each non-header clause at most once. */
  lemma ClauseOrder(variant: Variant, host: Host, o: CurlOptions)
    ensures InFixedOrder(Plan(variant, host, o))
  {
    var front := [UrlClause(host, o), Method(ToUpper(o.httpMethod))];
    var hc := HeaderClauses(variant, o.headers);
    var t := Trailer(host, o);
    TrailerOrder(host, o);
    OrderedConcat(front, hc);
    OrderedConcat(front + hc, t);
  }

  /** The header clauses of a clause list, in order. */
  function HeaderLinesOf(cs: seq<Clause>): (hs: seq<Clause>)
    ensures |hs| <= |cs|
    ensures forall i :: 0 <= i < |hs| ==> hs[i].HeaderLine?
  {
    if cs == [] then []
    else (if cs[0].HeaderLine? then [cs[0]] else []) + HeaderLinesOf(cs[1..])
  }

  lemma {:induction false} HeaderLinesOfAppend(a: seq<Clause>, b: seq<Clause>)
    ensures HeaderLinesOf(a + b) == HeaderLinesOf(a) + HeaderLinesOf(b)
  {
    if a == [] {
      assert a + b == b;
    } else {
      assert (a + b)[1..] == a[1..] + b;
      HeaderLinesOfAppend(a[1..], b);
    }
  }

  lemma {:induction false} HeaderLinesOfNone(cs: seq<Clause>)
    requires forall i :: 0 <= i < |cs| ==> !cs[i].HeaderLine?
    ensures HeaderLinesOf(cs) == []
  {
    if cs != [] {
      HeaderLinesOfNone(cs[1..]);
    }
  }

  lemma {:induction false} HeaderLinesOfAll(cs: seq<Clause>)
    requires forall i :: 0 <= i < |cs| ==> cs[i].HeaderLine?
    ensures HeaderLinesOf(cs) == cs
  {
    if cs != [] {
      HeaderLinesOfAll(cs[1..]);
    }
  }

  lemma HeaderLinesOfPlan(variant: Variant, host: Host, o: CurlOptions)
    ensures HeaderLinesOf(Plan(variant, host, o)) == HeaderClauses(variant, o.headers)
  {
    var front := [UrlClause(host, o), Method(ToUpper(o.httpMethod))];
    var hc := HeaderClauses(variant, o.headers);
    var t := Trailer(host, o);
    assert Plan(variant, host, o) == (front + hc) + t;
    HeaderLinesOfAppend(front + hc, t);
    HeaderLinesOfAppend(front, hc);
    HeaderLinesOfNone(front);
    HeaderLinesOfAll(hc);
    TrailerOrder(host, o);
    HeaderLinesOfNone(t);
    assert [] + hc + [] == hc;
  }

  /** Exactly one ` -H` clause per header entry, in entry order, with the
      entry's own key and its resolved value. */
  lemma HeadersInOrder(variant: Variant, host: Host, o: CurlOptions)
    ensures |HeaderLinesOf(Plan(variant, host, o))| == |o.headers|
    ensures forall k :: 0 <= k < |o.headers| ==>
              HeaderLinesOf(Plan(variant, host, o))[k]
              == HeaderLine(o.headers[k].key, HeaderText(variant, o.headers[k]))
  {
    HeaderLinesOfPlan(variant, host, o);
  }

  /** The value written for each header entry of a request: a present value
      verbatim (an explicit Content-Type is never overridden); an undefined
      value as the empty string, except that the dist build writes
      `application/json` when the key lower-cases to `content-type`. The key
      is kept as given. */
  lemma HeaderValueRules(variant: Variant, host: Host, o: CurlOptions)
    ensures |HeaderLinesOf(Plan(variant, host, o))| == |o.headers|
    ensures forall k :: 0 <= k < |o.headers| ==>
              HeaderLinesOf(Plan(variant, host, o))[k]
              == HeaderLine(o.headers[k].key,
                            match o.headers[k].value
                            case Present(t) => t
                            case Absent =>
                              if variant == Dist && ToLower(o.headers[k].key) == "content-type"
                              then "application/json" else "")
  {
    HeadersInOrder(variant, host, o);
  }

  /** Number of clauses of one kind. */
  function KindCount(cs: seq<Clause>, rank: nat): (n: nat)
    ensures n <= |cs|
  {
    if cs == [] then 0 else (if Rank(cs[0]) == rank then 1 else 0) + KindCount(cs[1..], rank)
  }

  lemma {:induction false} KindCountAppend(a: seq<Clause>, b: seq<Clause>, rank: nat)
    ensures KindCount(a + b, rank) == KindCount(a, rank) + KindCount(b, rank)
  {
    if a == [] {
      assert a + b == b;
    } else {
      assert (a + b)[1..] == a[1..] + b;
      KindCountAppend(a[1..], b, rank);
    }
  }

  lemma {:induction false} KindCountHeaders(variant: Variant, hs: seq<Header>, rank: nat)
    ensures KindCount(HeaderClauses(variant, hs), rank) == if rank == 2 then |hs| else 0
  {
    if hs != [] {
      assert HeaderClauses(variant, hs)[1..] == HeaderClauses(variant, hs[1..]);
      KindCountHeaders(variant, hs[1..], rank);
    }
  }

  lemma KindCountOptional(cs: seq<Clause>, rank: nat)
    requires |cs| <= 1
    ensures KindCount(cs, rank) == if cs != [] && Rank(cs[0]) == rank then 1 else 0
  {
    if cs != [] {
      assert cs[1..] == [];
    }
  }

  lemma ClauseCountAt(variant: Variant, host: Host, o: CurlOptions, rank: nat)
    ensures KindCount(Plan(variant, host, o), rank)
            == (if rank <= 1 then 1 else 0)
               + (if rank == 2 then |o.headers| else 0)
               + (if rank == 3 && TruthyString(o.baseURL) then 1 else 0)
               + (if rank == 4 && Truthy(o.data) then 1 else 0)
               + (if rank == 5 && EmitsUser(o) then 1 else 0)
  {
    var front := [UrlClause(host, o), Method(ToUpper(o.httpMethod))];
    var hc := HeaderClauses(variant, o.headers);
    assert KindCount(front, rank) == if rank <= 1 then 1 else 0 by {
      assert front == [front[0]] + [front[1]];
      KindCountAppend([front[0]], [front[1]], rank);
      KindCountOptional([front[0]], rank);
      KindCountOptional([front[1]], rank);
    }
    KindCountHeaders(variant, o.headers, rank);
    TrailerCount(host, o, rank);
    assert Plan(variant, host, o) == (front + hc) + Trailer(host, o);
    KindCountAppend(front + hc, Trailer(host, o), rank);
    KindCountAppend(front, hc, rank);
  }

  lemma TrailerCount(host: Host, o: CurlOptions, rank: nat)
    ensures KindCount(Trailer(host, o), rank)
            == (if rank == 3 && TruthyString(o.baseURL) then 1 else 0)
               + (if rank == 4 && Truthy(o.data) then 1 else 0)
               + (if rank == 5 && EmitsUser(o) then 1 else 0)
  {
    var b, d, u := BaseUrlPart(o), DataPart(host, o), UserPart(o);
    KindCountOptional(b, rank);
    KindCountOptional(d, rank);
    KindCountOptional(u, rank);
    KindCountAppend(b + d, u, rank);
    KindCountAppend(b, d, rank);
  }

  /** How often each clause kind appears: the URL and the method clause
      once, one header clause per entry, `--url` exactly when `baseURL` is
      a non-empty string, `--data-raw` exactly when the body is truthy,
      `--user` exactly when both credentials are non-empty. */
  lemma ClauseCounts(variant: Variant, host: Host, o: CurlOptions)
    ensures KindCount(Plan(variant, host, o), 0) == 1
    ensures KindCount(Plan(variant, host, o), 1) == 1
    ensures KindCount(Plan(variant, host, o), 2) == |o.headers|
    ensures KindCount(Plan(variant, host, o), 3) == if TruthyString(o.baseURL) then 1 else 0
    ensures KindCount(Plan(variant, host, o), 4) == if Truthy(o.data) then 1 else 0
    ensures KindCount(Plan(variant, host, o), 5)
            == if o.auth.Some? && o.auth.value.username != "" && o.auth.value.password != "" then 1 else 0
  {
    ClauseCountAt(variant, host, o, 0);
    ClauseCountAt(variant, host, o, 1);
    ClauseCountAt(variant, host, o, 2);
    ClauseCountAt(variant, host, o, 3);
    ClauseCountAt(variant, host, o, 4);
    ClauseCountAt(variant, host, o, 5);
  }

  /** The clause at each position of the plan. */
  lemma PlanAt(variant: Variant, host: Host, o: CurlOptions, i: nat)
    requires i < |Plan(variant, host, o)|
    ensures |Plan(variant, host, o)| == 2 + |o.headers| + |Trailer(host, o)|
    ensures i == 0 ==> Plan(variant, host, o)[i] == UrlClause(host, o)
    ensures i == 1 ==> Plan(variant, host, o)[i] == Method(ToUpper(o.httpMethod))
    ensures 2 <= i < 2 + |o.headers| ==>
              Plan(variant, host, o)[i] == HeaderLine(o.headers[i - 2].key, HeaderText(variant, o.headers[i - 2]))
    ensures 2 + |o.headers| <= i ==> Plan(variant, host, o)[i] == Trailer(host, o)[i - 2 - |o.headers|]
  {
    var front := [UrlClause(host, o), Method(ToUpper(o.httpMethod))];
    var hc := HeaderClauses(variant, o.headers);
    var p := Plan(variant, host, o);
    assert p == (front + hc) + Trailer(host, o);
    if i < 2 {
      assert p[i] == front[i];
    } else if i < 2 + |o.headers| {
      assert p[i] == hc[i - 2];
    }
  }

  /** The texts the optional clauses carry, and `--user` as the last clause. */
  lemma OptionalClauseContents(variant: Variant, host: Host, o: CurlOptions)
    ensures forall i :: 0 <= i < |Plan(variant, host, o)| && Plan(variant, host, o)[i].BaseUrl? ==>
              Plan(variant, host, o)[i] == BaseUrl(o.baseURL.value)
    ensures forall i :: 0 <= i < |Plan(variant, host, o)| && Plan(variant, host, o)[i].DataRaw? ==>
              Plan(variant, host, o)[i] == DataRaw(host.stringify(o.data.value))
    ensures EmitsUser(o) ==>
              Plan(variant, host, o)[|Plan(variant, host, o)| - 1]
              == User(o.auth.value.username, o.auth.value.password)
  {
    var p := Plan(variant, host, o);
    var n := 2 + |o.headers|;
    var b, d, u := BaseUrlPart(o), DataPart(host, o), UserPart(o);
    var t := Trailer(host, o);
    assert t == (b + d) + u;
    forall i | 0 <= i < |p|
      ensures p[i].BaseUrl? ==> p[i] == BaseUrl(o.baseURL.value)
      ensures p[i].DataRaw? ==> p[i] == DataRaw(host.stringify(o.data.value))
    {
      PlanAt(variant, host, o, i);
      if n <= i {
        var j := i - n;
        if j < |b| {
          assert t[j] == b[j];
        } else if j < |b| + |d| {
          assert t[j] == d[j - |b|];
        } else {
          assert t[j] == u[j - |b| - |d|];
        }
      }
    }
    if EmitsUser(o) {
      PlanAt(variant, host, o, |p| - 1);
      assert t[|t| - 1] == u[0];
    }
  }

  /** Falsy bodies (`null`, `false`, `0`, `NaN`, `""`) are dropped; empty
      arrays and objects are truthy and are sent. */
  lemma BodyTruthiness(variant: Variant, host: Host, o: CurlOptions)
    ensures o.data in {Some(JNull), Some(JBool(false)), Some(JNumber(0.0)), Some(JNaN), Some(JString(""))}
            ==> DataPart(host, o) == []
    ensures o.data in {Some(JArray([])), Some(JObject([]))}
            ==> DataPart(host, o) == [DataRaw(host.stringify(o.data.value))]
  {
  }

  /** The command opens with `curl '`, the URL, the serialized query after a
      `?` exactly when `params` is present (even when empty), the closing
      quote and then directly ` -X ` with the upper-cased method. */
  function OpeningText(host: Host, o: CurlOptions): (t: string)
  {
    "curl '" + o.url
    + (if o.params.Some? then "?" + Query.Serialize(host.formEncode, o.params.value) else "")
    + "' -X " + ToUpper(o.httpMethod)
  }

  lemma OpeningHead(host: Host, o: CurlOptions)
    ensures "curl" + Render(UrlClause(host, o)) + Render(Method(ToUpper(o.httpMethod))) == OpeningText(host, o)
  {
    var u, m := o.url, ToUpper(o.httpMethod);
    var q := if o.params.Some? then "?" + Query.Serialize(host.formEncode, o.params.value) else "";
    assert Render(UrlClause(host, o)) == " '" + u + q + "'";
    assert "curl" + " '" == "curl '";
    assert "'" + " -X " == "' -X ";
    calc {
      "curl" + (" '" + u + q + "'") + (" -X " + m);
      { AppendAssoc("curl", " '" + u + q, "'"); AppendAssoc("curl", " '" + u, q);
        AppendAssoc("curl", " '", u); }
      "curl" + " '" + u + q + "'" + (" -X " + m);
      "curl '" + u + q + "'" + (" -X " + m);
      { AppendAssoc("curl '" + u + q + "'", " -X ", m); }
      "curl '" + u + q + "'" + " -X " + m;
      { AppendAssoc("curl '" + u + q, "'", " -X "); }
      "curl '" + u + q + ("'" + " -X ") + m;
      "curl '" + u + q + "' -X " + m;
    }
  }

  /** Appending four pieces keeps the head as a prefix, with its first six characters. */
  lemma PrefixOfChain(head: string, rh: string, rb: string, rd: string, ru: string)
    requires |head| >= 6
    ensures head <= head + rh + rb + rd + ru
    ensures (head + rh + rb + rd + ru)[..6] == head[..6]
  {
    AppendAssoc(head, rh + rb + rd, ru);
    AppendAssoc(head, rh + rb, rd);
    AppendAssoc(head, rh, rb);
    assert head + rh + rb + rd + ru == head + (rh + rb + rd + ru);
  }

  lemma OpeningStart(host: Host, o: CurlOptions)
    ensures |OpeningText(host, o)| >= 6 && OpeningText(host, o)[..6] == "curl '"
  {
    var t := OpeningText(host, o);
    assert t == "curl '" + (t[6..]);
  }

  lemma CommandOpening(variant: Variant, host: Host, o: CurlOptions)
    ensures OpeningText(host, o) <= Command(variant, host, o)
    ensures Command(variant, host, o)[..6] == "curl '"
  {
    CommandChain(variant, host, o);
    OpeningHead(host, o);
    OpeningStart(host, o);
    PrefixOfChain(OpeningText(host, o), RenderAll(HeaderClauses(variant, o.headers)),
      RenderAll(BaseUrlPart(o)), RenderAll(DataPart(host, o)), RenderAll(UserPart(o)));
  }

  /** An undefined header whose key is Content-Type in any ASCII case. */
  predicate IsAbsentContentType(h: Header)
  {
    h.value.Absent? && ToLower(h.key) == "content-type"
  }

  /** The headers with `application/json` filled in for every undefined
      Content-Type entry. */
  function FillContentType(hs: seq<Header>): (filled: seq<Header>)
    ensures |filled| == |hs|
    ensures forall i :: 0 <= i < |hs| ==> filled[i].key == hs[i].key && !IsAbsentContentType(filled[i])
  {
    seq(|hs|, i requires 0 <= i < |hs| =>
      if IsAbsentContentType(hs[i]) then Header(hs[i].key, Present(DefaultContentType)) else hs[i])
  }

  /** The dist build is the lib build run on headers whose undefined
      Content-Type values were filled in with `application/json`. */
  lemma DistIsLibWithDefaultFilledIn(host: Host, o: CurlOptions)
    ensures Command(Dist, host, o) == Command(Lib, host, o.(headers := FillContentType(o.headers)))
  {
    var o' := o.(headers := FillContentType(o.headers));
    assert HeaderClauses(Dist, o.headers) == HeaderClauses(Lib, o'.headers);
    assert Plan(Dist, host, o) == Plan(Lib, host, o');
  }

  lemma HeaderTextVariants(h: Header)
    ensures IsAbsentContentType(h) ==> HeaderText(Lib, h) == "" && HeaderText(Dist, h) == DefaultContentType
    ensures !IsAbsentContentType(h) ==> HeaderText(Lib, h) == HeaderText(Dist, h)
  {
  }

  lemma VariantHeaderAt(host: Host, o: CurlOptions, k: nat)
    requires k < |o.headers| && IsAbsentContentType(o.headers[k])
    ensures 2 + k < |Plan(Lib, host, o)| && 2 + k < |Plan(Dist, host, o)|
    ensures Plan(Lib, host, o)[2 + k] == HeaderLine(o.headers[k].key, "")
    ensures Plan(Dist, host, o)[2 + k] == HeaderLine(o.headers[k].key, "application/json")
  {
    PlanAt(Lib, host, o, 2 + k);
    PlanAt(Dist, host, o, 2 + k);
    HeaderTextVariants(o.headers[k]);
  }

  lemma VariantClauseAt(host: Host, o: CurlOptions, i: nat)
    requires i < |Plan(Lib, host, o)|
    ensures |Plan(Lib, host, o)| == |Plan(Dist, host, o)|
    ensures Plan(Lib, host, o)[i] != Plan(Dist, host, o)[i] <==>
            2 <= i < 2 + |o.headers| && IsAbsentContentType(o.headers[i - 2])
  {
    PlanAt(Lib, host, o, i);
    PlanAt(Dist, host, o, i);
    if 2 <= i < 2 + |o.headers| {
      HeaderTextVariants(o.headers[i - 2]);
    }
  }

  /** The two builds emit the same clauses except where a header entry is
      an undefined Content-Type: there lib writes an empty value and dist
      writes `application/json`, under the key as given. The URL, method,
      `--url`, `--data-raw` and `--user` clauses are identical. */
  lemma VariantsDifferOnlyInContentTypeDefault(host: Host, o: CurlOptions)
    ensures |Plan(Lib, host, o)| == |Plan(Dist, host, o)|
    ensures forall i :: 0 <= i < |Plan(Lib, host, o)| ==>
              (Plan(Lib, host, o)[i] != Plan(Dist, host, o)[i] <==>
               2 <= i < 2 + |o.headers| && IsAbsentContentType(o.headers[i - 2]))
    ensures forall k :: 0 <= k < |o.headers| && IsAbsentContentType(o.headers[k]) ==>
              Plan(Lib, host, o)[2 + k] == HeaderLine(o.headers[k].key, "") &&
              Plan(Dist, host, o)[2 + k] == HeaderLine(o.headers[k].key, "application/json")
  {
    var pl, pd := Plan(Lib, host, o), Plan(Dist, host, o);
    forall i | 0 <= i < |pl|
      ensures pl[i] != pd[i] <==> 2 <= i < 2 + |o.headers| && IsAbsentContentType(o.headers[i - 2])
    {
      VariantClauseAt(host, o, i);
    }
    forall k | 0 <= k < |o.headers| && IsAbsentContentType(o.headers[k])
      ensures pl[2 + k] == HeaderLine(o.headers[k].key, "")
      ensures pd[2 + k] == HeaderLine(o.headers[k].key, "application/json")
    {
      VariantHeaderAt(host, o, k);
    }
  }

  /** Without an undefined Content-Type header both builds print the same line. */
  lemma VariantsAgreeWithoutContentTypeDefault(host: Host, o: CurlOptions)
    requires forall k :: 0 <= k < |o.headers| ==> !IsAbsentContentType(o.headers[k])
    ensures Command(Lib, host, o) == Command(Dist, host, o)
  {
    VariantsDifferOnlyInContentTypeDefault(host, o);
    assert Plan(Lib, host, o) == Plan(Dist, host, o);
  }

  /** Single quotes in a string. */
  function Quotes(s: string): (n: nat)
    ensures n <= |s|
  {
    if s == [] then 0 else (if s[0] == '\'' then 1 else 0) + Quotes(s[1..])
  }

  /** Single quotes inside a clause's own fields (none are added or escaped). */
  function FieldQuotes(c: Clause): nat
  {
    match c
    case Url(u, None) => Quotes(u)
    case Url(u, Some(q)) => Quotes(u) + Quotes(q)
    case Method(m) => Quotes(m)
    case HeaderLine(k, v) => Quotes(k) + Quotes(v)
    case BaseUrl(b) => Quotes(b)
    case DataRaw(j) => Quotes(j)
    case User(u, p) => Quotes(u) + Quotes(p)
  }

  function AllFieldQuotes(cs: seq<Clause>): (n: nat)
    ensures cs == [] ==> n == 0
  {
    if cs == [] then 0 else FieldQuotes(cs[0]) + AllFieldQuotes(cs[1..])
  }

  /** A field between two quoting literals gains exactly their quotes. */
  lemma Wrapped(pre: string, x: string, post: string)
    ensures Quotes(pre + x + post) == Quotes(pre) + Quotes(x) + Quotes(post)
  {
    Quotes3(pre, x, post);
  }

  lemma {:induction false} NoQuotes(s: string)
    requires forall i :: 0 <= i < |s| ==> s[i] != '\''
    ensures Quotes(s) == 0
  {
    if s != [] {
      NoQuotes(s[1..]);
    }
  }

  /** A literal with no quote but one at its end. */
  lemma OneClosingQuote(t: string)
    requires forall i :: 0 <= i < |t| ==> t[i] != '\''
    ensures Quotes(t + "'") == 1
  {
    NoQuotes(t);
    QuotesAppend(t, "'");
  }

  lemma LiteralQuotes()
    ensures Quotes(" '") == 1 && Quotes("'") == 1 && Quotes("?") == 0 && Quotes(":") == 0
    ensures Quotes(" -X ") == 0 && Quotes(" -H '") == 1 && Quotes(": ") == 0
    ensures Quotes(" --url '") == 1 && Quotes(" --data-raw '") == 1 && Quotes(" --user '") == 1
  {
    NoQuotes(" -X ");
    OneClosingQuote(" -H ");
    assert " -H " + "'" == " -H '";
    OneClosingQuote(" --url ");
    assert " --url " + "'" == " --url '";
    OneClosingQuote(" --data-raw ");
    assert " --data-raw " + "'" == " --data-raw '";
    OneClosingQuote(" --user ");
    assert " --user " + "'" == " --user '";
  }

  /** A field after an opening literal with one quote, closed by `'`. */
  lemma QuotedField(pre: string, x: string)
    requires Quotes(pre) == 1
    ensures Quotes(pre + x + "'") == 2 + Quotes(x)
  {
    Wrapped(pre, x, "'");
    assert Quotes("'") == 1 by { assert "'"[1..] == []; }
  }

  /** Two fields with a quote-free separator between them, quoted as one. */
  lemma QuotedPair(pre: string, x: string, sep: string, y: string)
    requires Quotes(pre) == 1 && Quotes(sep) == 0
    ensures Quotes(pre + x + sep + y + "'") == 2 + Quotes(x) + Quotes(y)
  {
    Quotes3(pre, x, sep);
    Wrapped(pre + x + sep, y, "'");
    assert Quotes("'") == 1 by { assert "'"[1..] == []; }
  }

  /** Every clause but `-X` wraps its text in one pair of single quotes. */
  lemma RenderQuotes(c: Clause)
    ensures Quotes(Render(c)) == (if c.Method? then 0 else 2) + FieldQuotes(c)
  {
    LiteralQuotes();
    match c
    case Url(u, None) =>
      QuotedField(" '", u);
    case Url(u, Some(q)) =>
      QuotedPair(" '", u, "?", q);
    case Method(m) =>
      QuotesAppend(" -X ", m);
    case HeaderLine(k, v) =>
      QuotedPair(" -H '", k, ": ", v);
    case BaseUrl(b) =>
      QuotedField(" --url '", b);
    case DataRaw(j) =>
      QuotedField(" --data-raw '", j);
    case User(u, pw) =>
      QuotedPair(" --user '", u, ":", pw);
  }

  lemma {:induction false} QuotesAppend(a: string, b: string)
    ensures Quotes(a + b) == Quotes(a) + Quotes(b)
  {
    if a == [] {
      assert a + b == b;
    } else {
      assert (a + b)[1..] == a[1..] + b;
      QuotesAppend(a[1..], b);
    }
  }

  lemma Quotes3(a: string, b: string, c: string)
    ensures Quotes(a + b + c) == Quotes(a) + Quotes(b) + Quotes(c)
  {
    QuotesAppend(a + b, c);
    QuotesAppend(a, b);
  }

  lemma {:induction false} RenderAllQuotes(cs: seq<Clause>)
    ensures Quotes(RenderAll(cs)) == 2 * (|cs| - KindCount(cs, 1)) + AllFieldQuotes(cs)
  {
    if cs != [] {
      RenderQuotes(cs[0]);
      RenderAllQuotes(cs[1..]);
      QuotesAppend(Render(cs[0]), RenderAll(cs[1..]));
    }
  }

  /** The command line holds two quotes per quoted clause plus whatever
      quotes the fields carry: it is properly quoted exactly when no field
      contains a single quote, since none is escaped. */
  lemma CommandQuotes(variant: Variant, host: Host, o: CurlOptions)
    ensures Quotes(Command(variant, host, o))
            == 2 * (|Plan(variant, host, o)| - 1) + AllFieldQuotes(Plan(variant, host, o))
  {
    var p := Plan(variant, host, o);
    RenderAllQuotes(p);
    ClauseCounts(variant, host, o);
    QuotesAppend("curl", RenderAll(p));
  }

  /** A request without query parameters, body, base URL or credentials
      prints as exactly `curl '<url>' -X <METHOD>` followed by its header
      clauses in entry order, and nothing else. */
  lemma PlainRequest(variant: Variant, host: Host, o: CurlOptions)
    requires o.params.None? && !Truthy(o.data) && !TruthyString(o.baseURL) && !EmitsUser(o)
    ensures Plan(variant, host, o) == [Url(o.url, None), Method(ToUpper(o.httpMethod))] + HeaderClauses(variant, o.headers)
  {
    var p := [Url(o.url, None), Method(ToUpper(o.httpMethod))] + HeaderClauses(variant, o.headers);
    assert Trailer(host, o) == [];
    assert p + [] == p;
  }
}
