/** `curlInterceptor` and the `curl` field that `bindCurl` keeps up to date. */
module Interceptor {
  import opened Request
  import opened Curl

  /** Where the formatted command goes: the caller's callback, or the
      default log record `{ occurredAt, curlCommand }` (`print`). */
  datatype Sink = Callback | DefaultLog

  /** The one hand-off an interception makes. */
  datatype Delivery = Delivery(sink: Sink, curlCommand: string)

  /** `curlInterceptor`: copies seven fields, formats once, hands the
      command to exactly one sink and returns the request unchanged. */
  method CurlInterceptor(variant: Variant, host: Host, req: RequestConfig, sink: Sink)
    returns (out: RequestConfig, delivery: Delivery)
    ensures out == req
    ensures delivery.sink == sink
    ensures delivery.curlCommand == Command(variant, host, ToCurlOptions(req))
  {
    var params := ToCurlOptions(req);
    var curlCommand := GenerateCurlCommand(variant, host, params);
    if sink.Callback? {
      delivery := Delivery(Callback, curlCommand);
    } else {
      delivery := Delivery(DefaultLog, curlCommand);
    }
    out := req;
  }

  /** One log line per request, in order, each that request's command. */
  ghost predicate LogsMatch(variant: Variant, host: Host, logged: seq<string>, requests: seq<CurlOptions>)
  {
    |logged| == |requests|
    && forall i :: 0 <= i < |requests| ==> logged[i] == Command(variant, host, requests[i])
  }

  /** Logging one more request's command keeps the log in step. */
  lemma LogsMatchSnoc(variant: Variant, host: Host, logged: seq<string>, requests: seq<CurlOptions>, o: CurlOptions)
    requires LogsMatch(variant, host, logged, requests)
    ensures LogsMatch(variant, host, logged + [Command(variant, host, o)], requests + [o])
  {
    var l, r := logged + [Command(variant, host, o)], requests + [o];
    forall i | 0 <= i < |r| ensures l[i] == Command(variant, host, r[i]) {
      if i < |requests| {
        assert l[i] == logged[i] && r[i] == requests[i];
      }
    }
  }

  /** The client returned by `bindCurl`, reduced to what this library adds:
      the `curl` field and the log lines its callback prints. */
  class AxiosCurl {
    const variant: Variant
    const host: Host
    var curl: string
    /** The `curlCommand` of every record the callback has printed. */
    var logged: seq<string>
    /** The descriptors of the requests intercepted so far. */
    ghost var requests: seq<CurlOptions>

    /** `curl` holds the latest request's command, or `""` before any;
        one log line per request, in order. */
    ghost predicate Valid()
      reads this
    {
      && LogsMatch(variant, host, logged, requests)
      && curl == (if requests == [] then "" else Command(variant, host, requests[|requests| - 1]))
    }

    /** `bindCurl`: the copy starts with `curl: ''`. */
    constructor (variant: Variant, host: Host)
      ensures Valid()
      ensures this.variant == variant && this.host == host
      ensures curl == "" && logged == [] && requests == []
    {
      this.variant := variant;
      this.host := host;
      curl := "";
      logged := [];
      requests := [];
    }

    /** One outgoing request through the registered interceptor, whose
        callback overwrites `curl` and then prints. */
    method Intercept(req: RequestConfig) returns (out: RequestConfig)
      requires Valid()
      modifies this
      ensures Valid()
      ensures out == req
      ensures requests == old(requests) + [ToCurlOptions(req)]
      ensures curl == Command(variant, host, ToCurlOptions(req))
      ensures logged == old(logged) + [curl]
    {
      var delivery;
      out, delivery := CurlInterceptor(variant, host, req, Callback);
      LogsMatchSnoc(variant, host, logged, requests, ToCurlOptions(req));
      curl := delivery.curlCommand;
      logged := logged + [delivery.curlCommand];
      requests := requests + [ToCurlOptions(req)];
    }
  }

  /** Last write wins: after two requests through one bound client, `curl`
      is the second request's command; before any it is empty. */
  method BindAndInterceptTwice(variant: Variant, host: Host, first: RequestConfig, second: RequestConfig)
    returns (initial: string, afterFirst: string, afterSecond: string)
    ensures initial == ""
    ensures afterFirst == Command(variant, host, ToCurlOptions(first))
    ensures afterSecond == Command(variant, host, ToCurlOptions(second))
  {
    var client := new AxiosCurl(variant, host);
    initial := client.curl;
    var _ := client.Intercept(first);
    afterFirst := client.curl;
    var _ := client.Intercept(second);
    afterSecond := client.curl;
  }
}
