# curl2axios in Dafny

curl2axios is a small Axios add-on that prints every outgoing request as a
`curl` command line. It has three parts:

- `generateCurlCommand` turns a request descriptor into that line.
  - It starts from `curl`.
  - It appends the quoted URL, with `?` and the form-urlencoded query when `params` is present.
  - It appends ` -X` and the upper-cased method.
  - It appends one ` -H 'key: value'` clause per header entry.
  - It then appends ` --url` when there is a base URL, ` --data-raw` with the JSON body when the body is truthy, and ` --user` when both credentials are non-empty.
- `curlInterceptor` is the request interceptor. It copies seven fields of the request, formats them once, and hands the command either to the caller's callback or to a default log record. It returns the request unchanged.
- `bindCurl` returns a copy of a client whose `curl` field starts empty and is overwritten with every request's command.

The repository ships two builds of the formatter, and they differ in one branch:

- `lib/index.ts` writes an empty value for a header whose value is `undefined`.
- `dist/index.js` writes `application/json` instead when that header's key lower-cases to `content-type`.

The model covers both builds through a `Variant` parameter (`Lib` or `Dist`).

Layout:

- `js.dfy`: JavaScript values the formatter inspects, and their truthiness.
- `ascii.dfy`: ASCII case mapping.
- `query.dfy`: the shape of the form-urlencoded query string, with its parse-back.
- `request.dfy`: the request descriptor, the wider request configuration, and the two foreign services. `JSON.stringify` and the percent-encoder are fields of a `Host` value.
- `curl.dfy` holds the formatter:
  - `Plan` is the declarative list of clauses a request yields, and `Command` renders that list.
  - `GenerateCurlCommand` is the accumulator method, proved equal to `Command`.
- `curl_properties.dfy`: what the formatter promises, stated over the plan and over the rendered line.
- `interceptor.dfy`: the interceptor, and the bound client as a class with a `curl` field.
- `scenarios.dfy`: the clause lists the repository's test requests produce.

The two test suites disagree about the undefined Content-Type header:

- `test/index.spec.js` expects the `lib` output (`Content-Type: `).
- `test/index.spec.ts` expects the `dist` output (`Content-Type: application/json`), although it imports the `lib` build.

`Scenarios.SuitesDisagree` shows that the two builds print different lines for test [1], where the suites' expected strings differ.

## Model

| member | source | states |
|---|---|---|
| Curl.GenerateCurlCommand | lib/index.ts:29-68 | The accumulator built by the method is exactly `Command(variant, host, options)`: `curl`, then the rendered clause plan. It is proved against the same specification for both builds. |
| Curl.AppendHeaders | dist/index.js:37-51 | Appends exactly the rendered header clauses of the entries in entry order. A defined value is written verbatim. An undefined value becomes `application/json` in the dist build when the key lower-cases to `content-type`, and the empty value otherwise. |
| CurlProperties.ClauseOrder | lib/index.ts:30-65 | Clause kinds appear in the fixed order URL, method, headers, `--url`, `--data-raw`, `--user`. Only header clauses repeat. |
| CurlProperties.HeadersInOrder | lib/index.ts:42-50 | The header clauses of the plan are one per entry, in entry order, each with the entry's own key and resolved value. |
| CurlProperties.HeaderValueRules | dist/index.js:37-51 | The header clauses of the printed plan number one per entry. The `k`-th is ` -H '` key `: ` value `'` for entry `k`'s key. For a present value, the value is that value verbatim. For an undefined value, it is `application/json` in the dist build when the key lower-cases to `content-type`, and empty otherwise (always empty in lib). |
| CurlProperties.ClauseCounts | lib/index.ts:52-65 | URL and method occur once each, and there are `|headers|` header clauses. `--url` occurs once iff `baseURL` is a non-empty string, `--data-raw` once iff the body is truthy, `--user` once iff both credentials are non-empty; otherwise each is absent. |
| CurlProperties.OptionalClauseContents | lib/index.ts:52-65 | `--url` carries `baseURL`, `--data-raw` carries `JSON.stringify(data)`, and `--user` is the last clause whenever it is emitted. |
| CurlProperties.BodyTruthiness | lib/index.ts:56-58 | `null`, `false`, `0`, `NaN` and `""` bodies are dropped. Empty arrays and objects are truthy and are sent. |
| CurlProperties.CommandOpening | lib/index.ts:30-40 | The line starts with `curl '`, the URL, `?` and the serialized query exactly when `params` is present (even if empty), `'`, then ` -X ` and the upper-cased method. |
| CurlProperties.PlainRequest | lib/index.ts:30-50 | Without params, truthy body, non-empty base URL or usable credentials, the plan is exactly the URL clause, the method clause and the header clauses. |
| CurlProperties.CommandQuotes | lib/index.ts:35-63 | The number of single quotes in the line is two per quoted clause (every clause but `-X`) plus the quotes inside the fields, since nothing is escaped. |
| CurlProperties.DistIsLibWithDefaultFilledIn | dist/index.js:38-50 | The dist output equals the lib output for the same request whose undefined Content-Type entries are filled with `application/json`. |
| CurlProperties.VariantsDifferOnlyInContentTypeDefault | dist/index.js:26-65 | Both builds emit plans of equal length. Position `i` differs iff it is a header position whose entry is an undefined Content-Type, where lib has the empty value and dist has `application/json` under the original key. |
| CurlProperties.VariantsAgreeWithoutContentTypeDefault | dist/index.js:39-48 | Without an undefined Content-Type entry both builds print the same line. |
| Ascii.ToUpper | lib/index.ts:40 | Upper-casing keeps the length, maps each character by itself, and leaves no lower-case ASCII letter. |
| Ascii.ToLower | dist/index.js:43 | Lower-casing keeps the length, maps each character by itself and leaves no upper-case ASCII letter. |
| Ascii.ContentTypeLowerCase | dist/index.js:43 | The key `Content-Type` lower-cases to `content-type`, so it takes the dist default. |
| Query.SplitJoin | lib/index.ts:33-34 | Cutting a non-empty `&`-joined list of `&`-free pieces at `&` gives back the pieces. The empty params object is not covered here. `Query.ParseSerialize` covers it through `Parse("") == []`. |
| Query.Serialize | lib/index.ts:33-34 | The query string is empty exactly when there are no pairs. Otherwise it starts with the first pair's `enc(name)=enc(value)`. |
| Query.ParseSerialize | lib/index.ts:33-35 | When the encoder escapes `&` and `=`, reading the query back yields every pair in order with its encoded name and value. This includes the empty params object, whose empty query reads back as no pairs. |
| Query.JoinCount | lib/index.ts:34 | Joining `sep`-free pieces puts exactly one `sep` between neighbours: none for no pieces, one fewer than the pieces otherwise. |
| Query.SerializeSeparators | lib/index.ts:32-35 | When the encoder escapes `&`, the query holds no `&` for no pairs, and one fewer `&` than pairs otherwise. |
| Request.ToCurlOptionsRoundTrip | lib/index.ts:78-86 | The descriptor is exactly the seven copied fields: putting the request's other fields back onto its descriptor rebuilds the request, and every descriptor is the copy of the request reassembled from it. The same copy is made at dist/index.js:74-82. |
| Request.ToCurlOptionsIgnoresRest | lib/index.ts:78-86 | No other field of the request configuration affects the descriptor, and so none affects the command. |
| Js.Truthy | lib/index.ts:56 | A body value is falsy exactly when it is absent, `null`, `false`, `0`, `NaN` or `""`. |
| Js.TruthyString | lib/index.ts:52 | An optional string passes the `if` test exactly when JavaScript truthiness holds for it as a string, so exactly when it is present and non-empty. |
| Interceptor.CurlInterceptor | lib/index.ts:77-95 | Returns the request unchanged. Hands exactly one command to the chosen sink (callback or default log). That command is the formatting of the seven copied fields. |
| Interceptor.AxiosCurl.constructor | lib/index.ts:108-109 | A bound client starts with `curl == ""` and nothing logged. |
| Interceptor.AxiosCurl.Intercept | lib/index.ts:110-114 | Each request overwrites `curl` with its command and logs that command, and the class invariant holds: `curl` is the latest request's command and there is one log line per request, in order. |
| Interceptor.BindAndInterceptTwice | lib/index.ts:108-116 | `curl` is empty before any request and holds each request's command after it: the last write wins. |
| Scenarios.SimpleGet | test/index.spec.js:11-18 | Plain GET: URL, `GET`, the Accept header and the undefined Content-Type, whose value is empty in lib and `application/json` in dist. |
| Scenarios.GetWithParams | test/index.spec.js:20-29 | `params: { animal: 'berry' }` becomes `url?animal=berry`. |
| Scenarios.GetWithAuth | test/index.spec.js:31-40 | Credentials `berry`/`12345` end the line as a `--user` clause. |
| Scenarios.PostWithBody | test/index.spec.js:42-54 | An explicit Content-Type is written as given by both builds, and the JSON body follows the headers as `--data-raw`. |
| Scenarios.GetWithBaseUrl | test/index.spec.js:56-63 | With a base URL the quoted URL stays the relative path and `--url` follows the headers. |
| Scenarios.BoundClientWithBaseUrl | test/index.spec.js:65-69 | A bound client's `curl` field holds the base-URL scenario's command after the request. |
| Scenarios.SuitesDisagree | test/index.spec.ts:8-21 | For the simple GET (test [1]) the dist line is 16 characters longer than the lib line, so the two builds print different lines for a test whose expected strings differ between the suites. Tests [2], [3], [5] and [6] also send the undefined Content-Type, but only test [1] is stated here. |

## Left out

- Axios itself is not modelled: creating clients, registering interceptors, merging default headers, and the shallow copy `bindCurl` makes of the client. The bound client is a class holding only the `curl` field and the print log.
- `print`'s `occurredAt` timestamp and the console are not modelled. A printed record is modelled as its `curlCommand` only.
- `JSON.stringify` and the form-urlencoded percent-encoder are foreign code. They are the uninterpreted functions `Host.stringify` and `Host.formEncode`. The query is modelled as `enc(name)=enc(value)` pieces joined by `&`, in the order given.
- `String.prototype.toUpperCase`/`toLowerCase` are modelled for ASCII letters only. Unicode case mapping (`ß` → `SS`, etc.) is not modelled.
- `url` and `method` are non-optional strings. The text `undefined`, and the TypeError from upper-casing a missing method, are not modelled.
- Header entries are the list `Object.entries` yields, taken in the given order. Its placement of integer-like keys first is not modelled.
- A defined header value is taken as the text a template literal prints for it. An absent headers object is the empty list.
- The order in which concurrent requests overwrite `curl` is not modelled; requests are intercepted one at a time.
- Body truthiness covers `null`, booleans, numbers (`0` and `NaN`; negative zero is `0.0`), strings, arrays and objects. Other JavaScript values (functions, symbols, `BigInt`) are not modelled.
- Scenarios.GetWithParams and Scenarios.PostWithBody: they assume the encoder leaves `animal` and `berry` unchanged, and that `JSON.stringify` prints `{"userName":"sample"}`, instead of computing them.
- Scenario [7] (test/index.spec.ts:104-122, an explicit `application/text` Content-Type) is covered by Scenarios.PostWithBody, which takes the Content-Type value as a parameter.
- `dist/index.d.ts` carries only type declarations, with no behaviour to model.
