# gors in Dafny

A model of the core of gors, a small Go HTTP helper. The model covers four parts:

- A `Client` holds a base URL and a set of default headers, and creates Requests.
- A `Request` collects a method, a path, query entries, headers, a body and a timeout.
- Before dispatch, a Request is turned into an outgoing request. Its path is the base URL's path joined with the request path by Go's `path.Join`, with the trailing '/' handled specially. Its query values are added to the ones the base URL already had.
- `SendWithJSONResponse` dispatches a Request, reads the body and decodes it as JSON.

Modules:

- `GoPath` (gopath.dfy): the part of Go's `path` package the URL is built with, namely `Join` and the lexical `Clean` it applies. `Clean` follows Pike's rules for lexical file names in Plan 9. It is defined over the stack of path elements. The lemmas prove that a cleaned path ends in '/' only when it is the root, that cleaning is idempotent, that splitting a path into elements and joining them again are inverse, and that for paths without ".." elements, Join is just the names of both paths joined with single '/'s.
- `UrlValues` (urlvalues.dfy): Go's `url.Values` multimap, its `Add`, and `AddAll`, the definition that the query-merge loop is proved against.
- `Gors` (gors.dfy): the `Client` and `Request` classes, `OutgoingPath`, `Request.Prepare`, and `SendWithJSONResponse`, which is a pure function over the outcomes of its three steps.
- `Wrappers`, `Maps`: `Option`/`Result` and a map restriction helper.

The `Client` and `Request` state is modelled with classes. Their setters have field-level `modifies` frames, so a contract says what changed and the frame says nothing else did. `NewRequest`, the header copy and the query merge keep the source's loops over Go maps. Each loop picks the next key nondeterministically, so its proof holds for every iteration order.

Things the source does that readers may not expect:

- A request path of "/" under a base URL whose path is "" or "/" gives the outgoing path "//", not a single '/'. The cleaned join is "/" and one more '/' is appended (`Gors.OutgoingPathRoot`). The same happens whenever the cleaned join is "/", for example for the request paths "../" under "/v1", "//" or "/./" under "". A request path that ends in '/' gives an outgoing path ending in "//" exactly when the cleaned join is "/", and in a single '/' otherwise (`Gors.OutgoingPathShape`).
- When JSON decoding fails, `SendWithJSONResponse` returns whatever `json.Unmarshal` left in the value. That value can be partly filled, so it is not always the zero value. `Decoded.DecodeFailed` carries that partial value.
- `SetBody` stores the caller's byte slice by reference, and `SetDefaultHeaders` stores the caller's Go map by reference, so later changes the caller makes to that slice or map show up in the Request or the Client. Dafny sequences and maps are values, so the model gives copy semantics there. `NewRequest` copies headers one by one in both Go and the model, so a Request never shares its headers with the Client.

## Model

| member | source | states |
|---|---|---|
| `Gors.Client.constructor` | gors.go:213-215 | NewClient: the base URL is the argument and the default-header map is nil |
| `Gors.Client.SetDefaultHeaders` | gors.go:60-62 | the default-header map becomes exactly the given one, nil included, and no earlier entry survives; nothing else in the Client changes |
| `Gors.Client.AddDefaultHeader` | gors.go:66-72 | works on a nil map too: afterwards the map exists, maps the key to the value and keeps every other key as before |
| `Gors.Client.NewRequest` | gors.go:77-91 | the new Request has the Client's base URL, the given method and path, an empty query, an empty body, a 10 s timeout and headers equal to the default headers (empty when they are nil); the Client is not modified |
| `Gors.Request.constructor` | gors.go:78-84 | the Request literal NewRequest starts from: empty query and header maps, no body, timeout 10 s |
| `Gors.Request.SetTimeout` | gors.go:94-96 | only the timeout changes, to the given duration |
| `Gors.Request.SetHeader` | gors.go:100-102 | last write wins on the key; all other headers and all other fields are unchanged |
| `Gors.Request.SetQuery` | gors.go:105-107 | last write wins on the key; all other query entries and all other fields are unchanged |
| `Gors.Request.SetBody` | gors.go:110-112 | only the body changes, to the given bytes |
| `Gors.Request.SetJSONBody` | gors.go:116-127 | when marshalling fails, its error is returned and body and headers are untouched; otherwise the error is nil, the body is the encoding, Content-Type is application/json whatever it was, and other headers are unchanged |
| `Gors.Request.Prepare` | gors.go:132-159 | the outgoing request has the Request's method, body and headers; its URL is the parse of the Request's own base URL, with the path replaced by OutgoingPath of that URL's path and the request path, and the query replaced by that URL's query with every Request query entry added |
| `Gors.Request.CopyHeaders` | gors.go:149-151 | setting every Request header in turn, in any order, yields exactly the Request's headers |
| `Gors.Request.AddQuery` | gors.go:153-159 | adding every Request query entry in turn, in any order, yields AddAll of the base query and the Request's query |
| `Gors.OutgoingPath` | gors.go:134-138 | the outgoing path is empty exactly when both paths are, is rooted exactly when the base path followed by the request path is, and ends in '/' whenever the request path does |
| `Gors.OutgoingPathShape` | gors.go:133-138 | the path is the cleaned join (empty only when both parts are); without a trailing '/' on the request path it ends in '/' only when it is "/"; with one it ends in '/', and in "//" exactly when the join is "/" |
| `Gors.OutgoingPathRoot` | gors.go:134-138 | request path "/" under base path "" or "/" yields "//" |
| `Gors.OutgoingPathItems` | gors.go:134-138 | request path "/items" under an empty base path yields "/items" |
| `Gors.OutgoingPathNames` | gors.go:133-138 | for any base and request paths without ".." elements: the names of the base path then those of the request path, with "" and "." elements dropped, joined by single '/'s, under the root when the joined text is rooted ("." for a relative join that names nothing), plus one '/' when the request path ends in '/' |
| `Gors.OutgoingPathTwoNames` | gors.go:133-138 | base path "/x" and request path "/y/" for ordinary names x and y give "/x/y/" |
| `Gors.OutgoingPathVersioned` | gors.go:133-138 | request path "/items/" under base path "/v1" yields "/v1/items/" |
| `Gors.OutgoingPathPlainName` | gors.go:134-138 | an ordinary request name under any base path: the name alone under "" or a base path that cleans to ".", "/" then the name under one that cleans to "/", and otherwise the cleaned base path, one '/', then the name, however many separators the base path had |
| `GoPath.Clean` | gors.go:134 | path.Clean: the result is never empty, and it is rooted exactly when the input is |
| `GoPath.Join` | gors.go:134 | path.Join of the base path and the request path: "" exactly when both are "", and otherwise rooted exactly when the two texts one after the other are |
| `GoPath.CleanShape` | gors.go:134 | a cleaned path is never empty, ends in '/' only when it is "/", and is rooted exactly when its input was |
| `GoPath.CleanPlain` | gors.go:134 | an ordinary name is left as it is by cleaning |
| `GoPath.CleanIdempotent` | gors.go:134 | cleaning a cleaned path changes nothing |
| `GoPath.JoinShape` | gors.go:134 | Join is "" exactly when both parts are "", and otherwise is already clean and ends in '/' only when it is "/" |
| `GoPath.JoinRootRoot` | gors.go:134 | joining "/" onto "/" gives "/" |
| `GoPath.ResolveNames` | gors.go:134 | with no ".." element, cleaning the elements leaves exactly the names, all elements except "" and ".", in their order |
| `GoPath.JoinNames` | gors.go:134 | for paths without ".." elements, Join is the names of both paths in order with one '/' between neighbours, under the root when the joined text is rooted, "." when a relative join names nothing, and "" when both are empty |
| `GoPath.JoinPlain` | gors.go:134 | joining an ordinary name appends it to the cleaned path with one '/' (to "/" gives "/name", to "." gives the name alone) |
| `GoPath.SplitJoinElems` | gors.go:134 | splitting elements joined with '/' gives back the elements, when none contains '/' |
| `GoPath.JoinSplit` | gors.go:134 | joining the elements of a path gives back the path |
| `UrlValues.Add` | gors.go:156 | the key's value list becomes its old list followed by the new value; every other key's list is unchanged |
| `UrlValues.AddAll` | gors.go:153-159 | the merged query has the keys of both; for each Request key, the old values followed by the Request's value; other keys keep their values |
| `UrlValues.AddAllNothing` | gors.go:153-159 | a Request without query entries leaves the base URL's query as it was |
| `UrlValues.AddAllStep` | gors.go:155-157 | merging one more entry is one more Add |
| `UrlValues.AddCommutes` | gors.go:155-157 | Adds under different keys commute: the same two entries added in either order give the same query |
| `Gors.SendWithJSONResponse` | gors.go:187-210 | a failed dispatch gives the zero value, a nil response and the dispatch error, and nothing is read, decoded or closed; after a dispatch, the response is returned and its body is read exactly once, first, decoded at most once, and closed exactly once, last; decoding happens exactly when reading succeeded; a read failure gives the zero value and the read error; a decode failure gives the decode error and the value as decoding left it; the error is nil exactly when all three steps succeed, and then the value is the decoded one |
| `Gors.ItemsScenario` | gors.go:77-107 | with any URL parser that reads the base URL as scheme https, host api.example.com, empty path and no query: base URL https://api.example.com, default Authorization header, GET "/items", query q=v1: the path is "/items", the query is q=[v1] and the Authorization header is present; two Requests from one Client keep their own header values, and a later default header reaches neither |

## Left out

- The network round trip (`client.Do`) and the construction of the `*http.Request` have no visible logic. `SendWithJSONResponse` takes their combined outcome as the parameter `sent`. Either one failing gives a nil response and an error, as `SendWithCtx` returns.
- `Send`, contexts, the deadline derived from `Timeout`, and cancellation are left out. They concern timing and concurrency. The timeout is kept only as a Request field, in nanoseconds, as unbounded `int` rather than Go's `int64`.
- JSON marshalling and unmarshalling, `io.ReadAll` and `Body.Close` are parameters. `marshal`, `read` and `decode` are functions returning success or an error. Closing is recorded as a `Close` step.
- Values are formatted with `fmt.Sprintf("%v")` in Go. In the model, header and query values are strings.
- `url.Parse` is left out. `Prepare` takes the parser as a function parameter `parse` and applies it to the Request's own base URL. The error that the source ignores on a failed parse, followed by a nil dereference, is not modelled, so the base URL is assumed to parse.
- `URL.String`, percent-encoding and the key sorting of `url.Values.Encode` are left out. The model's query is the merged `url.Values` map before encoding. Likewise the model's path is `URL.Path` as set, not the text sent: for a URL with a host, `URL.String` puts a '/' in front of a relative path, so the path "items" (an ordinary name under an empty base path) goes out as "/items".
- Gors.Request.CopyHeaders: does not model the key canonicalisation of `http.Header.Set`. Keys are copied as written, so two keys that canonicalise alike are not merged.
- Gors.Client.SetDefaultHeaders: gives copy semantics, because Dafny maps are values. In Go the caller's map is aliased.
- Gors.Request.SetBody: gives copy semantics, because Dafny sequences are values. In Go the Request keeps the caller's slice, so later writes to it change the body that is sent.
- A Request made without `NewRequest` can have nil maps, and then `SetHeader` or `SetQuery` panics in Go. The model's Request maps are never nil.
