/**
  The gors HTTP helper: a Client that holds a base URL and default
  headers and hands out Requests; a Request that collects method, path,
  query, headers, body and timeout and is turned into an outgoing request;
  and the decision that SendWithJSONResponse takes over its three fallible
  steps (dispatch, read, decode).
*/
module Gors {
  import opened Wrappers
  import opened Maps
  import opened UrlValues
  import GoPath

  // HTTP method names offered to callers.
  const GET := "GET"
  const POST := "POST"
  const PUT := "PUT"
  const DELETE := "DELETE"
  const HEAD := "HEAD"
  const PATCH := "PATCH"
  const OPTIONS := "OPTIONS"

  /** A `time.Duration`: a count of nanoseconds. */
  type Duration = int

  const Second: Duration := 1_000_000_000

  /** The timeout every new Request starts with. */
  const DefaultTimeout: Duration := 10 * Second

  newtype byte = x: int | 0 <= x < 256

  type Bytes = seq<byte>

  /** Header name to value, as the Request keeps them. */
  type Header = map<string, string>

  /** An error value returned by a step; its text is all the helper passes on. */
  datatype Error = Error(message: string)

  /** The parts of a parsed URL that building the request reads or changes. */
  datatype URL = URL(scheme: string, host: string, path: string, query: Values)

  /** The request as built before it is written out as text: method, URL
      (with its path as set, before `URL.String` renders it), headers and
      body. */
  datatype Outgoing = Outgoing(verb: string, url: URL, header: Header, body: Bytes)

  predicate HasTrailingSlash(s: string) {
    |s| > 0 && s[|s| - 1] == '/'
  }

  /** The path of the outgoing URL: the base URL's path joined with the
      request path, with one '/' put back when the request path ended in one. */
  function OutgoingPath(basePath: string, reqPath: string): (o: string)
    ensures o == "" <==> basePath == "" && reqPath == ""
    ensures o != "" ==> (o[0] == '/' <==> (basePath + reqPath)[0] == '/')
    ensures HasTrailingSlash(reqPath) ==> HasTrailingSlash(o)
  {
    var joined := GoPath.Join(basePath, reqPath);
    if HasTrailingSlash(reqPath) then joined + "/" else joined
  }

  /**
    The outgoing path is the cleaned join, which never ends in '/' unless it
    is the root. A request path ending in '/' adds one '/' to it, so the
    result ends in a single '/' except when the join is the root, which
    gives "//".
  */
  lemma OutgoingPathShape(basePath: string, reqPath: string)
    ensures var o := OutgoingPath(basePath, reqPath);
      var joined := GoPath.Join(basePath, reqPath);
      && (o == "" <==> basePath == "" && reqPath == "")
      && (joined != "" ==> joined == GoPath.Clean(joined))
      && (!HasTrailingSlash(reqPath) ==> o == joined && (HasTrailingSlash(o) ==> o == "/"))
      && (HasTrailingSlash(reqPath) ==>
            |o| >= 2 && o[|o| - 1] == '/' && (o[|o| - 2] == '/' <==> joined == "/"))
  {
    GoPath.JoinShape(basePath, reqPath);
  }

  /** A root request path under a base URL with no path gives "//". */
  lemma OutgoingPathRoot()
    ensures OutgoingPath("", "/") == "//"
    ensures OutgoingPath("/", "/") == "//"
  {
    GoPath.CleanRoot();
    GoPath.JoinRootRoot();
  }

  /** Under a base URL with no path, "/items" is sent as "/items". */
  lemma OutgoingPathItems()
    ensures OutgoingPath("", "/items") == "/items"
  {
    GoPath.JoinRootedName("items");
    assert "/" + "items" == "/items";
    assert !HasTrailingSlash("/items");
  }

  /** An ordinary request name under any base path: alone under an empty
      base path or one that cleans to ".", after the root under one that
      cleans to "/", and otherwise after the cleaned base path and one '/',
      however many separators the base path ends in. */
  lemma OutgoingPathPlainName(basePath: string, name: string)
    requires GoPath.Plain(name)
    ensures OutgoingPath(basePath, name) ==
      if basePath == "" then name
      else if GoPath.Clean(basePath) == "/" then "/" + name
      else if GoPath.Clean(basePath) == "." then name
      else GoPath.Clean(basePath) + "/" + name
  {
    assert !HasTrailingSlash(name);
    if basePath == "" {
      GoPath.CleanPlain(name);
    } else {
      GoPath.JoinPlain(basePath, name);
    }
  }

  /**
    Without ".." elements in either path, the outgoing path is the names of
    the base path followed by those of the request path, one '/' between
    neighbours (runs of separators and "." elements collapse), under the
    root when the joined text is rooted, plus one '/' when the request path
    ends in one.
  */
  lemma OutgoingPathNames(basePath: string, reqPath: string)
    requires GoPath.NoParent(GoPath.Split(basePath)) && GoPath.NoParent(GoPath.Split(reqPath))
    ensures var ns := GoPath.Names(GoPath.Split(basePath) + GoPath.Split(reqPath));
      var joined := if basePath == "" && reqPath == "" then ""
                    else if (basePath + reqPath)[0] == '/' then "/" + GoPath.JoinElems(ns)
                    else if ns == [] then "." else GoPath.JoinElems(ns);
      OutgoingPath(basePath, reqPath) == if HasTrailingSlash(reqPath) then joined + "/" else joined
  {
    GoPath.JoinNames(basePath, reqPath);
  }

  /** Under base path "/v1", the request path "/items/" is sent as "/v1/items/". */
  lemma OutgoingPathVersioned()
    ensures OutgoingPath("/v1", "/items/") == "/v1/items/"
  {
    OutgoingPathTwoNames("v1", "items");
    assert "/" + "v1" == "/v1" && "/" + "items" + "/" == "/items/";
    assert "/" + "v1" + "/" + "items" + "/" == "/v1/items/";
  }

  /** A rooted one-name base path and a rooted one-name request path with a
      trailing '/' give both names under the root, and the '/' kept. */
  lemma OutgoingPathTwoNames(x: string, y: string)
    requires GoPath.Plain(x) && GoPath.Plain(y)
    ensures OutgoingPath("/" + x, "/" + y + "/") == "/" + x + "/" + y + "/"
  {
    var base, req := "/" + x, "/" + y + "/";
    assert GoPath.Join(base, req) == "/" + x + "/" + y by {
      GoPath.JoinTwoNames(x, y);
    }
    assert HasTrailingSlash(req);
  }

  class Client {
    var BaseURL: string
    /** `None` is Go's nil map: the state of a Client fresh from NewClient. */
    var DefaultHeaders: Option<Header>

    /** NewClient: a Client with the given base URL and no default headers. */
    constructor (baseUrl: string)
      ensures BaseURL == baseUrl && DefaultHeaders == None
    {
      BaseURL := baseUrl;
      DefaultHeaders := None;
    }

    /** The default headers, a nil map reading as an empty one. */
    function Defaults(): Header
      reads this
    {
      DefaultHeaders.GetOr(map[])
    }

    /** Replaces the whole default-header map; earlier entries are gone. */
    method SetDefaultHeaders(h: Option<Header>)
      modifies this`DefaultHeaders
      ensures DefaultHeaders == h
    {
      DefaultHeaders := h;
    }

    /** Upserts one default header, making the map first when it is nil. */
    method AddDefaultHeader(key: string, value: string)
      modifies this`DefaultHeaders
      ensures DefaultHeaders.Some?
      ensures DefaultHeaders.value == old(Defaults())[key := value]
    {
      if DefaultHeaders == None {
        DefaultHeaders := Some(map[]);
      }
      DefaultHeaders := Some(DefaultHeaders.value[key := value]);
    }

    /**
      A new Request for this Client's base URL, carrying a copy of every
      default header, an empty query and the default timeout. The Client is
      not changed.
    */
    method NewRequest(httpMethod: string, path: string) returns (r: Request)
      ensures fresh(r)
      ensures r.baseURL == BaseURL && r.Method == httpMethod && r.Path == path
      ensures r.Query == map[] && r.Body == [] && r.Timeout == DefaultTimeout
      ensures r.Headers == Defaults()
    {
      r := new Request(BaseURL, httpMethod, path);
      var defaults := Defaults();
      var pending := defaults.Keys;
      while pending != {}
        invariant pending <= defaults.Keys
        invariant r.baseURL == BaseURL && r.Method == httpMethod && r.Path == path
        invariant r.Query == map[] && r.Body == [] && r.Timeout == DefaultTimeout
        invariant r.Headers == Restrict(defaults, defaults.Keys - pending)
        decreases pending
      {
        var k :| k in pending;
        RestrictGrow(defaults, defaults.Keys - pending, k);
        assert (defaults.Keys - pending) + {k} == defaults.Keys - (pending - {k});
        r.SetHeader(k, defaults[k]);
        pending := pending - {k};
      }
      RestrictAll(defaults);
    }
  }

  class Request {
    var baseURL: string
    var Method: string
    var Path: string
    var Query: map<string, string>
    var Body: Bytes
    var Headers: Header
    var Timeout: Duration

    /** The Request value NewRequest starts from, before headers are copied. */
    constructor (baseURL: string, httpMethod: string, path: string)
      ensures this.baseURL == baseURL && Method == httpMethod && Path == path
      ensures Query == map[] && Headers == map[] && Body == [] && Timeout == DefaultTimeout
    {
      this.baseURL := baseURL;
      Method := httpMethod;
      Path := path;
      Query := map[];
      Headers := map[];
      Body := [];
      Timeout := DefaultTimeout;
    }

    method SetTimeout(d: Duration)
      modifies this`Timeout
      ensures Timeout == d
    {
      Timeout := d;
    }

    /** Last write wins on `key`; every other header is kept. */
    method SetHeader(key: string, value: string)
      modifies this`Headers
      ensures Headers == old(Headers)[key := value]
    {
      Headers := Headers[key := value];
    }

    /** Last write wins on `key`; every other query entry is kept. */
    method SetQuery(key: string, value: string)
      modifies this`Query
      ensures Query == old(Query)[key := value]
    {
      Query := Query[key := value];
    }

    method SetBody(body: Bytes)
      modifies this`Body
      ensures Body == body
    {
      Body := body;
    }

    /**
      Encodes `v` with `marshal` (the JSON encoder). On failure the error is
      returned and nothing changes; on success the body is the encoding and
      Content-Type is application/json, whatever it was before.
    */
    method SetJSONBody<V>(v: V, marshal: V -> Result<Bytes, Error>) returns (err: Option<Error>)
      modifies this`Body, this`Headers
      ensures marshal(v).Failure? ==>
        err == Some(marshal(v).error) && Body == old(Body) && Headers == old(Headers)
      ensures marshal(v).Success? ==>
        err == None && Body == marshal(v).value &&
        Headers == old(Headers)["Content-Type" := "application/json"]
    {
      var j := marshal(v);
      if j.Failure? {
        return Some(j.error);
      }
      Body := j.value;
      SetHeader("Content-Type", "application/json");
      return None;
    }

    /**
      The request as it is handed to the transport, with `parse` (the URL
      parser) applied to this Request's base URL: the path joined as
      OutgoingPath says,
      every query entry added to the values the base URL already had, and
      this Request's method, headers and body.
    */
    method Prepare(parse: string -> URL) returns (out: Outgoing)
      ensures out.verb == Method && out.body == Body && out.header == Headers
      ensures out.url == parse(baseURL).(path := OutgoingPath(parse(baseURL).path, Path),
                                         query := AddAll(parse(baseURL).query, Query))
    {
      var u := parse(baseURL);
      u := u.(path := GoPath.Join(u.path, Path));
      if HasTrailingSlash(Path) {
        u := u.(path := u.path + "/");
      }
      var header := CopyHeaders();
      var q := AddQuery(u.query);
      u := u.(query := q);
      out := Outgoing(Method, u, header, Body);
    }

    /** Sets every header of this Request, one at a time, on an empty header map. */
    method CopyHeaders() returns (header: Header)
      ensures header == Headers
    {
      header := map[];
      var unset := Headers.Keys;
      while unset != {}
        invariant unset <= Headers.Keys
        invariant header == Restrict(Headers, Headers.Keys - unset)
        decreases unset
      {
        var k :| k in unset;
        RestrictGrow(Headers, Headers.Keys - unset, k);
        assert (Headers.Keys - unset) + {k} == Headers.Keys - (unset - {k});
        header := header[k := Headers[k]];
        unset := unset - {k};
      }
      RestrictAll(Headers);
    }

    /** Adds every query entry of this Request, one at a time, to `base`. */
    method AddQuery(base: Values) returns (q: Values)
      ensures q == AddAll(base, Query)
    {
      q := base;
      var pending := Query.Keys;
      AddAllNothing(base);
      assert Restrict(Query, Query.Keys - pending) == map[];
      while pending != {}
        invariant pending <= Query.Keys
        invariant q == AddAll(base, Restrict(Query, Query.Keys - pending))
        decreases pending
      {
        var k :| k in pending;
        var done := Restrict(Query, Query.Keys - pending);
        var next := Restrict(Query, Query.Keys - (pending - {k}));
        RestrictGrow(Query, Query.Keys - pending, k);
        assert (Query.Keys - pending) + {k} == Query.Keys - (pending - {k});
        assert next == done[k := Query[k]];
        AddAllStep(base, done, k, Query[k]);
        q := Add(q, k, Query[k]);
        assert q == AddAll(base, next);
        pending := pending - {k};
      }
      RestrictAll(Query);
    }
  }

  /** The steps SendWithJSONResponse takes on a response, in order. */
  datatype Step = Read | Decode | Close

  /** What JSON decoding into a fresh zero T leaves: the value, or the
      partly filled value together with the error. */
  datatype Decoded<T> = Decoded(value: T) | DecodeFailed(partial: T, error: Error)

  /** The three results of SendWithJSONResponse, with the steps it took. */
  datatype JSONResponse<T, R> = JSONResponse(value: T, response: Option<R>, err: Option<Error>, steps: seq<Step>)

  /**
    SendWithJSONResponse over the outcome `sent` of dispatching the request,
    the zero value of T, the body reader and the JSON decoder.
  */
  function SendWithJSONResponse<T, R>(sent: Result<R, Error>, zero: T,
                                      read: R -> Result<Bytes, Error>,
                                      decode: Bytes -> Decoded<T>): (out: JSONResponse<T, R>)
    // A failed dispatch yields the zero value, no response and its error,
    // and nothing is read, decoded or closed.
    ensures sent.Failure? ==>
      out.value == zero && out.response == None && out.err == Some(sent.error) && out.steps == []
    // A received response is returned; its body is read once, first, decoded
    // at most once, and closed exactly once, last.
    ensures sent.Success? ==>
      out.response == Some(sent.value) && |out.steps| >= 2 &&
      out.steps[0] == Read && out.steps[|out.steps| - 1] == Close &&
      multiset(out.steps)[Close] == 1 &&
      multiset(out.steps)[Read] == 1 && multiset(out.steps)[Decode] <= 1
    // Decoding is attempted exactly when a body was read.
    ensures Decode in out.steps <==> sent.Success? && read(sent.value).Success?
    // A failed read yields the zero value and the read error.
    ensures sent.Success? && read(sent.value).Failure? ==>
      out.value == zero && out.err == Some(read(sent.value).error)
    // A failed decode yields the decoder's error and what it left in the value.
    ensures sent.Success? && read(sent.value).Success? && decode(read(sent.value).value).DecodeFailed? ==>
      out.err == Some(decode(read(sent.value).value).error) &&
      out.value == decode(read(sent.value).value).partial
    // There is no error exactly when all three steps succeed, and then the
    // value is the decoded one.
    ensures out.err == None <==>
      sent.Success? && read(sent.value).Success? && decode(read(sent.value).value).Decoded?
    ensures out.err == None ==> out.value == decode(read(sent.value).value).value
  {
    match sent
    case Failure(e) => JSONResponse(zero, None, Some(e), [])
    case Success(res) =>
      match read(res)
      case Failure(e) => JSONResponse(zero, Some(res), Some(e), [Read, Close])
      case Success(body) =>
        match decode(body)
        case DecodeFailed(partial, e) => JSONResponse(partial, Some(res), Some(e), [Read, Decode, Close])
        case Decoded(v) => JSONResponse(v, Some(res), None, [Read, Decode, Close])
  }

  /**
    A worked example: a Client for https://api.example.com with an
    Authorization default header, a GET of "/items" with query q=v1. Two
    further Requests show that headers are copied, not shared. `parse`
    stands for the URL parser, of which only its result on the base URL
    matters.
  */
  method ItemsScenario(parse: string -> URL) returns (out: Outgoing, first: Header, second: Header)
    requires parse("https://api.example.com") == URL("https", "api.example.com", "", map[])
    ensures out.verb == GET
    ensures out.url.path == "/items" && out.url.query == map["q" := ["v1"]]
    ensures out.header == map["Authorization" := "Bearer t"]
    ensures first == map["Authorization" := "Bearer t", "X" := "1"]
    ensures second == map["Authorization" := "Bearer t", "X" := "2"]
  {
    var c := new Client("https://api.example.com");
    c.AddDefaultHeader("Authorization", "Bearer t");
    var r := c.NewRequest(GET, "/items");
    r.SetQuery("q", "v1");
    OutgoingPathItems();
    out := r.Prepare(parse);
    var added := AddAll(map[], map["q" := "v1"]);
    assert added.Keys == {"q"} && added["q"] == ["v1"];
    assert added == map["q" := ["v1"]];

    var r1 := c.NewRequest(GET, "/items");
    var r2 := c.NewRequest(GET, "/items");
    r1.SetHeader("X", "1");
    r2.SetHeader("X", "2");
    c.AddDefaultHeader("Y", "later");
    first, second := r1.Headers, r2.Headers;
  }
}
