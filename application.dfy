/** `App`: the route table, the request handler that walks it, parameter binding and
    response shaping. */
module Application {
  import opened Wrappers
  import opened PhpValues
  import opened Routing

  /** One declared handler parameter, as reflection reports it: its name and, when the
      declaration has one, its default value. */
  datatype ParamDecl = ParamDecl(name: string, default: Option<Value>)

  /** A handler: its declared parameters and what calling it with an argument list returns. */
  datatype Handler = Handler(params: seq<ParamDecl>, call: seq<Value> -> Value)

  /** One entry of the route table. */
  datatype RouteEntry = RouteEntry(verb: string, template: Template, handler: Handler)

  /** The two request fields dispatch reads; either may be missing. */
  datatype Request = Request(requestMethod: Option<string>, requestUri: Option<string>)

  /** What the handler writes to the Swoole response. */
  datatype Response = Response(status: int, headers: seq<(string, string)>, body: string)

  const DefaultHost := "0.0.0.0"
  const DefaultPort := 9501

  /** The fixed response when no route takes the request. */
  const NotFound := Response(404, [], "<h1>404 Not Found</h1>")

  /** The method dispatch compares with: upper-cased, `GET` when missing. */
  function RequestMethod(req: Request): (m: string)
    ensures req.requestMethod.None? ==> m == "GET"
    ensures req.requestMethod.Some? ==> m == Upper(req.requestMethod.value)
  {
    Upper(req.requestMethod.GetOr("GET"))
  }

  /** The URI dispatch matches: `/` when missing. */
  function RequestUri(req: Request): (u: string)
    ensures req.requestUri.None? ==> u == "/"
    ensures req.requestUri.Some? ==> u == req.requestUri.value
  {
    req.requestUri.GetOr("/")
  }

  /** A route takes a request when its stored method equals the request method exactly
      and its pattern matches the whole URI. */
  predicate Accepts(r: RouteEntry, verb: string, uri: string) {
    r.verb == verb && Match(r.template, uri).Some?
  }

  /** The position of the first route, from position from on, that takes the request. */
  function FirstMatchFrom(routes: seq<RouteEntry>, verb: string, uri: string, from: nat): (r: Option<nat>)
    ensures r.Some? ==> from <= r.value < |routes| && Accepts(routes[r.value], verb, uri)
    ensures r.Some? ==> forall j :: from <= j < r.value ==> !Accepts(routes[j], verb, uri)
    ensures r.None? ==> forall j :: from <= j < |routes| ==> !Accepts(routes[j], verb, uri)
    decreases |routes| - from
  {
    if from >= |routes| then None
    else if Accepts(routes[from], verb, uri) then Some(from)
    else FirstMatchFrom(routes, verb, uri, from + 1)
  }

  function FirstMatch(routes: seq<RouteEntry>, verb: string, uri: string): Option<nat> {
    FirstMatchFrom(routes, verb, uri, 0)
  }

  /** The argument for one declared parameter: the capture, else the default, else null. */
  function ArgFor(p: ParamDecl, caps: Captures): Value {
    match Lookup(caps, p.name)
    case Some(v) => Str(v)
    case None => p.default.GetOr(Null)
  }

  /** The argument list: one entry per declared parameter, in declaration order, never an error. */
  function Arguments(params: seq<ParamDecl>, caps: Captures): (args: seq<Value>)
    ensures |args| == |params|
    ensures forall i :: 0 <= i < |params| && Lookup(caps, params[i].name).Some? ==>
              args[i] == Str(Lookup(caps, params[i].name).value)
    ensures forall i :: 0 <= i < |params| && Lookup(caps, params[i].name).None? && params[i].default.Some? ==>
              args[i] == params[i].default.value
    ensures forall i :: 0 <= i < |params| && Lookup(caps, params[i].name).None? && params[i].default.None? ==>
              args[i] == Null
  {
    seq(|params|, i requires 0 <= i < |params| => ArgFor(params[i], caps))
  }

  /** The response for a handler's result: arrays as JSON, everything else as HTML text. */
  function Shape(result: Value, encode: Value -> string): (resp: Response)
    ensures resp.status == 200
    ensures result.Arr? ==> resp.headers == [("Content-Type", "application/json")] && resp.body == encode(result)
    ensures !result.Arr? ==> resp.headers == [("Content-Type", "text/html; charset=UTF-8")] && resp.body == ToText(result)
  {
    if result.Arr? then Response(200, [("Content-Type", "application/json")], encode(result))
    else Response(200, [("Content-Type", "text/html; charset=UTF-8")], ToText(result))
  }

  /** Calls the route's handler with the arguments bound from the URI's captures. */
  function Invoke(r: RouteEntry, uri: string, encode: Value -> string): Response
    requires Match(r.template, uri).Some?
  {
    Shape(r.handler.call(Arguments(r.handler.params, Match(r.template, uri).value)), encode)
  }

  /** The response the request closure of `run()` produces for a request. */
  function Dispatch(routes: seq<RouteEntry>, req: Request, encode: Value -> string): Response {
    var verb := RequestMethod(req);
    var uri := RequestUri(req);
    match FirstMatch(routes, verb, uri)
    case None => NotFound
    case Some(i) => Invoke(routes[i], uri, encode)
  }

  /** First match wins: the earliest route taking the request serves it, whatever follows. */
  lemma FirstRouteWins(routes: seq<RouteEntry>, req: Request, encode: Value -> string, i: nat)
    requires i < |routes| && Accepts(routes[i], RequestMethod(req), RequestUri(req))
    requires forall j :: 0 <= j < i ==> !Accepts(routes[j], RequestMethod(req), RequestUri(req))
    ensures Dispatch(routes, req, encode) == Invoke(routes[i], RequestUri(req), encode)
  {
  }

  lemma {:induction false} FirstMatchFromAppend(routes: seq<RouteEntry>, extra: seq<RouteEntry>, verb: string, uri: string, from: nat)
    requires from <= |routes|
    requires FirstMatchFrom(routes, verb, uri, from).Some?
    ensures FirstMatchFrom(routes + extra, verb, uri, from) == FirstMatchFrom(routes, verb, uri, from)
    decreases |routes| - from
  {
    assert (routes + extra)[from] == routes[from];
    if !Accepts(routes[from], verb, uri) {
      FirstMatchFromAppend(routes, extra, verb, uri, from + 1);
    }
  }

  /** Routes registered later never change the response to a request an earlier route serves. */
  lemma LaterRoutesUnconsulted(routes: seq<RouteEntry>, extra: seq<RouteEntry>, req: Request, encode: Value -> string)
    requires FirstMatch(routes, RequestMethod(req), RequestUri(req)).Some?
    ensures Dispatch(routes + extra, req, encode) == Dispatch(routes, req, encode)
  {
    FirstMatchFromAppend(routes, extra, RequestMethod(req), RequestUri(req), 0);
    var i := FirstMatch(routes, RequestMethod(req), RequestUri(req)).value;
    assert (routes + extra)[i] == routes[i];
  }

  /** The response is the fixed 404 exactly when no route takes the request; every served
      request gets status 200. */
  lemma NotFoundIff(routes: seq<RouteEntry>, req: Request, encode: Value -> string)
    ensures Dispatch(routes, req, encode).status == 404 <==>
              forall j :: 0 <= j < |routes| ==> !Accepts(routes[j], RequestMethod(req), RequestUri(req))
    ensures Dispatch(routes, req, encode).status == 404 ==> Dispatch(routes, req, encode) == NotFound
  {
  }

  /** One route of the route table stored by `route()`: upper-cased method, compiled template. */
  function Compile(verb: string, path: string, handler: Handler): (r: RouteEntry)
    ensures r.verb == Upper(verb) && r.handler == handler
    ensures r.template == Parse(path) && Render(r.template) == path
  {
    RenderParse(path);
    RouteEntry(Upper(verb), Parse(path), handler)
  }

  /** A handler that returns its first argument. */
  function FirstArgument(args: seq<Value>): Value {
    if |args| > 0 then args[0] else Null
  }

  /** The handler of `/quiz/{page}`: one parameter `page`, no default, returned as is. */
  const QuizHandler := Handler([ParamDecl("page", None)], FirstArgument)

  /** The route that `route("get", "/quiz/{page}", ...)` stores. */
  const QuizRoute := Compile("get", "/quiz/{page}", QuizHandler)

  /** The same entry written out: method `GET`, a literal and one placeholder. */
  const QuizEntry := RouteEntry("GET", [Lit("/quiz/"), Param("page")], QuizHandler)

  lemma UpperGet()
    ensures Upper("get") == "GET"
  {
    assert Upper("get")[0] == 'G' && Upper("get")[1] == 'E' && Upper("get")[2] == 'T';
  }

  /** `route()` stores the quiz route as the written-out entry. */
  lemma QuizRouteShape()
    ensures QuizRoute == QuizEntry
  {
    ParseQuiz();
    UpperGet();
  }

  /** The quiz pattern captures `page` = "intro" from `/quiz/intro`. */
  lemma QuizCaptures()
    ensures Match(QuizEntry.template, "/quiz/intro") == Some([("page", "intro")])
  {
    var t := QuizEntry.template;
    assert t[1..] == [Param("page")] && t[1..][1..] == [];
    assert ParamNames(t) == ["page"];
    assert Instantiate(t, ["intro"]) == "/quiz/" + "intro" == "/quiz/intro";
    assert SlashDelimited(t);
    MatchDelimited(t, "/quiz/intro", ["intro"]);
    var c := Match(t, "/quiz/intro").value;
    CapturesOf(c, ["page"], ["intro"]);
    assert c == [c[0]];
  }

  lemma QuizEntryServes(encode: Value -> string)
    ensures Dispatch([QuizEntry], Request(Some("get"), Some("/quiz/intro")), encode)
            == Response(200, [("Content-Type", "text/html; charset=UTF-8")], "intro")
  {
    QuizCaptures();
    UpperGet();
    var c := [("page", "intro")];
    assert Lookup(c, "page") == Some("intro");
    assert Arguments(QuizEntry.handler.params, c) == [Str("intro")];
  }

  lemma QuizEntryRejects(encode: Value -> string)
    ensures Dispatch([QuizEntry], Request(None, Some("/does/not/exist")), encode) == NotFound
  {
    var u := "/does/not/exist";
    assert u[1] != "/quiz/"[1];
    assert Match(QuizEntry.template, u).None?;
  }

  /** `get /quiz/intro`, against the route `route("get", "/quiz/{page}", ...)` registers
      with a handler returning its `page` parameter, is answered 200, as HTML, with body
      `intro`. */
  lemma QuizServed(encode: Value -> string)
    ensures Dispatch([QuizRoute], Request(Some("get"), Some("/quiz/intro")), encode)
            == Response(200, [("Content-Type", "text/html; charset=UTF-8")], "intro")
  {
    QuizRouteShape();
    QuizEntryServes(encode);
  }

  /** `/does/not/exist` against the same route table gets the fixed 404. */
  lemma QuizNotFound(encode: Value -> string)
    ensures Dispatch([QuizRoute], Request(None, Some("/does/not/exist")), encode) == NotFound
  {
    QuizRouteShape();
    QuizEntryRejects(encode);
  }

  /** The application: its listen address and its ordered route table. */
  class App {
    const host: string
    const port: int
    var routes: seq<RouteEntry>

    /** `new App($host = '0.0.0.0', $port = 9501)`. */
    constructor (host: string := DefaultHost, port: int := DefaultPort)
      ensures this.host == host && this.port == port && routes == []
    {
      this.host := host;
      this.port := port;
      routes := [];
    }

    /** `route()`: appends one entry; earlier entries and their order are unchanged. */
    method Route(verb: string, path: string, handler: Handler)
      modifies this
      ensures routes == old(routes) + [Compile(verb, path, handler)]
      ensures routes[..|old(routes)|] == old(routes)
    {
      routes := routes + [Compile(verb, path, handler)];
    }

    /** Builds `$invokeArgs` by pushing one argument per declared parameter. */
    static method BindArguments(params: seq<ParamDecl>, caps: Captures) returns (args: seq<Value>)
      ensures args == Arguments(params, caps)
    {
      args := [];
      for i := 0 to |params|
        invariant args == Arguments(params[..i], caps)
      {
        var name := params[i].name;
        match Lookup(caps, name) {
          case Some(v) =>
            args := args + [Str(v)];
          case None =>
            args := args + [if params[i].default.Some? then params[i].default.value else Null];
        }
        assert params[..i + 1] == params[..i] + [params[i]];
      }
      assert params[..|params|] == params;
    }

    /** The request closure of `run()`: walks the routes in order and answers with the first
        one that takes the request, or with the fixed 404. */
    method HandleRequest(req: Request, encode: Value -> string) returns (resp: Response)
      ensures resp == Dispatch(routes, req, encode)
    {
      var uri := req.requestUri.GetOr("/");
      var verb := Upper(req.requestMethod.GetOr("GET"));
      var i := 0;
      while i < |routes|
        invariant 0 <= i <= |routes|
        invariant forall j :: 0 <= j < i ==> !Accepts(routes[j], verb, uri)
      {
        var route := routes[i];
        if route.verb == verb {
          var matches := Match(route.template, uri);
          if matches.Some? {
            var invokeArgs := BindArguments(route.handler.params, matches.value);
            var result := route.handler.call(invokeArgs);
            if result.Arr? {
              resp := Response(200, [("Content-Type", "application/json")], encode(result));
            } else {
              resp := Response(200, [("Content-Type", "text/html; charset=UTF-8")], ToText(result));
            }
            FirstRouteWins(routes, req, encode, i);
            return;
          }
        }
        i := i + 1;
      }
      resp := NotFound;
    }
  }
}
