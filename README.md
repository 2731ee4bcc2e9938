# ZealPHP core, modelled in Dafny

ZealPHP is a PHP framework that runs on an OpenSwoole HTTP server. This project models
four parts of its core and proves properties about them:

- **routing and dispatch** (`App`) — `route()` compiles a pattern with `{name}` placeholders
  into an anchored regular expression, and stores it with the upper-cased method and the
  handler. The request closure of `run()` serves a request with the first stored route
  whose method and pattern both match. It binds the named captures to the handler's
  declared parameters by name: the capture, else the parameter's default, else null. It
  then answers JSON for an array result and HTML for anything else. When no route
  matches, it answers the fixed 404 page.
- **the coroutine context store** (`G`) — `set` writes into the current coroutine's
  context. `get` walks from the current coroutine up its parent chain, returns the value
  in the nearest context where the key is set (not null), and otherwise returns the
  default or throws `InvalidArgumentException`. `init` seeds the superglobal keys with
  empty arrays.
- **the `php://input` stream** (`IOStreamWrapper`) — a read cursor over the request body.
- **the process-isolation helpers** (`prefork_request_handler`, `coprocess`) and the
  string helpers `indent` and `zapi`.
  - The prefork worker writes its output to a pipe. When a fault left no output, it writes
    the sentinel `"EOF"` instead. Alongside, it pushes an envelope of status, headers and
    length.
  - The parent drains the pipe while reads return full 8192-byte chunks, maps a received
    `"EOF"` to the empty body, and applies the envelope's status and headers to the outer
    response.

Files, one module each:

| file | module | models |
|---|---|---|
| `wrappers.dfy` | `Wrappers` | `Option`, `Result` |
| `php_values.dfy` | `PhpValues` | PHP values, truthiness, string conversion, `strtoupper` |
| `routing.dfy` | `Routing` | the pattern compiler of `route()` and the regex match it feeds |
| `application.dfy` | `Application` | the `App` class: route table, dispatch, parameter binding, response shaping |
| `context_store.dfy` | `ContextStore` | `G::init`, `G::set`, `G::get` over a coroutine tree |
| `input_stream.dfy` | `InputStream` | the `php://input` branch of `IOStreamWrapper` |
| `isolated_executor.dfy` | `IsolatedExecutor` | `prefork_request_handler`, `coprocess` |
| `text_utils.dfy` | `TextUtils` | `indent`, `zapi` |

How the model is built:

- **Data.** Strings are `seq<char>` (one char per byte). A handler is a list of declared
  parameters plus a function from arguments to a PHP value. JSON encoding is a parameter
  of dispatch.
- **Routes.** A compiled route is a template of literal and placeholder segments. `Match`
  works out what `preg_match` does on the compiled pattern: it is anchored at both ends,
  `[^/]+` captures are tried greedily and backtracked, and the named captures come
  back in order.
- **Coroutines and the context store.** The coroutine tree is a parent array, with one
  context map per coroutine. `G::get` is an imperative walk, proved equal to the
  recursive `Find`.
- **The worker process.** Its pipe is the list of results of successive `read()` calls. A
  worker's run is a value (`TaskRun`): its output, the response code it set, its headers,
  and the exception that escaped. The outer response is a `ResponseSink` that records the
  calls made on it.

The model follows the code on these points:

- the 404 answer sets no headers;
- served routes get status 200 only by the server's default;
- parameters take no reserved names (such as the request or the response); every unknown
  parameter gets its default or null;
- the sentinel check is on the whole body, and nothing guards against a genuine `"EOF"`;
- `Process::wait($wait)` does not change what the parent reads: with `wait = false` it
  still reads the pipe and pops the queue.

## Model

| member | source | states |
|---|---|---|
| PhpValues.Upper | src/App.php:24 | `strtoupper`: same length, each ASCII lower-case letter replaced by its capital, every other byte kept, and no lower-case letter left |
| Routing.Parse | src/App.php:20 | every placeholder the compiler produces has a non-empty name free of `}` |
| Routing.RenderParse | src/App.php:20 | compiling loses nothing: rendering the compiled template back gives the registered path |
| Routing.ParsePlaceholder | src/App.php:20 | a `{name}` at the front of a path becomes one placeholder named `name`, followed by the compiled rest |
| Routing.ParseLitStep | src/App.php:20 | a character other than `{` in front of a path joins the leading literal of the compiled rest |
| Routing.ParseParamStep | src/App.php:20 | a character other than `{` in front of a placeholder (or of nothing) starts a literal of its own |
| Routing.ParseTextBefore | src/App.php:20 | `{`-free text in front of a placeholder (or of nothing) compiles to one literal, followed by the compiled rest |
| Routing.ParseLitThenParam | src/App.php:20 | `{`-free text followed by `{name}` compiles to that literal, then a placeholder named `name`, then the compiled rest |
| Routing.ParseUserPost | src/App.php:20 | `/user/{id}/post/{postId}` compiles to literal `/user/`, placeholder `id`, literal `/post/`, placeholder `postId` |
| Routing.ParseQuiz | src/App.php:20 | `/quiz/{page}` compiles to literal `/quiz/` and placeholder `page` |
| Routing.MatchSound | src/App.php:20-21 | when the anchored pattern matches, the captured names are exactly the template's placeholders in order, and substituting the captured values (each non-empty and slash-free) rebuilds the whole URI |
| Routing.MatchComplete | src/App.php:20-21 | whenever some slash-free non-empty values substituted into the template give the URI, the pattern matches (backtracking finds them) |
| Routing.MatchIff | src/App.php:20-21 | a URI matches exactly when it is the template instantiated with some admissible values |
| Routing.FitsUnique | src/App.php:20-21 | for a template whose placeholders are each followed by a `/` or the end, at most one list of values rebuilds a given URI |
| Routing.MatchDelimited | src/App.php:20-21 | for such a template, the match captures precisely the values that rebuild the URI |
| Routing.UserPostMatches | src/App.php:20-40 | the compiled `/user/{id}/post/{postId}` (see `ParseUserPost`) against `/user/42/post/7` captures `id` = 42 and `postId` = 7, in that order |
| Routing.UserPostRejectsPrefix | src/App.php:20-39 | the same pattern does not match the shorter `/user/42/post`: the match is anchored at the end |
| Routing.Lookup | src/App.php:52-53 | a named capture is found exactly when the name was captured, and the value returned is the one captured under that name |
| Application.RequestMethod | src/App.php:36 | the method compared is the request method upper-cased, or `GET` when there is none |
| Application.RequestUri | src/App.php:35 | the URI matched is the request URI, or `/` when there is none |
| Application.FirstMatchFrom | src/App.php:38-39 | the index found is of a route taking the request, and no earlier route takes it; none is found only when no route does |
| Application.Arguments | src/App.php:49-60 | one argument per declared parameter, in declaration order: the capture when that name was captured, else the parameter's default, else null |
| Application.Shape | src/App.php:64-71 | status 200; an array result is sent as `application/json` with its encoding, anything else as `text/html; charset=UTF-8` with its string conversion |
| Application.FirstRouteWins | src/App.php:38-73 | the earliest route that takes a request serves it, whatever routes follow |
| Application.LaterRoutesUnconsulted | src/App.php:38-73 | routes registered later never change the response to a request an earlier route serves |
| Application.NotFoundIff | src/App.php:76-78 | the answer is 404 exactly when no route takes the request, and then it is the fixed 404 page |
| Application.Compile | src/App.php:19-27 | a stored route has the upper-cased method, the given handler, and the compiled template of the registered path, which renders back to that path |
| Application.UpperGet | src/App.php:24 | `strtoupper("get")` is `GET` |
| Application.QuizRouteShape | src/App.php:17-28 | `route("get", "/quiz/{page}", ...)` stores method `GET`, the template literal `/quiz/` then placeholder `page`, and the handler |
| Application.QuizCaptures | src/App.php:20-40 | the compiled `/quiz/{page}` against `/quiz/intro` captures exactly `page` = `intro` |
| Application.QuizEntryServes | src/App.php:34-72 | the stored quiz entry answers `get /quiz/intro` with 200, HTML, body `intro` |
| Application.QuizEntryRejects | src/App.php:38-78 | the stored quiz entry leaves `/does/not/exist` to the fixed 404 |
| Application.QuizServed | src/App.php:17-72 | with the table that `route("get", "/quiz/{page}", ...)` builds, for a handler returning its `page` parameter, `get /quiz/intro` is answered 200, as HTML, with body `intro` |
| Application.QuizNotFound | src/App.php:38-78 | `/does/not/exist` against the same route table gets the fixed 404 |
| Application.App.constructor | src/App.php:11-15 | the listen address is the one given, by default `0.0.0.0` and `9501`, and the route table starts empty |
| Application.App.Route | src/App.php:17-28 | appends exactly one compiled route to the end of the table and changes nothing else |
| Application.App.BindArguments | src/App.php:49-60 | the loop builds exactly the argument list `Arguments` describes |
| Application.App.HandleRequest | src/App.php:34-79 | the loop over the route table produces exactly the response `Dispatch` describes (first match wins, 404 otherwise) |
| ContextStore.Chain | src/G.php:53-56 | the coroutines visited from c start at c, each next one is the previous one's parent, all of them are c or older, and the last one is a root (its parent is -1) |
| ContextStore.FindNearest | src/G.php:41-56 | the value found comes from the nearest context on the chain that sets the key; every nearer one leaves it unset |
| ContextStore.FindNoneIff | src/G.php:48-56 | nothing is found exactly when no context on the chain sets the key (null counts as unset) |
| ContextStore.FindOnlyReadsChain | src/G.php:48-54 | changing contexts off the chain (siblings, descendants, other trees) never changes what is found |
| ContextStore.ChainMembers | src/G.php:54 | coroutines created later, and siblings, are never on a coroutine's chain |
| ContextStore.OtherWriteInvisible | src/G.php:30-56 | a `set` in a coroutine that is not on the chain is invisible to `get` |
| ContextStore.ParentValueVisible | src/G.php:48-54 | a child that has not set a key sees its parent's value for it |
| ContextStore.DefaultOnlyWhenMissing | src/G.php:59-61 | the default plays no part when the key is found; otherwise a non-null default is returned, and a null default raises the error naming the key |
| ContextStore.Initialized | src/G.php:9-16 | after `init` the seven superglobal keys hold empty arrays, and every other key is untouched |
| ContextStore.Coroutines.constructor | src/G.php:39 | the runtime starts with one root coroutine, with an empty context, as the current coroutine |
| ContextStore.Coroutines.Create | src/G.php:54 | a new coroutine gets the next id, the given parent and an empty context, and runs; the tree stays a forest |
| ContextStore.Coroutines.Resume | src/G.php:39 | switching to another coroutine changes only which coroutine is current |
| ContextStore.Coroutines.Init | src/G.php:6-17 | only the current context changes, to its initialized form, and `get` then returns an empty array for every superglobal key |
| ContextStore.Coroutines.Set | src/G.php:30-33 | writes the key into the current context only, and a non-null value is then what `get` returns |
| ContextStore.Coroutines.Get | src/G.php:36-62 | the do-while walk returns exactly `Lookup`: the nearest set value, else the non-null default, else the not-found error |
| InputStream.Substr | src/IOStreamWrapper.php:81 | `substr` from a position inside the string: the next at most count bytes |
| InputStream.IOStreamWrapper.constructor | src/IOStreamWrapper.php:43-44 | the cursor is at 0 over an empty body |
| InputStream.IOStreamWrapper.StreamOpenInput | src/IOStreamWrapper.php:49-53 | opening loads the request body, puts the cursor at 0 and succeeds |
| InputStream.IOStreamWrapper.StreamRead | src/IOStreamWrapper.php:74-84 | returns the next at most count bytes of the body, moves the cursor past them, and keeps the bytes delivered equal to the body up to the cursor |
| InputStream.IOStreamWrapper.StreamEof | src/IOStreamWrapper.php:96-104 | end of stream exactly when the cursor has reached the end, and then every byte of the body has been delivered |
| InputStream.IOStreamWrapper.StreamTell | src/IOStreamWrapper.php:143-151 | reports the cursor, which lies within the body |
| InputStream.IOStreamWrapper.StreamRewind | src/IOStreamWrapper.php:123-131 | the cursor goes back to 0 over the same body |
| InputStream.IOStreamWrapper.StreamWrite | src/IOStreamWrapper.php:86-94 | writing is refused |
| InputStream.IOStreamWrapper.StreamSeek | src/IOStreamWrapper.php:133-141 | seeking is refused |
| InputStream.IOStreamWrapper.StreamTruncate | src/IOStreamWrapper.php:153-161 | truncating is refused |
| InputStream.IOStreamWrapper.StreamFlush | src/IOStreamWrapper.php:163-171 | flushing reports failure |
| InputStream.IOStreamWrapper.StreamLock | src/IOStreamWrapper.php:173-181 | locking is refused |
| InputStream.IOStreamWrapper.StreamStat | src/IOStreamWrapper.php:106-114 | the stat is an empty array |
| InputStream.IOStreamWrapper.StreamUrlStat | src/IOStreamWrapper.php:183-191 | url_stat is refused |
| InputStream.IOStreamWrapper.StreamUnlink | src/IOStreamWrapper.php:193-201 | unlinking is refused |
| IsolatedExecutor.Drain | src/utils.php:62-70 | the drain loop produces exactly the body `Drained` describes: read while a read is a full 8192-byte chunk, and stop without appending at an empty or false read |
| IsolatedExecutor.DrainedIsPrefix | src/utils.php:62-70 | what the loop collects is always a prefix of everything the pipe delivers |
| IsolatedExecutor.DrainStopsOnEmpty | src/utils.php:64-68 | after k full chunks, an empty or false read ends the loop and the body is exactly those k chunks |
| IsolatedExecutor.DrainKeepsShortRead | src/utils.php:62-69 | after full chunks, a short non-empty read ends the loop and is included |
| IsolatedExecutor.DrainOfChunked | src/utils.php:62-70 | over a pipe that hands out the written bytes in full chunks and then the rest, the loop recovers exactly the bytes written |
| IsolatedExecutor.Received | src/utils.php:71-73 | a received `"EOF"` becomes the empty body; anything else passes unchanged |
| IsolatedExecutor.CompletedRoundTrip | src/utils.php:19-29 | on normal completion: exit code 0, the status is the code set or else 200, headers and length are carried over, and the body arrives intact exactly when it is not `"EOF"` |
| IsolatedExecutor.FaultedRoundTrip | src/utils.php:31-50 | on a fault: the status is the code set, else 200 for `ExitException` and 500 otherwise; headers, length and error are carried over; the partial output arrives only when it is truthy and not `"EOF"`, and the body is empty otherwise |
| IsolatedExecutor.SentinelCollision | src/utils.php:33-73 | a completed run printing `"EOF"`, a fault with no output and a fault with output `"0"` all reach the parent as the same empty body |
| IsolatedExecutor.EnvelopeCalls | src/utils.php:76-79 | applying an envelope sets the status first, then adds every header in order, and makes no other call |
| IsolatedExecutor.ResponseSink.SetStatus | src/utils.php:324-329 | records one status call at the end |
| IsolatedExecutor.ResponseSink.AddHeader | src/utils.php:317-322 | records one header call at the end |
| IsolatedExecutor.ApplyEnvelope | src/utils.php:76-79 | the calls made on the outer response are exactly `EnvelopeCalls` |
| IsolatedExecutor.CollectResult | src/utils.php:60-82 | the parent returns the drained body with the sentinel mapped, and applies the envelope |
| IsolatedExecutor.PreforkRequestHandler | src/utils.php:10-84 | from a worker's run: the body returned and the calls made on the outer response are those of the worker's write and envelope after the round trip |
| IsolatedExecutor.CoprocessExitCode | src/utils.php:98-105 | the coprocess worker exits with 0 or 1, and with 1 exactly when a non-exit exception escaped |
| IsolatedExecutor.Coprocess | src/utils.php:86-113 | with superglobals disabled it throws the fixed exception; otherwise it returns the first read of the pipe |
| IsolatedExecutor.CoprocessSingleRead | src/utils.php:110-112 | `coprocess` reads the pipe once: a caller gets at most the first 8192 bytes of the output |
| TextUtils.Split | src/utils.php:264 | `explode` on newline gives at least one piece, and no piece contains a newline |
| TextUtils.JoinSplit | src/utils.php:264-275 | joining the pieces back with newlines gives the original text |
| TextUtils.SplitJoin | src/utils.php:264-275 | splitting newline-joined, newline-free lines gives back the lines |
| TextUtils.Spaces | src/utils.php:266-271 | the indentation string is n spaces (none when n <= 0) |
| TextUtils.Indent | src/utils.php:262-276 | the number of lines is unchanged, each line is the original line preceded by n spaces (4 by default), and with n <= 0 the text comes back unchanged |
| TextUtils.StripTrailingSlashes | src/utils.php:173 | the result is a prefix of the path that does not end in `/`, and everything removed is `/` |
| TextUtils.AfterLastSlash | src/utils.php:173 | the result is the slash-free suffix that the last `/` of the path introduces |
| TextUtils.StripPhp | src/utils.php:173 | `.php` is removed when it ends the name and is not the whole of it; otherwise the name is kept |
| TextUtils.Zapi | src/utils.php:172-174 | the result is slash-free: the last path component, with `.php` removed exactly when it ends the component and is not the whole of it |
| TextUtils.ZapiOfScript | src/utils.php:172-174 | for a script `dir/name.php`, `zapi` gives back `name` |

## Left out

- Server start, the `echo` banner, the listening socket and OpenSwoole's event loop are I/O. `App::run` is modelled only as its request closure (`HandleRequest`).
- Routing.Match: real PCRE is not modelled.
  - `$` also matches before one final newline of the URI; the model requires the URI to end exactly.
  - The literal parts of a path are not regex-escaped by `route()`. A path holding regex metacharacters (`.`, `+`, `(`, `#`) therefore means something else to PCRE; the model treats literals as plain text.
  - The placeholder name is pasted into the pattern unchecked. A name that is not a valid group name, or one used twice, makes the pattern invalid, and then `preg_match` matches nothing. A name holding `>` (`{a>b}` gives `(?P<a>b>[^/]+)`) makes a valid pattern with a different meaning. The model treats every name as a plain group name in both cases.
- Application.Dispatch: a handler that throws, and a reflection failure, are not modelled. A handler is a total function.
- Application.Shape: JSON encoding is a parameter. `json_encode` failing (which returns false and sends an empty body) is not modelled.
- PhpValues.ToText: floats and objects are not modelled. Strings are byte sequences with no encoding.
- ContextStore:
  - The coroutine runtime (`co::getCid`, `co::getPcid`, `co::getContext`) is modelled by the `Coroutines` class, with `Create` and `Resume` standing for the scheduler.
  - A finished coroutine whose id `getPcid` no longer knows (where it returns false) is not modelled; every parent stays alive.
- ContextStore.Coroutines.Init: the aliasing of the superglobals to the context entries (`$_GET = &$context['get']`, and so on) is not modelled. Nor is the `request` entry, which that aliasing creates holding null; since `get` treats null as unset, it is invisible to `get`.
- `G::instance()` and the `G` singleton's fields (the current request and response, status, header list) are not part of this model.
- InputStream.IOStreamWrapper.StreamOpenInput takes the request body as a parameter instead of reading it from the current request. The passthrough branch for other `php://` streams restores the default wrapper and forwards every call to the real stream; that is I/O and is not modelled. `stream_close` does nothing on the `php://input` branch and is not modelled.
- InputStream.IOStreamWrapper.StreamRead: count is a natural number. The negative counts that `substr` would accept are not modelled.
- IsolatedExecutor:
  - Process creation, the pipe, the message queue, `Process::wait`, `exit`, and the `serialize`/`unserialize` of the envelope are I/O.
  - The pipe is the list of results of successive reads, and the envelope is passed as a value.
  - The queue's 65535-byte read limit is not modelled.
  - The `elog` calls are logging.
- IsolatedExecutor.Coprocess: whether superglobals are enabled is a parameter (`App::$superglobals` is not declared in this `App.php`). `coproc` is the same call with the default `wait` and is not modelled separately.
- IsolatedExecutor.ApplyEnvelope: `response_add_header` is called with `ucwords` set to true, so Swoole reformats each header name. That reformatting is not modelled: the recorded call keeps the name as given.
- IsolatedExecutor.PreforkRequestHandler: the round trip assumes a pipe that hands out the written bytes in full chunks and then the rest. Other chunkings are covered by `DrainStopsOnEmpty`, `DrainKeepsShortRead` and `DrainedIsPrefix`.
- TextUtils.Zapi: `basename` is modelled for `/`-separated paths only. Locale-dependent multibyte handling and Windows separators are not modelled.
- The other helpers of `utils.php` are not part of this model: `jTraceEx`, `elog`, `zlog`, `get_config`, `get_current_render_time`, `purify_array`, `uniqidReal`, `access_log` and `response_headers_list`. They cover logging, configuration, timing, formatting and randomness. `Cache.class.php` is not part of this model either.
