/** Requests under swoole: the wrapper around the request callback, the context a
    request installs, the status map, and what is reported when it ends. */
module Requests {
  import opened Common
  import opened FrameChain

  type Strings = map<string, string>

  /** The request object, as far as it is well typed. */
  datatype Request = NotARequest | Request(fd: Option<int>, header: Option<Strings>, server: Option<Strings>)

  datatype Response = NotAResponse | Response(fd: Option<int>)

  /** A parsed URL, and its path. */
  datatype Url = Url(text: string, path: string)

  /** URL parsing, sw8 decoding and the tracer are not part of this model. The
      header is looked at (`propagates`) by protocol versions from 8 on. */
  datatype Env = Env(propagates: bool, parseUrl: string -> Option<Url>, decodes: string -> bool,
                     service: string, instance: string, traceId: nat -> string, injects: bool)

  /** A request's entry span and trace: who owns it, the tags of the entry span,
      and the spans hooks have created in it. */
  datatype Context = Context(owner: nat, operation: string, url: string, httpMethod: string,
                             parent: Option<string>, spans: seq<nat>)

  /** An entry span that has been finished. */
  datatype Report = Report(owner: nat, status: int, isError: bool)

  type Contexts = map<Option<int>, Context>

  // ---- reading the request ----

  function Get(m: Strings, k: string, otherwise: string): string {
    if k in m then m[k] else otherwise
  }

  function Address(server: Strings, headers: Strings): string {
    if "host" in headers then headers["host"]
    else if "server_port" in server then "localhost:" + server["server_port"]
    else "unknown:0"
  }

  function UrlText(server: Strings, headers: Strings): string {
    "http://" + Address(server, headers) + Get(server, "request_uri", "/unknown")
    + if "query_string" in server then "?" + server["query_string"] else ""
  }

  function Sw8(env: Env, headers: Strings): Option<string> {
    if env.propagates && "sw8" in headers then Some(headers["sw8"]) else None
  }

  /** Exactly the requests init accepts. */
  predicate Acceptable(env: Env, r: Request) {
    && r.Request? && r.fd.Some? && r.header.Some? && r.server.Some?
    && env.parseUrl(UrlText(r.server.value, r.header.value)).Some?
    && (Sw8(env, r.header.value).Some? ==> env.decodes(Sw8(env, r.header.value).value))
  }

  /** The context of an accepted request. */
  function NewContext(env: Env, owner: nat, r: Request): Context
    requires Acceptable(env, r)
  {
    var url := env.parseUrl(UrlText(r.server.value, r.header.value)).value;
    var httpMethod := Get(r.server.value, "request_method", "UNKNOWN");
    Context(owner, httpMethod + ":" + url.path, url.text, httpMethod, Sw8(env, r.header.value), [])
  }

  function Installed(env: Env, contexts: Contexts, owner: nat, r: Request): Contexts
    requires Acceptable(env, r)
  {
    contexts[r.fd := NewContext(env, owner, r)]
  }

  /** What the handler finds in the server array of its request. */
  function Injected(env: Env, owner: nat, server: Strings): Strings {
    server["SW_SERVICE_NAME" := env.service]["SW_INSTANCE_NAME" := env.instance]["SW_TRACE_ID" := env.traceId(owner)]
  }

  /** What a request asks for, part by part, with what stands in for absent parts. */
  ghost predicate Asks(header: Strings, server: Strings, address: string, uri: string, query: string,
                       httpMethod: string) {
    && ("host" in header ==> address == header["host"])
    && ("host" !in header && "server_port" in server ==> address == "localhost:" + server["server_port"])
    && ("host" !in header && "server_port" !in server ==> address == "unknown:0")
    && ("request_uri" in server ==> uri == server["request_uri"])
    && ("request_uri" !in server ==> uri == "/unknown")
    && ("query_string" in server ==> query == "?" + server["query_string"])
    && ("query_string" !in server ==> query == "")
    && ("request_method" in server ==> httpMethod == server["request_method"])
    && ("request_method" !in server ==> httpMethod == "UNKNOWN")
  }

  /** Init accepts a request exactly if it has all its parts, its URL can be parsed and
      its trace header, if there is one to look at, decoded. */
  lemma AcceptedExactly(env: Env, r: Request, address: string, uri: string, query: string, httpMethod: string)
    requires r.Request? && r.header.Some? && r.server.Some? ==>
               Asks(r.header.value, r.server.value, address, uri, query, httpMethod)
    ensures Acceptable(env, r) <==>
              && r.Request? && r.fd.Some? && r.header.Some? && r.server.Some?
              && env.parseUrl("http://" + address + uri + query).Some?
              && (env.propagates && "sw8" in r.header.value ==> env.decodes(r.header.value["sw8"]))
  {
  }

  /** And installs a context of its own: method and path name the operation, url and
      method are the tags, the trace header is the parent, and no span is in it. */
  lemma InstalledContextIs(env: Env, contexts: Contexts, owner: nat, r: Request,
                           address: string, uri: string, query: string, httpMethod: string)
    requires Acceptable(env, r) && Asks(r.header.value, r.server.value, address, uri, query, httpMethod)
    ensures var url, t := env.parseUrl("http://" + address + uri + query), Installed(env, contexts, owner, r);
            && url.Some? && r.fd in t && t - {r.fd} == contexts - {r.fd}
            && t[r.fd].owner == owner && t[r.fd].spans == []
            && t[r.fd].operation == httpMethod + ":" + url.value.path
            && t[r.fd].url == url.value.text && t[r.fd].httpMethod == httpMethod
            && t[r.fd].parent == if env.propagates && "sw8" in r.header.value then Some(r.header.value["sw8"]) else None
  {
  }

  /** Three variables are injected, and no other is touched. */
  lemma InjectedVariablesAre(env: Env, owner: nat, server: Strings)
    ensures var t := Injected(env, owner, server);
            && "SW_SERVICE_NAME" in t && t["SW_SERVICE_NAME"] == env.service
            && "SW_INSTANCE_NAME" in t && t["SW_INSTANCE_NAME"] == env.instance
            && "SW_TRACE_ID" in t && t["SW_TRACE_ID"] == env.traceId(owner)
            && forall k :: k != "SW_SERVICE_NAME" && k != "SW_INSTANCE_NAME" && k != "SW_TRACE_ID" ==>
                (k in t <==> k in server) && (k in t ==> t[k] == server[k])
  {
    assert |"SW_SERVICE_NAME"| == 15 && |"SW_INSTANCE_NAME"| == 16 && |"SW_TRACE_ID"| == 11;
  }

  // ---- the status argument ----

  datatype StatusArgument = Long(n: int) | Text(s: string) | Other

  /** The truncating cast from 64 to 32 bits. */
  function ToI32(n: int): (r: int)
    ensures -0x8000_0000 <= r < 0x8000_0000 && (r - n) % 0x1_0000_0000 == 0
  {
    (n + 0x8000_0000) % 0x1_0000_0000 - 0x8000_0000
  }

  predicate IsNumeral(s: string) {
    s != [] && forall i :: 0 <= i < |s| ==> '0' <= s[i] <= '9'
  }

  function Numeral(s: string): nat
    requires s == [] || IsNumeral(s)
  {
    if s == [] then 0 else Numeral(Init(s)) * 10 + (Last(s) - '0') as nat
  }

  /** Parsing a signed 32-bit integer: a sign at most, digits, and in range. */
  function ParseI32(s: string): Option<int> {
    var negative := s != [] && s[0] == '-';
    var digits := if s != [] && (s[0] == '-' || s[0] == '+') then s[1..] else s;
    if !IsNumeral(digits) then None
    else InRange((if negative then -1 else 1) * Numeral(digits))
  }

  function InRange(n: int): Option<int> {
    if -0x8000_0000 <= n < 0x8000_0000 then Some(n) else None
  }

  function Digits(n: nat): string {
    if n < 10 then ['0' + n as char] else Digits(n / 10) + ['0' + (n % 10) as char]
  }

  lemma {:induction false} NumeralReadsBack(n: nat)
    ensures IsNumeral(Digits(n)) && Numeral(Digits(n)) == n
  {
    if n >= 10 {
      NumeralReadsBack(n / 10);
      assert Init(Digits(n)) == Digits(n / 10);
    }
  }

  /** Exactly the numbers of 32 bits survive being written as a text, whatever
      sign a positive one has. */
  lemma ParseReadsBack(n: int)
    ensures n < 0 ==> ParseI32("-" + Digits(-n)) == InRange(n)
    ensures n >= 0 ==> ParseI32(Digits(n)) == ParseI32("+" + Digits(n)) == InRange(n)
  {
    if n < 0 { NegativeReadsBack(-n); } else { PositiveReadsBack(n); }
  }

  lemma NegativeReadsBack(n: nat)
    ensures ParseI32("-" + Digits(n)) == InRange(-1 * n)
  {
    NumeralReadsBack(n);
    MinusNumeral(Digits(n));
  }

  lemma PositiveReadsBack(n: nat)
    ensures ParseI32(Digits(n)) == ParseI32("+" + Digits(n)) == InRange(n)
  {
    NumeralReadsBack(n);
    PlusNumeral(Digits(n));
  }

  lemma MinusNumeral(digits: string)
    requires IsNumeral(digits)
    ensures ParseI32("-" + digits) == InRange(-1 * Numeral(digits))
  {
    AfterTheSign('-', digits);
  }

  lemma PlusNumeral(digits: string)
    requires IsNumeral(digits)
    ensures ParseI32("+" + digits) == ParseI32(digits) == InRange(Numeral(digits))
  {
    AfterTheSign('+', digits);
    assert '0' <= digits[0] <= '9';
  }

  lemma AfterTheSign(sign: char, digits: string)
    ensures [sign] + digits != [] && ([sign] + digits)[0] == sign && ([sign] + digits)[1..] == digits
  {
  }

  function StatusCode(a: StatusArgument): int {
    match a
    case Long(n) => ToI32(n)
    case Text(s) => (match ParseI32(s) case Some(n) => n case None => 0)
    case Other => 0
  }

  /** The text is digits with a sign at most. */
  ghost predicate IsSigned(t: string) {
    exists digits :: IsNumeral(digits) && (t == digits || t == "+" + digits || t == "-" + digits)
  }

  /** A text is recorded as the number it is a numeral of; and as 0 if it is none, or one
      beyond 32 bits. */
  lemma TextStatus(t: string, digits: string)
    ensures IsNumeral(digits) && (t == digits || t == "+" + digits) ==>
              StatusCode(Text(t)) == if Numeral(digits) < 0x8000_0000 then Numeral(digits) else 0
    ensures IsNumeral(digits) && t == "-" + digits ==>
              StatusCode(Text(t)) == if Numeral(digits) <= 0x8000_0000 then -1 * Numeral(digits) else 0
    ensures !IsSigned(t) ==> StatusCode(Text(t)) == 0
  {
    if IsNumeral(digits) {
      MinusNumeral(digits);
      PlusNumeral(digits);
    }
    if ParseI32(t).Some? {
      ParsedIsSigned(t);
    }
  }

  lemma ParsedIsSigned(t: string)
    requires ParseI32(t).Some?
    ensures IsSigned(t)
  {
    assert t != [] ==> t == [t[0]] + t[1..];
    if t != [] && t[0] == '-' {
      assert t == "-" + t[1..];
    } else if t != [] && t[0] == '+' {
      assert t == "+" + t[1..];
    }
  }

  /** A number written out, with whatever sign, is recorded as itself exactly within 32
      bits. */
  lemma WrittenStatus(n: nat)
    ensures StatusCode(Text(Digits(n))) == StatusCode(Text("+" + Digits(n))) == (if n < 0x8000_0000 then n else 0)
    ensures StatusCode(Text("-" + Digits(n))) == if n <= 0x8000_0000 then -1 * n else 0
  {
    var digits := Digits(n);
    PositiveReadsBack(n);
    NegativeReadsBack(n);
    ParsedStatus(digits, n);
    ParsedStatus("+" + digits, n);
    ParsedStatus("-" + digits, -1 * n);
  }

  lemma ParsedStatus(t: string, n: int)
    requires ParseI32(t) == InRange(n)
    ensures StatusCode(Text(t)) == if -0x8000_0000 <= n < 0x8000_0000 then n else 0
  {
  }

  /** A long is recorded by its low 32 bits, and as itself if it has no others. */
  lemma LongStatus(n: int)
    ensures -0x8000_0000 <= n < 0x8000_0000 ==> StatusCode(Long(n)) == n
    ensures -0x8000_0000 <= StatusCode(Long(n)) < 0x8000_0000 && (StatusCode(Long(n)) - n) % 0x1_0000_0000 == 0
    ensures StatusCode(Other) == 0
  {
  }

  // ---- the agent ----

  datatype InitError = NoObject | NoFd | NoHeader | NoServer | BadUrl | BadPropagation
  datatype Error = Missing | NoContext

  /** The globals of `src/context.rs`, `src/request.rs` and the swoole plugin. */
  class SwooleAgent {
    const env: Env
    /** REQUEST_CONTEXT */
    var contexts: Contexts
    /** SWOOLE_RESPONSE_STATUS_MAP */
    var statuses: map<int, int>
    /** ORI_SWOOLE_ON_REQUEST: closures are numbered. */
    var original: Option<nat>
    var isSwoole: bool
    var reports: seq<Report>

    constructor (env: Env)
      ensures this.env == env && contexts == map[] && statuses == map[] && original == None && !isSwoole
              && reports == []
    {
      this.env := env;
      contexts, statuses, original, isSwoole, reports := map[], map[], None, false, [];
    }

    /** `hack_callback`: the server gets the wrapper, the agent keeps the closure. */
    method HackCallback(closure: nat) returns (installed: string)
      modifies `original, `isSwoole
      ensures installed == WRAPPER && original == Some(closure) && isSwoole
    {
      original := Some(closure);
      isSwoole := true;
      installed := WRAPPER;
    }

    method SetGlobal(id: Option<int>, ctx: Context)
      modifies `contexts
      ensures contexts == old(contexts)[id := ctx]
    {
      contexts := contexts[id := ctx];
    }

    method RemoveGlobal(id: Option<int>) returns (ctx: Option<Context>)
      modifies `contexts
      ensures contexts == old(contexts) - {id}
      ensures ctx == if id in old(contexts) then Some(old(contexts)[id]) else None
    {
      ctx := None;
      if id in contexts {
        ctx := Some(contexts[id]);
        contexts := contexts - {id};
      }
    }

    /** `try_with_global_ctx`, as hooks use it: a span in the request's context. */
    method CreateSpan(id: Option<int>, span: nat) returns (ok: bool)
      modifies `contexts
      ensures ok <==> id in old(contexts)
      ensures contexts == WithSpan(old(contexts), id, span)
    {
      if id !in contexts {
        return false;
      }
      contexts := contexts[id := contexts[id].(spans := contexts[id].spans + [span])];
      return true;
    }

    /** `request_init_for_swoole`: it fails exactly when the request is not
        acceptable, and a failure has installed nothing. */
    method RequestInit(owner: nat, request: Request) returns (r: Result<Request, InitError>)
      modifies `contexts
      ensures r.Ok? <==> Acceptable(env, request)
      ensures r.Err? ==> contexts == old(contexts)
      ensures r.Ok? ==> contexts == Installed(env, old(contexts), owner, request)
      ensures r.Ok? && !env.injects ==> r.value == request
      ensures r.Ok? && env.injects ==> r.value == request.(server := Some(Injected(env, owner, request.server.value)))
    {
      if request.NotARequest? { return Err(NoObject); }
      if request.fd.None? { return Err(NoFd); }
      if request.header.None? { return Err(NoHeader); }
      var headers := request.header.value;
      var header := Sw8(env, headers);
      if request.server.None? { return Err(NoServer); }
      var server := request.server.value;
      var httpMethod := Get(server, "request_method", "UNKNOWN");
      var url := env.parseUrl(UrlText(server, headers));
      if url.None? { return Err(BadUrl); }
      if header.Some? && !env.decodes(header.value) { return Err(BadPropagation); }
      SetGlobal(request.fd, Context(owner, httpMethod + ":" + url.value.path, url.value.text, httpMethod, header, []));
      // The server array is read again, from the same object.
      var again := request.server;
      if again.None? { return Err(NoServer); }
      var result := request;
      if env.injects {
        var injected := InjectServerVar(request.fd, again.value);
        match injected
        case Err(_) => return Err(NoServer);
        case Ok(vars) => result := request.(server := Some(vars));
      }
      return Ok(result);
    }

    method InjectServerVar(id: Option<int>, server: Strings) returns (r: Result<Strings, Error>)
      ensures r == if id in contexts then Ok(Injected(env, contexts[id].owner, server)) else Err(NoContext)
    {
      if id !in contexts {
        return Err(NoContext);
      }
      var vars := server["SW_SERVICE_NAME" := env.service];
      vars := vars["SW_INSTANCE_NAME" := env.instance];
      vars := vars["SW_TRACE_ID" := env.traceId(contexts[id].owner)];
      return Ok(vars);
    }

    /** The before hook of `Response::status`. */
    method HookStatus(fd: Option<int>, arguments: seq<StatusArgument>) returns (ok: bool)
      modifies `statuses
      ensures ok <==> |arguments| >= 1 && fd.Some?
      ensures statuses == if ok then old(statuses)[fd.value := StatusCode(arguments[0])] else old(statuses)
    {
      if |arguments| < 1 { return false; }
      if fd.None? { return false; }
      var status := 0;
      match arguments[0] {
        case Long(n) => status := ToI32(n);
        case Text(s) =>
          var parsed := ParseI32(s);
          if parsed.Some? { status := parsed.value; }
        case Other =>
      }
      statuses := statuses[fd.value := status];
      return true;
    }

    /** `request_shutdown_for_swoole` */
    method RequestShutdown(response: Response) returns (r: Result<(), Error>)
      modifies `contexts, `statuses, `reports
      ensures (contexts, statuses, reports) == ShutDown(old(contexts), old(statuses), old(reports), response)
      ensures r.Ok? <==> response.Response? && response.fd.Some? && response.fd in old(contexts)
    {
      if response.NotAResponse? || response.fd.None? { return Err(Missing); }
      var fd := response.fd.value;
      var status := 200;
      if fd in statuses {
        status := statuses[fd];
        statuses := statuses - {fd};
      }
      assert statuses == old(statuses) - {fd};
      r := FinishRequestContext(Some(fd), status);
      assert contexts == old(contexts) - {response.fd};
      assert reports == ShutDown(old(contexts), old(statuses), old(reports), response).2;
    }

    method FinishRequestContext(id: Option<int>, status: int) returns (r: Result<(), Error>)
      modifies `contexts, `reports
      ensures contexts == old(contexts) - {id}
      ensures r.Ok? <==> id in old(contexts)
      ensures reports == old(reports) + if r.Ok? then [Report(old(contexts)[id].owner, status, status >= 400)] else []
    {
      var ctx := RemoveGlobal(id);
      match ctx {
        case None =>
          return Err(NoContext);
        case Some(c) =>
          var isError := false;
          if status >= 400 {
            isError := true;
          }
          reports := reports + [Report(c.owner, status, isError)];
          return Ok(());
      }
    }

    /** The part of the wrapper before it calls the original callback. */
    method WrapperEnter(owner: nat, request: Request) returns (called: Option<nat>, initOk: bool)
      modifies `contexts
      ensures called == original
      ensures initOk <==> original.Some? && Acceptable(env, request)
      ensures contexts == if initOk then Installed(env, old(contexts), owner, request) else old(contexts)
    {
      if original.None? {
        return None, false;
      }
      var result := RequestInit(owner, request);
      return original, result.Ok?;
    }

    /** The part after: a request whose init failed is not shut down. */
    method WrapperLeave(initOk: bool, response: Response)
      modifies `contexts, `statuses, `reports
      ensures (contexts, statuses, reports) ==
                if initOk then ShutDown(old(contexts), old(statuses), old(reports), response)
                else (old(contexts), old(statuses), old(reports))
    {
      if initOk {
        var _ := RequestShutdown(response);
      }
    }
  }

  function WithSpan(contexts: Contexts, id: Option<int>, span: nat): Contexts {
    if id in contexts then contexts[id := contexts[id].(spans := contexts[id].spans + [span])] else contexts
  }

  function ShutDown(contexts: Contexts, statuses: map<int, int>, reports: seq<Report>, response: Response)
      : (Contexts, map<int, int>, seq<Report>)
  {
    if response.NotAResponse? || response.fd.None? then (contexts, statuses, reports)
    else
      var id := response.fd;
      var status := if id.value in statuses then statuses[id.value] else 200;
      (contexts - {id}, statuses - {id.value},
       if id in contexts then reports + [Report(contexts[id].owner, status, status >= 400)] else reports)
  }

  // ---- interleaved requests ----

  /** A request between entering and leaving the wrapper. */
  datatype Flight = Flight(request: Request, initOk: bool)

  datatype State = State(contexts: Contexts, statuses: map<int, int>, reports: seq<Report>, flights: map<nat, Flight>)

  const INITIAL := State(map[], map[], [], map[])

  datatype Move =
    | Enter(owner: nat, request: Request)
    | Leave(owner: nat, response: Response)
    | SetStatus(fd: int, argument: StatusArgument)
    /** A hooked function, called by `inner` frames below the owner's wrapper. */
    | Hook(owner: nat, inner: seq<Frame>, span: nat)

  function FdOf(r: Request): Option<int> {
    if r.Request? then r.fd else None
  }

  /** The frame of the wrapper that runs for a request. */
  function WrapperFrame(r: Request): Frame {
    Frame(0, Function(Internal, Some(WRAPPER), None, true), if r.Request? then Object(r.fd) else NotAnObject)
  }

  /** Requests in flight have distinct fds, and a response carries the fd of its
      request. Everything else is free. */
  ghost predicate Enabled(s: State, m: Move) {
    match m
    case Enter(owner, request) =>
      && owner !in s.flights
      && forall o :: o in s.flights && FdOf(s.flights[o].request).Some? ==> FdOf(s.flights[o].request) != FdOf(request)
    case Leave(owner, response) =>
      owner in s.flights && (FdOf(s.flights[owner].request).Some? ==>
                             response == Response(FdOf(s.flights[owner].request)))
    case SetStatus(_, _) => true
    case Hook(owner, inner, _) => owner in s.flights && NoWrapper(inner)
  }

  function Next(env: Env, s: State, m: Move): State
    requires m.Leave? || m.Hook? ==> m.owner in s.flights
  {
    match m
    case Enter(owner, request) =>
      var ok := Acceptable(env, request);
      s.(flights := s.flights[owner := Flight(request, ok)],
         contexts := if ok then Installed(env, s.contexts, owner, request) else s.contexts)
    case Leave(owner, response) =>
      var t := s.(flights := s.flights - {owner});
      if !s.flights[owner].initOk then t
      else
        var (contexts, statuses, reports) := ShutDown(s.contexts, s.statuses, s.reports, response);
        t.(contexts := contexts, statuses := statuses, reports := reports)
    case SetStatus(fd, argument) => s.(statuses := s.statuses[fd := StatusCode(argument)])
    case Hook(owner, inner, span) =>
      s.(contexts := WithSpan(s.contexts, RequestIdOf(true, inner + [WrapperFrame(s.flights[owner].request)]), span))
  }

  ghost predicate IsRun(env: Env, moves: seq<Move>)
    decreases |moves|, 0
  {
    moves == [] || (IsRun(env, Init(moves)) && Enabled(Final(env, Init(moves)), Last(moves)))
  }

  ghost function Final(env: Env, moves: seq<Move>): State
    requires IsRun(env, moves)
    decreases |moves|, 1
  {
    if moves == [] then INITIAL else Next(env, Final(env, Init(moves)), Last(moves))
  }

  /** Contexts and successful requests in flight are the same thing. */
  ghost predicate Inv(s: State) {
    && (forall o :: o in s.flights && s.flights[o].initOk ==>
          && FdOf(s.flights[o].request).Some?
          && FdOf(s.flights[o].request) in s.contexts
          && s.contexts[FdOf(s.flights[o].request)].owner == o)
    && (forall id :: id in s.contexts ==>
          && s.contexts[id].owner in s.flights
          && s.flights[s.contexts[id].owner].initOk
          && FdOf(s.flights[s.contexts[id].owner].request) == id)
    && (forall o, o' :: (o in s.flights && o' in s.flights && FdOf(s.flights[o].request).Some?
                         && FdOf(s.flights[o].request) == FdOf(s.flights[o'].request)) ==> o == o')
  }

  lemma HookRequestId(inner: seq<Frame>, r: Request)
    requires NoWrapper(inner)
    ensures RequestIdOf(true, inner + [WrapperFrame(r)]) == FdOf(r)
  {
    CallsInheritTheRequest(true, inner, [WrapperFrame(r)]);
  }

  lemma MoveKeepsInv(env: Env, s: State, m: Move)
    requires Inv(s) && Enabled(s, m)
    ensures Inv(Next(env, s, m))
  {
    match m
    case Enter(owner, request) => EnterKeepsInv(env, s, owner, request);
    case Leave(owner, response) => LeaveKeepsInv(env, s, owner, response);
    case SetStatus(_, _) =>
    case Hook(owner, inner, _) => HookRequestId(inner, s.flights[owner].request);
  }

  lemma EnterKeepsInv(env: Env, s: State, owner: nat, request: Request)
    requires Inv(s) && Enabled(s, Enter(owner, request))
    ensures Inv(Next(env, s, Enter(owner, request)))
  {
  }

  lemma LeaveKeepsInv(env: Env, s: State, owner: nat, response: Response)
    requires Inv(s) && Enabled(s, Leave(owner, response))
    ensures Inv(Next(env, s, Leave(owner, response)))
  {
    var t := Next(env, s, Leave(owner, response));
    assert t.flights == s.flights - {owner};
    assert t.contexts == if s.flights[owner].initOk then s.contexts - {FdOf(s.flights[owner].request)} else s.contexts;
  }

  /** At every boundary the contexts are exactly those of the requests whose init
      succeeded and which have not been left, each under its own fd; so no context
      leaks and none is taken away early. */
  lemma {:induction false} ContextsAreTheRequestsInFlight(env: Env, moves: seq<Move>)
    requires IsRun(env, moves)
    ensures Inv(Final(env, moves))
  {
    if moves != [] {
      ContextsAreTheRequestsInFlight(env, Init(moves));
      MoveKeepsInv(env, Final(env, Init(moves)), Last(moves));
    }
  }

  /** A hook under a request puts its span into the context of that very request;
      when the request's init failed it creates no span at all. */
  lemma {:induction false} SpansGoToTheirOwnRequest(env: Env, moves: seq<Move>, owner: nat, inner: seq<Frame>,
                                                    span: nat)
    requires IsRun(env, moves) && Enabled(Final(env, moves), Hook(owner, inner, span))
    ensures var s := Final(env, moves);
            var t := Next(env, s, Hook(owner, inner, span));
            if s.flights[owner].initOk
            then exists id :: id in s.contexts && s.contexts[id].owner == owner
                              && var ctx := s.contexts[id];
                                 t == s.(contexts := s.contexts[id := ctx.(spans := ctx.spans + [span])])
            else t == s
  {
    ContextsAreTheRequestsInFlight(env, moves);
    var s := Final(env, moves);
    HookRequestId(inner, s.flights[owner].request);
    if s.flights[owner].initOk {
      var id := FdOf(s.flights[owner].request);
      assert id in s.contexts && s.contexts[id].owner == owner;
    } else {
      var id := FdOf(s.flights[owner].request);
      assert id !in s.contexts;
    }
  }

  // ---- statuses, told by the history alone ----

  /** The move ends a request on fd whose init succeeded. */
  ghost predicate ShutsDown(env: Env, moves: seq<Move>, m: Move, fd: int)
    requires IsRun(env, moves) && Enabled(Final(env, moves), m)
  {
    m.Leave? && Final(env, moves).flights[m.owner].initOk
        && FdOf(Final(env, moves).flights[m.owner].request) == Some(fd)
  }

  /** The last status set on fd that no shutdown of a request on fd followed. */
  ghost function LastStatus(env: Env, moves: seq<Move>, fd: int): Option<int>
    requires IsRun(env, moves)
  {
    if moves == [] then None
    else if Last(moves).SetStatus? && Last(moves).fd == fd then Some(StatusCode(Last(moves).argument))
    else if ShutsDown(env, Init(moves), Last(moves), fd) then None
    else LastStatus(env, Init(moves), fd)
  }

  lemma {:induction false} StatusMapIsHistory(env: Env, moves: seq<Move>, fd: int)
    requires IsRun(env, moves)
    ensures LastStatus(env, moves, fd)
            == if fd in Final(env, moves).statuses then Some(Final(env, moves).statuses[fd]) else None
  {
    if moves != [] {
      StatusMapIsHistory(env, Init(moves), fd);
      ContextsAreTheRequestsInFlight(env, Init(moves));
    }
  }

  /** The last status set on fd within a stretch of moves. */
  function OwnStatus(moves: seq<Move>, fd: int): Option<int> {
    if moves == [] then None
    else if Last(moves).SetStatus? && Last(moves).fd == fd then Some(StatusCode(Last(moves).argument))
    else OwnStatus(Init(moves), fd)
  }

  predicate Leaves(moves: seq<Move>, owner: nat) {
    exists i :: 0 <= i < |moves| && moves[i].Leave? && moves[i].owner == owner
  }

  /** While a request is in flight only it can shut its fd down, so what its
      shutdown will find is its own last status, or else what was there before. */
  lemma {:induction false} DuringARequest(env: Env, before: seq<Move>, owner: nat, request: Request, during: seq<Move>,
                                          fd: int)
    requires FdOf(request) == Some(fd) && !Leaves(during, owner)
    requires IsRun(env, before + [Enter(owner, request)] + during)
    ensures IsRun(env, before)
    ensures var s := Final(env, before + [Enter(owner, request)] + during);
            owner in s.flights && s.flights[owner] == Flight(request, Acceptable(env, request))
    ensures LastStatus(env, before + [Enter(owner, request)] + during, fd)
         == if OwnStatus(during, fd).Some? then OwnStatus(during, fd) else LastStatus(env, before, fd)
    decreases |during|
  {
    var moves := before + [Enter(owner, request)] + during;
    if during == [] {
      assert moves == before + [Enter(owner, request)];
      assert Init(moves) == before && Last(moves) == Enter(owner, request);
    } else {
      assert Init(moves) == before + [Enter(owner, request)] + Init(during) && Last(moves) == Last(during);
      assert !Leaves(Init(during), owner) by {
        assert forall i :: 0 <= i < |Init(during)| ==> Init(during)[i] == during[i];
      }
      DuringARequest(env, before, owner, request, Init(during), fd);
      ContextsAreTheRequestsInFlight(env, Init(moves));
      assert Last(during) == during[|during| - 1];
    }
  }

  /** A request that enters, runs and leaves; it was accepted by init. */
  ghost predicate IsLifetime(env: Env, before: seq<Move>, owner: nat, request: Request, during: seq<Move>,
                             response: Response) {
    && Acceptable(env, request) && !Leaves(during, owner)
    && IsRun(env, before + [Enter(owner, request)] + during + [Leave(owner, response)])
  }

  /** The status a request is reported with: its own last one; or else one that
      an earlier request on the fd left behind; or else 200. The entry is gone
      afterwards, and the span is an error from 400 on. */
  lemma {:induction false} ReportedStatus(env: Env, before: seq<Move>, owner: nat, request: Request, during: seq<Move>,
                                          response: Response)
    requires IsLifetime(env, before, owner, request, during, response)
    ensures IsRun(env, before) && IsRun(env, before + [Enter(owner, request)] + during)
    ensures var fd := request.fd.value;
            var was := Final(env, before + [Enter(owner, request)] + during).reports;
            var t := Final(env, before + [Enter(owner, request)] + during + [Leave(owner, response)]);
            var status := Reported(OwnStatus(during, fd), LastStatus(env, before, fd));
            t.reports == was + [Report(owner, status, status >= 400)] && fd !in t.statuses && Some(fd) !in t.contexts
  {
    var fd := request.fd.value;
    var moves := before + [Enter(owner, request)] + during;
    assert Init(moves + [Leave(owner, response)]) == moves;
    DuringARequest(env, before, owner, request, during, fd);
    StatusMapIsHistory(env, moves, fd);
    ContextsAreTheRequestsInFlight(env, moves);
  }

  function Reported(own: Option<int>, stale: Option<int>): int {
    match own
    case Some(status) => status
    case None => (match stale case Some(status) => status case None => 200)
  }

  /** "The last status set in that request, or 200" is what is reported exactly
      when the request set one, or the fd was left clean, or left with a 200. */
  lemma {:induction false} StatusIsItsOwnExactly(env: Env, before: seq<Move>, owner: nat, request: Request,
                                                 during: seq<Move>, response: Response)
    requires IsLifetime(env, before, owner, request, during, response)
    ensures IsRun(env, before) && IsRun(env, before + [Enter(owner, request)] + during)
    ensures var was := Final(env, before + [Enter(owner, request)] + during).reports;
            var reports := Final(env, before + [Enter(owner, request)] + during + [Leave(owner, response)]).reports;
            var own, stale := OwnStatus(during, request.fd.value), LastStatus(env, before, request.fd.value);
            var promised := Reported(own, None);
            (reports == was + [Report(owner, promised, promised >= 400)])
            <==> (own.Some? || stale.None? || stale == Some(200))
  {
    ReportedStatus(env, before, owner, request, during, response);
    var reports := Final(env, before + [Enter(owner, request)] + during + [Leave(owner, response)]).reports;
    assert reports[|reports| - 1].status
           == Reported(OwnStatus(during, request.fd.value), LastStatus(env, before, request.fd.value));
  }

  /** Every init succeeds, and statuses are set by requests in flight only. */
  ghost predicate WellBehaved(env: Env, moves: seq<Move>)
    requires IsRun(env, moves)
  {
    moves == [] || (
      && WellBehaved(env, Init(moves))
      && (Last(moves).Enter? ==> Acceptable(env, Last(moves).request))
      && (Last(moves).SetStatus? ==> Some(Last(moves).fd) in Final(env, Init(moves)).contexts))
  }

  /** Then the fd of a new request is clean, and the map outlives no request. */
  lemma {:induction false} WellBehavedIsClean(env: Env, moves: seq<Move>)
    requires IsRun(env, moves) && WellBehaved(env, moves)
    ensures forall fd :: fd in Final(env, moves).statuses ==> Some(fd) in Final(env, moves).contexts
  {
    if moves != [] {
      WellBehavedIsClean(env, Init(moves));
      ContextsAreTheRequestsInFlight(env, Init(moves));
      if Last(moves).Hook? {
        HookRequestId(Last(moves).inner, Final(env, Init(moves)).flights[Last(moves).owner].request);
      }
    }
  }

  /** Under these conditions every request is reported with its own status. */
  lemma {:induction false} WellBehavedStatus(env: Env, before: seq<Move>, owner: nat, request: Request,
                                             during: seq<Move>, response: Response)
    requires IsLifetime(env, before, owner, request, during, response)
    requires IsRun(env, before) && WellBehaved(env, before)
    ensures IsRun(env, before + [Enter(owner, request)] + during)
    ensures var was := Final(env, before + [Enter(owner, request)] + during).reports;
            var reports := Final(env, before + [Enter(owner, request)] + during + [Leave(owner, response)]).reports;
            var promised := Reported(OwnStatus(during, request.fd.value), None);
            reports == was + [Report(owner, promised, promised >= 400)]
  {
    var enter := Enter(owner, request);
    StatusIsItsOwnExactly(env, before, owner, request, during, response);
    StatusMapIsHistory(env, before, request.fd.value);
    WellBehavedIsClean(env, before);
    ContextsAreTheRequestsInFlight(env, before);
    assert before + [enter] + during + [Leave(owner, response)] == (before + [enter])
           + (during + [Leave(owner, response)]);
    PrefixIsRun(env, before + [enter], during + [Leave(owner, response)]);
    assert Init(before + [enter]) == before && Last(before + [enter]) == enter;
  }

  lemma {:induction false} PrefixIsRun(env: Env, a: seq<Move>, b: seq<Move>)
    requires IsRun(env, a + b)
    ensures IsRun(env, a)
  {
    if b == [] {
      assert a + b == a;
    } else {
      assert Init(a + b) == a + Init(b);
      PrefixIsRun(env, a, Init(b));
    }
  }

  /** A status set in a request whose init failed is inherited by the next request
      on the fd: a request that sets none is reported as a failed one. */
  lemma StaleStatusIsInherited(env: Env, bad: Request, good: Request)
    requires FdOf(bad) == Some(7) == FdOf(good) && !Acceptable(env, bad) && Acceptable(env, good)
    ensures var moves := [Enter(0, bad), SetStatus(7, Long(500)), Leave(0, Response(Some(7))), Enter(1, good),
                          Leave(1, Response(Some(7)))];
            IsRun(env, moves) && Final(env, moves).reports == [Report(1, 500, true)]
  {
    var m0, m1, m2, m3, m4 := Enter(0, bad), SetStatus(7, Long(500)), Leave(0, Response(Some(7))), Enter(1, good),
        Leave(1, Response(Some(7)));
    StatusLeftBehind(env, bad);
    Extend(env, [m0, m1, m2], m3);
    assert [m0, m1, m2] + [m3] == [m0, m1, m2, m3];
    Extend(env, [m0, m1, m2, m3], m4);
    assert [m0, m1, m2, m3] + [m4] == [m0, m1, m2, m3, m4];
  }

  lemma StatusLeftBehind(env: Env, bad: Request)
    requires FdOf(bad) == Some(7) && !Acceptable(env, bad)
    ensures var moves := [Enter(0, bad), SetStatus(7, Long(500)), Leave(0, Response(Some(7)))];
            IsRun(env, moves) && Final(env, moves) == State(map[], map[7 := 500], [], map[])
  {
    var m0, m1, m2 := Enter(0, bad), SetStatus(7, Long(500)), Leave(0, Response(Some(7)));
    Extend(env, [], m0);
    assert [] + [m0] == [m0];
    Extend(env, [m0], m1);
    assert [m0] + [m1] == [m0, m1];
    assert Final(env, [m0, m1]) == State(map[], map[7 := 500], [], map[0 := Flight(bad, false)]);
    Extend(env, [m0, m1], m2);
    assert [m0, m1] + [m2] == [m0, m1, m2];
  }

  lemma Extend(env: Env, moves: seq<Move>, m: Move)
    requires IsRun(env, moves) && Enabled(Final(env, moves), m)
    ensures IsRun(env, moves + [m]) && Final(env, moves + [m]) == Next(env, Final(env, moves), m)
  {
    assert Init(moves + [m]) == moves;
  }
}
