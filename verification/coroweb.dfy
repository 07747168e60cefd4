/** The small web framework: the `@get`/`@post` decorators, the inspection
    of a view function's signature, the registration check, and the request
    handler that turns an HTTP request into keyword arguments, calls the
    view and turns an API error into a JSON-able body. */
module Coroweb {
  import opened Wrappers
  import opened Text
  import opened Apis

  // ------------------------------------------------------------ signatures

  /** The five kinds of `inspect.Parameter`. */
  datatype ParamKind = PositionalOnly | PositionalOrKeyword | VarPositional | KeywordOnly | VarKeyword

  datatype Param = Param(name: string, kind: ParamKind, hasDefault: bool)

  /** A view function as the framework sees it: its `__name__`, its
      parameters in declaration order, the text of its signature, what
      `str(fn)` prints, and the `__method__`/`__route__` attributes a
      decorator may have set. */
  datatype Handler = Handler(
    name: string,
    params: seq<Param>,
    signature: string,
    display: string,
    verb: Option<string>,
    route: Option<string>)

  /** What `@get(path)` and `@post(path)` do to a function: the wrapper
      keeps the function's name and signature and is marked as a route for
      `verb` on `path`. */
  function Decorate(verb: string, path: string, fn: Handler): (h: Handler)
    ensures h.verb == Some(verb) && h.route == Some(path)
    ensures h.name == fn.name && h.params == fn.params
    ensures h.signature == fn.signature && h.display == fn.display
  {
    fn.(verb := Some(verb), route := Some(path))
  }

  /** `@get(path)`. */
  function Get(path: string, fn: Handler): Handler {
    Decorate("GET", path, fn)
  }

  /** `@post(path)`. */
  function Post(path: string, fn: Handler): Handler {
    Decorate("POST", path, fn)
  }

  /** `get_named_kw_args`: the keyword-only parameters, in order. */
  function NamedKwArgs(params: seq<Param>): (names: seq<string>)
    ensures |names| <= |params|
    ensures forall n :: n in names <==>
      exists i :: 0 <= i < |params| && params[i].name == n && params[i].kind == KeywordOnly
  {
    if |params| == 0 then []
    else
      var rest := NamedKwArgs(params[1..]);
      assert forall i :: 1 <= i < |params| ==> params[1..][i - 1] == params[i];
      if params[0].kind == KeywordOnly then [params[0].name] + rest else rest
  }

  predicate IsRequired(q: Param) {
    q.kind == KeywordOnly && !q.hasDefault
  }

  /** The positions, from `from` on, of the keyword-only parameters without
      a default: increasing, and missing none of them. */
  function RequiredPositions(params: seq<Param>, from: nat): (idx: seq<nat>)
    requires from <= |params|
    ensures forall i :: 0 <= i < |idx| ==> from <= idx[i] < |params| && IsRequired(params[idx[i]])
    ensures forall i, j :: 0 <= i < j < |idx| ==> idx[i] < idx[j]
    ensures forall k :: from <= k < |params| && IsRequired(params[k]) ==> k in idx
    decreases |params| - from
  {
    if from == |params| then []
    else
      var rest := RequiredPositions(params, from + 1);
      if IsRequired(params[from]) then [from] + rest else rest
  }

  /** The loop of `get_required_kw_args` from position `from` on. */
  function RequiredFrom(params: seq<Param>, from: nat): (names: seq<string>)
    requires from <= |params|
    ensures var idx := RequiredPositions(params, from);
      |names| == |idx| && forall i :: 0 <= i < |idx| ==> names[i] == params[idx[i]].name
    decreases |params| - from
  {
    if from == |params| then []
    else
      var rest := RequiredFrom(params, from + 1);
      if IsRequired(params[from]) then [params[from].name] + rest else rest
  }

  /** `get_required_kw_args`: the names of the keyword-only parameters
      without a default, in declaration order. */
  function RequiredKwArgs(params: seq<Param>): (names: seq<string>)
    ensures var idx := RequiredPositions(params, 0);
      |names| == |idx| && forall i :: 0 <= i < |idx| ==> names[i] == params[idx[i]].name
    ensures forall n :: n in names <==>
      exists i :: 0 <= i < |params| && params[i].name == n
                  && params[i].kind == KeywordOnly && !params[i].hasDefault
  {
    var names := RequiredFrom(params, 0);
    var idx := RequiredPositions(params, 0);
    forall n | n in names
      ensures exists i :: 0 <= i < |params| && params[i].name == n && IsRequired(params[i])
    {
      var j :| 0 <= j < |names| && names[j] == n;
      assert params[idx[j]].name == n;
    }
    forall i | 0 <= i < |params| && IsRequired(params[i])
      ensures params[i].name in names
    {
      var j :| 0 <= j < |idx| && idx[j] == i;
      assert names[j] == params[i].name;
    }
    names
  }

  /** Whether some parameter is of kind `k` (`has_named_kw_args` and
      `has_var_kw_arg` answer `True` or fall off the end with `None`). */
  function HasKind(params: seq<Param>, k: ParamKind): (b: bool)
    ensures b <==> exists i :: 0 <= i < |params| && params[i].kind == k
  {
    if |params| == 0 then false
    else
      assert forall i :: 1 <= i < |params| ==> params[1..][i - 1] == params[i];
      params[0].kind == k || HasKind(params[1..], k)
  }

  /** The kinds allowed after a parameter named `request`. */
  predicate MayFollowRequest(k: ParamKind) {
    k == VarPositional || k == KeywordOnly || k == VarKeyword
  }

  /** Some parameter other than `request` that must not follow it comes
      after a `request` parameter (or after the start, once one has been
      seen). */
  predicate Misplaced(params: seq<Param>, found: bool) {
    exists j :: 0 <= j < |params| && params[j].name != "request" && !MayFollowRequest(params[j].kind)
      && (found || exists i :: 0 <= i < j && params[i].name == "request")
  }

  /** The loop of `has_request_arg`: `None` where it raises. */
  function ScanRequest(params: seq<Param>, found: bool): (r: Option<bool>)
    ensures r.None? <==> Misplaced(params, found)
    ensures r.Some? ==> (r.value <==> found || exists i :: 0 <= i < |params| && params[i].name == "request")
  {
    if |params| == 0 then Some(found)
    else
      var tail := params[1..];
      assert forall i :: 1 <= i < |params| ==> tail[i - 1] == params[i];
      var r := if params[0].name == "request" then ScanRequest(tail, true)
               else if found && !MayFollowRequest(params[0].kind) then None
               else ScanRequest(tail, found);
      assert r.None? <==> Misplaced(params, found) by {
        if Misplaced(tail, params[0].name == "request" || found) {
          var j :| 0 <= j < |tail| && tail[j].name != "request" && !MayFollowRequest(tail[j].kind)
            && (params[0].name == "request" || found || exists i :: 0 <= i < j && tail[i].name == "request");
          if !(found || params[0].name == "request") {
            var i :| 0 <= i < j && tail[i].name == "request";
            assert params[i + 1].name == "request";
          }
          assert params[j + 1] == tail[j];
        }
        if Misplaced(params, found) && !(found && !MayFollowRequest(params[0].kind) && params[0].name != "request") {
          var j :| 0 <= j < |params| && params[j].name != "request" && !MayFollowRequest(params[j].kind)
            && (found || exists i :: 0 <= i < j && params[i].name == "request");
          assert j > 0;
          if !found && params[0].name != "request" {
            var i :| 0 <= i < j && params[i].name == "request";
            assert tail[i - 1].name == "request";
          }
          assert tail[j - 1] == params[j];
        }
      }
      r
  }

  const MisplacedRequestMessage := "request parameter must be the last named parameter in function: "

  /** `has_request_arg`: whether the view takes `request`; it raises
      `ValueError` when a plain positional parameter follows it. */
  function HasRequestArg(h: Handler): (r: Result<bool, string>)
    ensures r.Failure? <==> Misplaced(h.params, false)
    ensures r.Failure? ==> r.error == MisplacedRequestMessage + h.name + h.signature
    ensures r.Success? ==> (r.value <==> exists i :: 0 <= i < |h.params| && h.params[i].name == "request")
  {
    match ScanRequest(h.params, false)
    case None => Failure(MisplacedRequestMessage + h.name + h.signature)
    case Some(b) => Success(b)
  }

  /** What `RequestHandler.__init__` records about the view. */
  datatype Profile = Profile(
    hasRequestArg: bool,
    hasVarKwArg: bool,
    hasNamedKwArgs: bool,
    namedKwArgs: seq<string>,
    requiredKwArgs: seq<string>)

  /** `RequestHandler.__init__`: the five signature questions, in order. */
  function Analyze(h: Handler): (r: Result<Profile, string>)
    ensures r.Failure? <==> Misplaced(h.params, false)
    ensures r.Success? ==>
      && (r.value.hasRequestArg <==> exists i :: 0 <= i < |h.params| && h.params[i].name == "request")
      && (r.value.hasVarKwArg <==> exists i :: 0 <= i < |h.params| && h.params[i].kind == VarKeyword)
      && (r.value.hasNamedKwArgs <==> exists i :: 0 <= i < |h.params| && h.params[i].kind == KeywordOnly)
      && r.value.namedKwArgs == NamedKwArgs(h.params)
      && r.value.requiredKwArgs == RequiredKwArgs(h.params)
  {
    var request :- HasRequestArg(h);
    Success(Profile(request, HasKind(h.params, VarKeyword), HasKind(h.params, KeywordOnly),
                    NamedKwArgs(h.params), RequiredKwArgs(h.params)))
  }

  /** A route table entry: method, path and the analysed view. */
  datatype Route = Route(verb: string, path: string, handler: Handler, profile: Profile)

  const UndecoratedPrefix := "@get or @post not defined in "

  /** `add_route`: a view without both decorator attributes is refused;
      otherwise it is analysed and appended to the table. */
  function AddRoute(routes: seq<Route>, h: Handler): (r: Result<seq<Route>, string>)
    ensures (h.verb.None? || h.route.None?) ==> r == Failure(UndecoratedPrefix + h.display + ".")
    ensures h.verb.Some? && h.route.Some? ==>
      && (r.Failure? <==> Misplaced(h.params, false))
      && (r.Success? ==>
            && |r.value| == |routes| + 1
            && r.value[..|routes|] == routes
            && r.value[|routes|].verb == h.verb.value
            && r.value[|routes|].path == h.route.value
            && r.value[|routes|].handler == h)
  {
    if h.route.None? || h.verb.None? then Failure(UndecoratedPrefix + h.display + ".")
    else
      var profile :- Analyze(h);
      Success(routes + [Route(h.verb.value, h.route.value, h, profile)])
  }

  // --------------------------------------------------------------- requests

  /** A value passed to a view: text from a path, query or form, a decoded
      JSON member (kept as its printed form), or the request itself. */
  datatype ArgValue = Text(s: string) | Json(repr: string) | RequestRef

  /** The outcome of decoding a JSON body. */
  datatype JsonBody = JsonObject(members: map<string, ArgValue>) | JsonNotObject | JsonMalformed

  /** `parse_qs` never yields an empty list of values. */
  type QueryValues = s: seq<string> | |s| > 0 witness [""]

  /** The parts of an aiohttp request the handler reads. The query is given
      both as its raw text and as `parse_qs(qs, True)` would parse it. */
  datatype Request = Request(
    verb: string,
    contentType: string,
    json: JsonBody,
    form: map<string, string>,
    queryString: string,
    query: map<string, QueryValues>,
    matchInfo: map<string, string>)

  function TextValues(m: map<string, string>): (r: map<string, ArgValue>)
    ensures r.Keys == m.Keys
    ensures forall k :: k in m ==> r[k] == Text(m[k])
  {
    map k | k in m :: Text(m[k])
  }

  function FirstValues(q: map<string, QueryValues>): (r: map<string, ArgValue>)
    ensures r.Keys == q.Keys
    ensures forall k :: k in q ==> r[k] == Text(q[k][0])
  {
    map k | k in q :: Text(q[k][0])
  }

  /** Whether the view takes keyword arguments at all (line 107). */
  predicate Interested(p: Profile) {
    p.hasVarKwArg || p.hasNamedKwArgs || |p.requiredKwArgs| > 0
  }

  /** The first stage of `__call__`: where the keyword arguments come from.
      `Rejected` is an `HTTPBadRequest` response, `Crashed` an exception
      that leaves the handler, and `Gathered(None)` means nothing was read
      from the body or the query. */
  datatype Collected = Rejected(reason: string) | Crashed(reason: string) | Gathered(kw: Option<map<string, ArgValue>>)

  const MissingContentType := "Missing Content-Type"
  const JsonNotObjectMessage := "JSON body must be object."
  const UnsupportedPrefix := "Unsupported Content-Type: "
  const MissingArgumentPrefix := "Missing argument: "

  predicate IsJson(contentType: string) {
    StartsWith(Lower(contentType), "application/json")
  }

  predicate IsForm(contentType: string) {
    StartsWith(Lower(contentType), "application/x-www-form-urlencoded")
      || StartsWith(Lower(contentType), "multipart/form-data")
  }

  function Collect(p: Profile, req: Request): (c: Collected)
    ensures !Interested(p) ==> c == Gathered(None)
    ensures Interested(p) && req.verb == "POST" ==>
      && (req.contentType == "" ==> c == Rejected(MissingContentType))
      && (req.contentType != "" && IsJson(req.contentType) ==>
            match req.json
            case JsonObject(m) => c == Gathered(Some(m))
            case JsonNotObject => c == Rejected(JsonNotObjectMessage)
            case JsonMalformed => c.Crashed?)
      && (req.contentType != "" && !IsJson(req.contentType) && IsForm(req.contentType) ==>
            c == Gathered(Some(TextValues(req.form))))
      && (req.contentType != "" && !IsJson(req.contentType) && !IsForm(req.contentType) ==>
            c == Rejected(UnsupportedPrefix + req.contentType))
    ensures Interested(p) && req.verb == "GET" ==>
      c == Gathered(if req.queryString == "" then None else Some(FirstValues(req.query)))
    ensures Interested(p) && req.verb != "POST" && req.verb != "GET" ==> c == Gathered(None)
  {
    if !Interested(p) then Gathered(None)
    else if req.verb == "POST" then
      if req.contentType == "" then Rejected(MissingContentType)
      else if IsJson(req.contentType) then
        match req.json
        case JsonObject(m) => Gathered(Some(m))
        case JsonNotObject => Rejected(JsonNotObjectMessage)
        case JsonMalformed => Crashed("JSONDecodeError")
      else if IsForm(req.contentType) then Gathered(Some(TextValues(req.form)))
      else Rejected(UnsupportedPrefix + req.contentType)
    else if req.verb == "GET" && req.queryString != "" then Gathered(Some(FirstValues(req.query)))
    else Gathered(None)
  }

  /** The first required name missing from `args`, in declaration order. */
  function FirstMissing(names: seq<string>, args: map<string, ArgValue>): (r: Option<string>)
    ensures r.None? <==> forall i :: 0 <= i < |names| ==> names[i] in args
    ensures r.Some? ==> exists i :: 0 <= i < |names| && names[i] == r.value && r.value !in args
                          && forall j :: 0 <= j < i ==> names[j] in args
  {
    if |names| == 0 then None
    else if names[0] !in args then Some(names[0])
    else
      var r := FirstMissing(names[1..], args);
      assert forall i :: 1 <= i < |names| ==> names[1..][i - 1] == names[i];
      assert r.Some? ==> exists i :: 0 <= i < |names| && names[i] == r.value && r.value !in args
                          && forall j :: 0 <= j < i ==> names[j] in args by {
        if r.Some? {
          var i :| 0 <= i < |names[1..]| && names[1..][i] == r.value && r.value !in args
                   && forall j :: 0 <= j < i ==> names[1..][j] in args;
          assert forall j :: 1 <= j < i + 1 ==> names[j] == names[1..][j - 1];
        }
      }
      r
  }

  /** The named-only filter of lines 142-147: when the view has no `**kw`
      but does have keyword-only parameters, only those names are kept. */
  function KeepDeclared(p: Profile, kw: map<string, ArgValue>): (r: map<string, ArgValue>)
    ensures r.Keys <= kw.Keys
    ensures forall k :: k in r ==> r[k] == kw[k]
    ensures !p.hasVarKwArg && |p.namedKwArgs| > 0 ==> forall k :: k in r <==> k in kw && k in p.namedKwArgs
    ensures p.hasVarKwArg || |p.namedKwArgs| == 0 ==> r == kw
  {
    if !p.hasVarKwArg && |p.namedKwArgs| > 0 then map k | k in kw && k in p.namedKwArgs :: kw[k]
    else kw
  }

  /** The body or query fields that survive the named-only filter, when
      anything was gathered at all. */
  function Kept(p: Profile, kw: Option<map<string, ArgValue>>): map<string, ArgValue> {
    if kw.Some? then KeepDeclared(p, kw.value) else map[]
  }

  /** The keyword arguments of lines 135-157: the kept fields, each
      overwritten by a path parameter of the same name, and then the
      request when the view asks for it. */
  function Arguments(p: Profile, req: Request, kw: Option<map<string, ArgValue>>): (args: map<string, ArgValue>)
    ensures forall k :: k in args <==>
      k in Kept(p, kw) || k in req.matchInfo || (k == "request" && p.hasRequestArg)
    ensures forall k :: k in args ==>
                args[k] == (if k == "request" && p.hasRequestArg then RequestRef
                            else if k in req.matchInfo then Text(req.matchInfo[k])
                            else Kept(p, kw)[k])
  {
    var merged := Kept(p, kw) + TextValues(req.matchInfo);
    if p.hasRequestArg then merged["request" := RequestRef] else merged
  }

  /** The names a duplicate warning is logged for: given by the path and
      also kept from the body or query. */
  function Duplicates(p: Profile, req: Request, kw: Option<map<string, ArgValue>>): set<string> {
    set k | k in req.matchInfo && k in Kept(p, kw)
  }

  /** The outcome of building the keyword arguments: a bad-request response,
      an exception, or the arguments together with the names that were given
      both by the path and by the body or query (each logged as a warning). */
  datatype Binding = Reject(reason: string) | Abort(reason: string) | Bound(args: map<string, ArgValue>, duplicates: set<string>)

  /** Lines 104-162 of `RequestHandler.__call__`. */
  function Bind(p: Profile, req: Request): (b: Binding)
    ensures Collect(p, req).Rejected? ==> b == Reject(Collect(p, req).reason)
    ensures Collect(p, req).Crashed? ==> b == Abort(Collect(p, req).reason)
    ensures b.Abort? ==> Collect(p, req).Crashed?
    ensures b.Bound? ==>
      && (forall n :: n in p.requiredKwArgs ==> n in b.args)
      && (p.hasRequestArg ==> "request" in b.args && b.args["request"] == RequestRef)
      && (forall k :: k in req.matchInfo && !(p.hasRequestArg && k == "request") ==>
            k in b.args && b.args[k] == Text(req.matchInfo[k]))
    ensures b.Bound? <==>
      Collect(p, req).Gathered? && FirstMissing(p.requiredKwArgs, Arguments(p, req, Collect(p, req).kw)).None?
    ensures b.Reject? && !Collect(p, req).Rejected? ==>
      && Collect(p, req).Gathered?
      && FirstMissing(p.requiredKwArgs, Arguments(p, req, Collect(p, req).kw)).Some?
      && b.reason == MissingArgumentPrefix + FirstMissing(p.requiredKwArgs, Arguments(p, req, Collect(p, req).kw)).value
    ensures b.Bound? ==>
      var kept := Kept(p, Collect(p, req).kw);
      && (forall k :: k in b.args <==> k in kept || k in req.matchInfo || (k == "request" && p.hasRequestArg))
      && (forall k :: k in b.args && k !in req.matchInfo && !(k == "request" && p.hasRequestArg) ==>
            b.args[k] == kept[k])
      && b.duplicates == (set k | k in req.matchInfo && k in kept)
  {
    match Collect(p, req)
    case Rejected(reason) => Reject(reason)
    case Crashed(reason) => Abort(reason)
    case Gathered(kw) =>
      var args := Arguments(p, req, kw);
      match FirstMissing(p.requiredKwArgs, args)
      case Some(n) => Reject(MissingArgumentPrefix + n)
      case None => Bound(args, Duplicates(p, req, kw))
  }

  // --------------------------------------------------------------- dispatch

  /** What a view does when called with keyword arguments. */
  datatype Outcome<V> = Returned(value: V) | RaisedApi(e: ApiError) | Raised(reason: string)

  /** What `__call__` hands back to aiohttp: a bad-request response, the
      view's own value, the dictionary built from an `APIError`, or an
      exception that propagates. */
  datatype Reply<V> = BadRequest(reason: string) | Body(value: V)
                    | ErrorBody(error: string, data: string, message: string) | Propagated(reason: string)

  /** `RequestHandler.__call__`. The view is a parameter: any function from
      the keyword arguments to an outcome. */
  function Dispatch<V>(p: Profile, req: Request, view: map<string, ArgValue> -> Outcome<V>): (r: Reply<V>)
    ensures r.BadRequest? <==> Bind(p, req).Reject?
    ensures Bind(p, req).Reject? ==> r == BadRequest(Bind(p, req).reason)
    ensures Bind(p, req).Abort? ==> r == Propagated(Bind(p, req).reason)
    ensures Bind(p, req).Bound? ==>
      match view(Bind(p, req).args)
      case Returned(v) => r == Body(v)
      case RaisedApi(e) => r == ErrorBody(e.error, e.data, e.message)
      case Raised(m) => r == Propagated(m)
    ensures !Bind(p, req).Bound? ==> (r.BadRequest? || r.Propagated?)
  {
    match Bind(p, req)
    case Reject(reason) => BadRequest(reason)
    case Abort(reason) => Propagated(reason)
    case Bound(args, _) =>
      match view(args)
      case Returned(v) => Body(v)
      case RaisedApi(e) => ErrorBody(e.error, e.data, e.message)
      case Raised(m) => Propagated(m)
  }
}

/** What the request handler guarantees about the arguments a view receives. */
module CorowebFacts {
  import opened Wrappers
  import opened Text
  import opened Coroweb

  /** Every required keyword argument is also a named one, so the third test
      of line 107 never changes the answer of the first two. */
  lemma {:induction false} RequiredTestRedundant(h: Handler)
    requires Analyze(h).Success?
    ensures var p := Analyze(h).value;
      && (forall n :: n in p.requiredKwArgs ==> n in p.namedKwArgs)
      && (Interested(p) <==> p.hasVarKwArg || p.hasNamedKwArgs)
  {
    var p := Analyze(h).value;
    if |p.requiredKwArgs| > 0 {
      assert p.requiredKwArgs[0] in p.requiredKwArgs;
    }
  }

  /** A view that takes neither `**kw` nor keyword-only parameters receives
      exactly the path parameters, plus the request when it asks for it;
      neither the body nor the query is read, and it is never refused. */
  lemma {:induction false} PlainViewGetsPathOnly(p: Profile, req: Request)
    requires !Interested(p)
    ensures var b := Bind(p, req);
      && b.Bound?
      && b.duplicates == {}
      && b.args == (if p.hasRequestArg then TextValues(req.matchInfo)["request" := RequestRef]
                    else TextValues(req.matchInfo))
  {
    NothingExtractedGetsPathOnly(p, req);
  }

  /** Whenever nothing is read from the body or the query — the view takes
      no keyword arguments, the verb is neither GET nor POST, or a GET comes
      without a query string — the view is offered exactly the path
      parameters and the request, no duplicate is logged, and the only
      possible refusal is the first required name those leave out. */
  lemma {:induction false} NothingExtractedGetsPathOnly(p: Profile, req: Request)
    requires Interested(p) ==> req.verb != "POST" && (req.verb == "GET" ==> req.queryString == "")
    ensures var path := if p.hasRequestArg then TextValues(req.matchInfo)["request" := RequestRef]
                        else TextValues(req.matchInfo);
      var b := Bind(p, req);
      && (b.Bound? || b.Reject?)
      && (b.Bound? <==> FirstMissing(p.requiredKwArgs, path).None?)
      && (b.Bound? ==> b.args == path && b.duplicates == {})
      && (b.Reject? ==> b.reason == MissingArgumentPrefix + FirstMissing(p.requiredKwArgs, path).value)
  {
    var path := if p.hasRequestArg then TextValues(req.matchInfo)["request" := RequestRef]
                else TextValues(req.matchInfo);
    assert Collect(p, req) == Gathered(None);
    assert Arguments(p, req, None) == path;
    assert Duplicates(p, req, None) == {};
  }

  /** A query field the view accepts reaches it as the field's first value,
      unless a path parameter or the request takes the name. */
  lemma {:induction false} QueryValueReachesView(p: Profile, req: Request, k: string)
    requires Interested(p) && req.verb == "GET" && req.queryString != ""
    requires k in req.query && k !in req.matchInfo && !(k == "request" && p.hasRequestArg)
    requires p.hasVarKwArg || |p.namedKwArgs| == 0 || k in p.namedKwArgs
    requires Bind(p, req).Bound?
    ensures k in Bind(p, req).args && Bind(p, req).args[k] == Text(req.query[k][0])
  {
    assert Collect(p, req) == Gathered(Some(FirstValues(req.query)));
    assert k in Kept(p, Some(FirstValues(req.query)));
  }

  /** Where a bound argument comes from. */
  predicate FromSource(p: Profile, req: Request, k: string, v: ArgValue) {
    || (k == "request" && p.hasRequestArg && v == RequestRef)
    || (k in req.matchInfo && v == Text(req.matchInfo[k]))
    || (&& Collect(p, req).Gathered?
        && Collect(p, req).kw.Some?
        && k in Collect(p, req).kw.value
        && v == Collect(p, req).kw.value[k]
        && (p.hasVarKwArg || |p.namedKwArgs| == 0 || k in p.namedKwArgs))
  }

  /** Nothing else reaches the view: every bound argument is the request,
      a path parameter, or a body or query value the view declared (or that
      it accepts through `**kw`). */
  lemma {:induction false} BoundArgumentsHaveASource(p: Profile, req: Request)
    requires Bind(p, req).Bound?
    ensures forall k :: k in Bind(p, req).args ==> FromSource(p, req, k, Bind(p, req).args[k])
  {
    var c := Collect(p, req);
    var b := Bind(p, req);
    forall k | k in b.args
      ensures FromSource(p, req, k, b.args[k])
    {
      if !(k == "request" && p.hasRequestArg) && k !in req.matchInfo {
        var kept := KeepDeclared(p, c.kw.value);
        assert k in kept;
      }
    }
  }

  /** A view without `**kw` but with keyword-only parameters never sees a
      body or query field it did not declare. */
  lemma {:induction false} UndeclaredFieldsDropped(p: Profile, req: Request)
    requires Bind(p, req).Bound?
    requires !p.hasVarKwArg && |p.namedKwArgs| > 0
    ensures forall k :: k in Bind(p, req).args ==>
      k in p.namedKwArgs || k in req.matchInfo || (k == "request" && p.hasRequestArg)
  {
    BoundArgumentsHaveASource(p, req);
  }

  /** A required name that neither the path, nor the gathered body or query,
      nor the request itself supplies makes the handler answer with a bad
      request naming a missing argument. */
  lemma {:induction false} MissingRequiredRejected(p: Profile, req: Request, n: string)
    requires Collect(p, req).Gathered?
    requires n in p.requiredKwArgs
    requires n !in req.matchInfo
    requires !(n == "request" && p.hasRequestArg)
    requires Collect(p, req).kw.Some? ==> n !in Collect(p, req).kw.value
    ensures Bind(p, req).Reject?
    ensures var missing := FirstMissing(p.requiredKwArgs, Arguments(p, req, Collect(p, req).kw));
      && missing.Some?
      && Bind(p, req).reason == MissingArgumentPrefix + missing.value
      && missing.value in p.requiredKwArgs
  {
    var b := Bind(p, req);
    if b.Bound? {
      BoundArgumentsHaveASource(p, req);
    }
  }

  /** Conversely, when the path parameters alone supply every required
      name, the only way to be refused is by the content checks. */
  lemma {:induction false} PathSuppliesRequired(p: Profile, req: Request)
    requires forall n :: n in p.requiredKwArgs ==> n in req.matchInfo
    ensures Bind(p, req).Reject? ==> Collect(p, req).Rejected?
  {
  }

  /** Registering a `@get` view succeeds exactly when its signature passes
      the `request` check, and records the route under GET on its path. */
  lemma {:induction false} GetViewRegisters(routes: seq<Route>, path: string, fn: Handler)
    ensures var r := AddRoute(routes, Get(path, fn));
      && (r.Success? <==> !Misplaced(fn.params, false))
      && (r.Success? ==> r.value[|routes|].verb == "GET" && r.value[|routes|].path == path)
  {
  }
}
