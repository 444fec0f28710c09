/**
 * Request processing once a route is found (docent/rest/route.py:302-510):
 * validation that rewrites the request in place, the call of the handler with
 * the verb's success status, the choice of documentation page, and the
 * `try`/`except` of `process_request`.
 */
module Dispatch {
  import opened Wrappers
  import opened Text
  import opened PathTemplate
  import opened Responses
  import opened Provenance

  /** The two schema kinds `validate_against_schema` is asked about. */
  datatype SchemaKind = Parameters | Body

  /** Handles on the Resource collaborator's path and method objects. */
  datatype PathObj = PathObj(id: nat)
  datatype MethodObj = MethodObj(id: nat)

  /** The fields of a request, as one value. */
  datatype RequestState = RequestState(
    verb: string,
    path: string,
    pathAsList: seq<string>,
    headers: map<string, string>,
    params: map<string, Value>,
    body: Value)

  /**
   * The collaborators whose code is not part of this model, as functions:
   * each may raise, which is a `Failure`.
   */
  datatype Collaborators = Collaborators(
    validatePath: (Resource, seq<string>) -> Result<string, Failure>,    // rsc.validate_path(path_as_list)
    lookupPath: (string, string) -> Result<PathObj, Failure>,           // rsc.PATHS[module.name][key]
    validateMethod: (PathObj, string, string) -> Option<Failure>,       // path_obj.validate_method(method, path)
    methodOf: (PathObj, string) -> Result<MethodObj, Failure>,          // getattr(path_obj, verb)
    validateAgainstSchema: (MethodObj, SchemaKind, Value) -> Option<Failure>,
    parseRequestDtypes: (MethodObj, Value, map<string, Value>) -> Result<(Value, map<string, Value>), Failure>,
    invoke: (MethodObj, RequestState) -> Result<Value, Failure>,        // method_obj(request)
    successCodes: map<string, int>,                                     // METHOD_SUCCESS_CODES
    errorCode: Exc -> int)                                              // Error.from_exception(e).errorCode

  /** A request object; validation reassigns its `body` and `params`. */
  class Request {
    var verb: string
    var path: string
    var pathAsList: seq<string>
    var headers: map<string, string>
    var params: map<string, Value>
    var body: Value

    function State(): RequestState
      reads this
    {
      RequestState(verb, path, pathAsList, headers, params, body)
    }

    constructor (s: RequestState)
      ensures State() == s
    {
      verb, path, pathAsList := s.verb, s.path, s.pathAsList;
      headers, params, body := s.headers, s.params, s.body;
    }
  }

  // ---------------------------------------------------------------------------
  // _validate_resource_request

  /**
   * The operation key: `'NO_ID'` for a POST in any letter case, without
   * consulting `rsc.validate_path`; for every other verb, what `validate_path`
   * returns or raises.
   */
  function OperationKey(rsc: Resource, st: RequestState, c: Collaborators): (key: Result<string, Failure>)
    ensures key == if EqualIgnoringCase(st.verb, "POST") then Ok("NO_ID") else c.validatePath(rsc, st.pathAsList)
  {
    LowerIdentifiesCase(st.verb, "POST");
    assert Lower("POST") == "post";
    if Lower(st.verb) == "post" then Ok("NO_ID") else c.validatePath(rsc, st.pathAsList)
  }

  /** `parameters = {}; parameters.update(headers); parameters.update(params)`: params win on a clash. */
  function MergeParameters(headers: map<string, string>, params: map<string, Value>): (merged: map<string, Value>)
    ensures merged.Keys == headers.Keys + params.Keys
    ensures forall k :: k in params ==> merged[k] == params[k]
    ensures forall k :: k in headers && k !in params ==> merged[k] == Str(headers[k])
  {
    (map k | k in headers :: Str(headers[k])) + params
  }

  /** One call of `validate_against_schema`. */
  datatype SchemaCheck = SchemaCheck(kind: SchemaKind, data: Value)

  /**
   * The schema checks that run, in order: parameters exactly when the merged
   * map is non-empty, the body exactly when it is truthy, parameters first.
   */
  function SchemaChecks(merged: map<string, Value>, body: Value): (checks: seq<SchemaCheck>)
    ensures SchemaCheck(Parameters, Dict(merged)) in checks <==> |merged| > 0
    ensures SchemaCheck(Body, body) in checks <==> Truthy(body)
    ensures forall ch :: ch in checks ==> ch == SchemaCheck(Parameters, Dict(merged)) || ch == SchemaCheck(Body, body)
    ensures |merged| > 0 ==> checks[0].kind == Parameters
  {
    (if |merged| > 0 then [SchemaCheck(Parameters, Dict(merged))] else [])
    + (if Truthy(body) then [SchemaCheck(Body, body)] else [])
  }

  /** The first failure among the checks, in order. */
  function RunChecks(m: MethodObj, checks: seq<SchemaCheck>, c: Collaborators): (r: Option<Failure>)
    ensures r == None <==> forall i :: 0 <= i < |checks| ==> c.validateAgainstSchema(m, checks[i].kind, checks[i].data) == None
  {
    if |checks| == 0 then None
    else match c.validateAgainstSchema(m, checks[0].kind, checks[0].data)
      case Some(f) => Some(f)
      case None =>
        assert forall i :: 1 <= i < |checks| ==> checks[i] == checks[1..][i - 1];
        RunChecks(m, checks[1..], c)
  }

  /** A failure is the first failing check's. */
  lemma {:induction false} RunChecksFirstFailure(m: MethodObj, checks: seq<SchemaCheck>, c: Collaborators)
    ensures RunChecks(m, checks, c).Some? ==>
              exists i :: 0 <= i < |checks| && RunChecks(m, checks, c) == c.validateAgainstSchema(m, checks[i].kind, checks[i].data)
                          && forall j :: 0 <= j < i ==> c.validateAgainstSchema(m, checks[j].kind, checks[j].data) == None
  {
    if |checks| > 0 {
      RunChecksFirstFailure(m, checks[1..], c);
      assert forall i :: 1 <= i < |checks| ==> checks[i] == checks[1..][i - 1];
      if RunChecks(m, checks, c).Some? && c.validateAgainstSchema(m, checks[0].kind, checks[0].data) == None {
        var i :| 0 <= i < |checks[1..]| && RunChecks(m, checks[1..], c) == c.validateAgainstSchema(m, checks[1..][i].kind, checks[1..][i].data)
                 && forall j :: 0 <= j < i ==> c.validateAgainstSchema(m, checks[1..][j].kind, checks[1..][j].data) == None;
        assert RunChecks(m, checks, c) == c.validateAgainstSchema(m, checks[i + 1].kind, checks[i + 1].data);
      }
    }
  }

  /** A validated request: the method object to call and the rewritten request. */
  datatype Validated = Validated(handler: MethodObj, state: RequestState)

  /** `rsc.PATHS['<module>.<name>'][path_key]`: the path object for the operation key. */
  function PathObjFor(rsc: Resource, st: RequestState, c: Collaborators): (r: Result<PathObj, Failure>)
    ensures OperationKey(rsc, st, c).Err? ==> r == Err(OperationKey(rsc, st, c).error)
    ensures OperationKey(rsc, st, c).Ok? ==> r == c.lookupPath(rsc.moduleName + "." + rsc.name, OperationKey(rsc, st, c).value)
  {
    match OperationKey(rsc, st, c)
    case Err(f) => Err(f)
    case Ok(key) => c.lookupPath(rsc.moduleName + "." + rsc.name, key)
  }

  /**
   * The first half of `_validate_resource_request`: the path object,
   * `validate_method`, and the method object for the lower-cased verb. It
   * succeeds exactly when all three steps do, with the method object found;
   * a failure is the first failing step's.
   */
  function ResolveMethod(rsc: Resource, st: RequestState, c: Collaborators): (r: Result<MethodObj, Failure>)
    ensures var po := PathObjFor(rsc, st, c);
            r.Ok? <==> po.Ok? && c.validateMethod(po.value, st.verb, st.path).None? && c.methodOf(po.value, Lower(st.verb)).Ok?
    ensures var po := PathObjFor(rsc, st, c);
            r.Ok? ==> r == c.methodOf(po.value, Lower(st.verb))
    ensures var po := PathObjFor(rsc, st, c);
            r.Err? ==> r.error == if po.Err? then po.error
                                  else if c.validateMethod(po.value, st.verb, st.path).Some? then c.validateMethod(po.value, st.verb, st.path).value
                                  else c.methodOf(po.value, Lower(st.verb)).error
  {
    match PathObjFor(rsc, st, c)
    case Err(f) => Err(f)
    case Ok(po) =>
      match c.validateMethod(po, st.verb, st.path)
      case Some(f) => Err(f)
      case None => c.methodOf(po, Lower(st.verb))
  }

  /** `_validate_resource_request` as a function of the request's fields. */
  function Validate(rsc: Resource, st: RequestState, c: Collaborators): (r: Result<Validated, Failure>)
    ensures r.Ok? ==> var s := r.value.state;
                      && s.verb == st.verb && s.path == st.path && s.pathAsList == st.pathAsList
                      && s.headers == st.headers
                      && c.parseRequestDtypes(r.value.handler, st.body, st.params) == Ok((s.body, s.params))
    ensures r.Ok? ==> ResolveMethod(rsc, st, c) == Ok(r.value.handler)
                      && RunChecks(r.value.handler, SchemaChecks(MergeParameters(st.headers, st.params), st.body), c) == None
    // Accepted exactly when every step succeeds ...
    ensures var m := ResolveMethod(rsc, st, c);
            r.Ok? <==> && m.Ok?
                       && RunChecks(m.value, SchemaChecks(MergeParameters(st.headers, st.params), st.body), c) == None
                       && c.parseRequestDtypes(m.value, st.body, st.params).Ok?
    // ... and a rejected request carries the first failing step's failure.
    ensures var m := ResolveMethod(rsc, st, c);
            r.Err? ==> r.error == if m.Err? then m.error
                                  else if RunChecks(m.value, SchemaChecks(MergeParameters(st.headers, st.params), st.body), c).Some?
                                  then RunChecks(m.value, SchemaChecks(MergeParameters(st.headers, st.params), st.body), c).value
                                  else c.parseRequestDtypes(m.value, st.body, st.params).error
  {
    match ResolveMethod(rsc, st, c)
    case Err(f) => Err(f)
    case Ok(m) =>
      match RunChecks(m, SchemaChecks(MergeParameters(st.headers, st.params), st.body), c)
      case Some(f) => Err(f)
      case None =>
        match c.parseRequestDtypes(m, st.body, st.params)
        case Err(f) => Err(f)
        case Ok(parsed) => Ok(Validated(m, st.(body := parsed.0, params := parsed.1)))
  }

  /** The two `update` calls that build `parameters`, each made only when its source is non-empty. */
  method BuildParameters(headers: map<string, string>, params: map<string, Value>) returns (parameters: map<string, Value>)
    ensures parameters == MergeParameters(headers, params)
  {
    var fromHeaders := map k | k in headers :: Str(headers[k]);
    parameters := map[];
    if |headers| > 0 {
      parameters := parameters + fromHeaders;
    } else {
      assert headers == map[];
      assert fromHeaders == map[];
    }
    assert parameters == fromHeaders;
    if |params| > 0 {
      parameters := parameters + params;
    } else {
      assert params == map[];
      assert fromHeaders + params == fromHeaders;
    }
  }

  /** The two guarded `validate_against_schema` calls, stopping at the first failure. */
  method CheckSchemas(m: MethodObj, parameters: map<string, Value>, body: Value, c: Collaborators)
    returns (failure: Option<Failure>)
    ensures failure == RunChecks(m, SchemaChecks(parameters, body), c)
  {
    ghost var bodyChecks := if Truthy(body) then [SchemaCheck(Body, body)] else [];
    ghost var checks := SchemaChecks(parameters, body);
    if |parameters| > 0 {
      failure := c.validateAgainstSchema(m, Parameters, Dict(parameters));
      assert checks[0] == SchemaCheck(Parameters, Dict(parameters));
      if failure.Some? {
        assert RunChecks(m, checks, c) == failure;
        return;
      }
      assert checks[1..] == bodyChecks;
    } else {
      assert checks == bodyChecks;
    }
    assert RunChecks(m, checks, c) == RunChecks(m, bodyChecks, c);
    if Truthy(body) {
      failure := c.validateAgainstSchema(m, Body, body);
      assert bodyChecks[1..] == [];
      if failure.Some? {
        assert RunChecks(m, bodyChecks, c) == failure;
        return;
      }
    }
    assert RunChecks(m, bodyChecks, c) == None;
    failure := None;
  }

  /**
   * `_validate_resource_request` on the request object: on success `body` and
   * `params` hold the outputs of `parse_request_dtypes` and nothing else of the
   * request changes; on a failure the request is untouched. The same object is
   * returned.
   */
  method ValidateResourceRequest(rsc: Resource, request: Request, c: Collaborators)
    returns (res: Result<MethodObj, Failure>, same: Request)
    modifies request
    ensures same == request
    ensures var v := Validate(rsc, old(request.State()), c);
            && (v.Ok? ==> res == Ok(v.value.handler) && request.State() == v.value.state)
            && (v.Err? ==> res == Err(v.error) && request.State() == old(request.State()))
  {
    same := request;
    var m := ResolveMethod(rsc, request.State(), c);
    if m.Err? {
      return Err(m.error), same;
    }
    var parameters := BuildParameters(request.headers, request.params);
    var failure := CheckSchemas(m.value, parameters, request.body, c);
    if failure.Some? {
      return Err(failure.value), same;
    }
    var parsed := c.parseRequestDtypes(m.value, request.body, request.params);
    if parsed.Err? {
      return Err(parsed.error), same;
    }
    request.body := parsed.value.0;
    request.params := parsed.value.1;
    res := Ok(m.value);
  }

  // ---------------------------------------------------------------------------
  // _handle_resource_request and _handle_docs_request

  /**
   * `METHOD_SUCCESS_CODES.get(method.lower(), 200)`: a lower-case key that
   * matches the verb in any letter case gives its code; a verb that matches no
   * lower-case key gets 200, whatever keys in other letter cases it matches.
   */
  function SuccessStatus(codes: map<string, int>, verb: string): (status: int)
    ensures forall k :: k in codes && Lower(k) == k && EqualIgnoringCase(k, verb) ==> status == codes[k]
    ensures (forall k :: k in codes && Lower(k) == k ==> !EqualIgnoringCase(k, verb)) ==> status == 200
  {
    assert forall k :: k in codes && Lower(k) == k && EqualIgnoringCase(k, verb) ==> Lower(verb) == k by {
      forall k | k in codes && Lower(k) == k && EqualIgnoringCase(k, verb) ensures Lower(verb) == k {
        LowerIdentifiesCase(k, verb);
      }
    }
    LowerIdempotent(verb);
    assert EqualIgnoringCase(Lower(verb), verb) by {
      LowerIdentifiesCase(Lower(verb), verb);
    }
    if Lower(verb) in codes then
      // `Lower(verb)` itself is a lower-case key matching the verb
      assert Lower(Lower(verb)) == Lower(verb);
      codes[Lower(verb)]
    else 200
  }

  /** The verb's letter case does not affect the success status. */
  lemma SuccessStatusIgnoresCase(codes: map<string, int>, m1: string, m2: string)
    requires EqualIgnoringCase(m1, m2)
    ensures SuccessStatus(codes, m1) == SuccessStatus(codes, m2)
  {
    LowerIdentifiesCase(m1, m2);
  }

  /** `method_obj(request)` with the verb's success status. */
  function HandleResourceRequest(m: MethodObj, st: RequestState, c: Collaborators): (r: Result<(Response, int), Failure>)
    ensures r.Ok? ==> r.value.0.Handled? && r.value.1 == SuccessStatus(c.successCodes, st.verb)
    ensures r.Ok? <==> c.invoke(m, st).Ok?
    ensures c.invoke(m, st).Ok? ==> r.value.0 == Handled(c.invoke(m, st).value)
    ensures c.invoke(m, st).Err? ==> r.error == c.invoke(m, st).error
  {
    match c.invoke(m, st)
    case Err(f) => Err(f)
    case Ok(v) => Ok((Handled(v), SuccessStatus(c.successCodes, st.verb)))
  }

  /** The documentation page for a request path; `suffices` is the Swagger class's `PATH_SUFFICES`. */
  function DocsVariant(path: string, suffices: seq<string>): (k: DocsKind)
    // A suffix page is chosen only for a path with that suffix ...
    ensures SuffixOf(k) in DocSuffixes ==> EndsWith(path, SuffixOf(k))
    // ... the HTML page exactly when no suffix matches ...
    ensures SuffixOf(k) !in DocSuffixes <==> forall a :: a in DocSuffixes ==> !EndsWith(path, a)
    // ... pointing at `docs.yaml` under the suffices when they are set.
    ensures SuffixOf(k) !in DocSuffixes ==>
              k == if |suffices| > 0 then SwaggerHtmlWithSpec("/" + Join(suffices + ["docs.yaml"], "/")) else SwaggerHtml
  {
    assert DocSuffixes[0] == ".json" && DocSuffixes[1] == ".yaml" && DocSuffixes[2] == ".ico";
    assert DocSuffixes[3] == "16x16.png" && DocSuffixes[4] == "32x32.png";
    if EndsWith(path, ".json") then SwaggerJson
    else if EndsWith(path, ".yaml") then SwaggerYaml
    else if EndsWith(path, ".ico") then SwaggerIcon
    else if EndsWith(path, "16x16.png") then SwaggerIcon16
    else if EndsWith(path, "32x32.png") then SwaggerIcon32
    else if |suffices| > 0 then SwaggerHtmlWithSpec("/" + Join(suffices + ["docs.yaml"], "/"))
    else SwaggerHtml
  }

  /** The suffix a documentation variant is chosen by. */
  function SuffixOf(k: DocsKind): string {
    match k
    case SwaggerJson => ".json"
    case SwaggerYaml => ".yaml"
    case SwaggerIcon => ".ico"
    case SwaggerIcon16 => "16x16.png"
    case SwaggerIcon32 => "32x32.png"
    case SwaggerHtmlWithSpec(_) => ""
    case SwaggerHtml => ""
  }

  lemma EndsWithBoth(s: string, a: string, b: string)
    requires EndsWith(s, a) && EndsWith(s, b) && |a| <= |b|
    ensures EndsWith(b, a)
  {
    assert b[|b| - |a|..] == s[|s| - |a|..];
  }

  /** The suffixes that select a page other than the HTML one. */
  const DocSuffixes: seq<string> := [".json", ".yaml", ".ico", "16x16.png", "32x32.png"]

  /** No path ends in two different documentation suffixes. */
  lemma DocSuffixesExclusive(path: string, a: string, b: string)
    requires a in DocSuffixes && b in DocSuffixes && a != b
    ensures !(EndsWith(path, a) && EndsWith(path, b))
  {
    if EndsWith(path, a) && EndsWith(path, b) {
      if |a| <= |b| {
        EndsWithBoth(path, a, b);
      } else {
        EndsWithBoth(path, b, a);
      }
    }
  }

  /**
   * Because the suffixes exclude each other, the page does not depend on the
   * order they are tested in: a path ending in one of them gets that page.
   */
  lemma DocsVariantBySuffix(path: string, suffices: seq<string>, k: DocsKind)
    requires SuffixOf(k) in DocSuffixes
    ensures DocsVariant(path, suffices) == k <==> EndsWith(path, SuffixOf(k))
  {
    var s := SuffixOf(k);
    if EndsWith(path, s) {
      forall a | a in DocSuffixes && a != s ensures !EndsWith(path, a) {
        DocSuffixesExclusive(path, a, s);
      }
      assert DocSuffixes[0] == ".json" && DocSuffixes[1] == ".yaml" && DocSuffixes[2] == ".ico";
      assert DocSuffixes[3] == "16x16.png" && DocSuffixes[4] == "32x32.png";
    }
  }

  /** `_handle_docs_request`: the chosen page with status 200, always. */
  function HandleDocsRequest(path: string, suffices: seq<string>): (r: (Response, int))
    ensures r.1 == 200 && r.0.Page?
  {
    (Page(DocsVariant(path, suffices)), 200)
  }

  // ---------------------------------------------------------------------------
  // process_request

  /** What `process_request` is given: the Swagger documentation class, or an application resource. */
  datatype Target = DocsTarget(suffices: seq<string>) | ResourceTarget(rsc: Resource)

  /**
   * `process_request`: validation (skipped for documentation), the handler and
   * its status, and any failure classified by the `except` branch. Returns the
   * outcome and the request's fields afterwards.
   */
  function Process(t: Target, st: RequestState, c: Collaborators): (r: (Outcome, RequestState))
    ensures t.DocsTarget? ==> r == (Replied(Page(DocsVariant(st.path, t.suffices)), 200), st)
    ensures r.0.Replied? && r.0.response.Handled? ==>
              t.ResourceTarget? && r.0.status == SuccessStatus(c.successCodes, st.verb)
    ensures r.0.Replied? && r.0.response.ErrorResponse? ==> r.0.status == c.errorCode(r.0.response.exc)
    ensures r.0.Escaped? ==> r.0.uncaught == UnboundLocalError
    ensures r.1 == st || (t.ResourceTarget? && Validate(t.rsc, st, c).Ok? && r.1 == Validate(t.rsc, st, c).value.state)
    // For a resource: a failure of validation or of the handler goes through the `except` branch,
    // and the handler, called on the validated request, has its result returned.
    ensures t.ResourceTarget? ==>
              match Validate(t.rsc, st, c)
              case Err(f) => r == (ErrorOutcome(f, TopModule(t.rsc.moduleName), c.errorCode), st)
              case Ok(v) =>
                match c.invoke(v.handler, v.state)
                case Ok(x) => r == (Replied(Handled(x), SuccessStatus(c.successCodes, st.verb)), v.state)
                case Err(f) => r == (ErrorOutcome(f, TopModule(t.rsc.moduleName), c.errorCode), v.state)
  {
    match t
    case DocsTarget(suffices) =>
      var (resp, status) := HandleDocsRequest(st.path, suffices);
      (Replied(resp, status), st)
    case ResourceTarget(rsc) =>
      match Validate(rsc, st, c)
      case Err(f) => (ErrorOutcome(f, TopModule(rsc.moduleName), c.errorCode), st)
      case Ok(v) =>
        match HandleResourceRequest(v.handler, v.state, c)
        case Err(f) => (ErrorOutcome(f, TopModule(rsc.moduleName), c.errorCode), v.state)
        case Ok((resp, status)) => (Replied(resp, status), v.state)
  }

  /** `process_request` on the request object. */
  method ProcessRequest(t: Target, request: Request, c: Collaborators) returns (out: Outcome)
    modifies request
    ensures (out, request.State()) == Process(t, old(request.State()), c)
  {
    if t.DocsTarget? {
      var (resp, status) := HandleDocsRequest(request.path, t.suffices);
      return Replied(resp, status);
    }
    var rsc := t.rsc;
    var res, _ := ValidateResourceRequest(rsc, request, c);
    if res.Err? {
      return ErrorOutcome(res.error, TopModule(rsc.moduleName), c.errorCode);
    }
    var handled := HandleResourceRequest(res.value, request.State(), c);
    if handled.Err? {
      return ErrorOutcome(handled.error, TopModule(rsc.moduleName), c.errorCode);
    }
    out := Replied(handled.value.0, handled.value.1);
  }
}
