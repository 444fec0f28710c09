/**
 * The resource registry and request entry point of docent's REST layer
 * (docent/rest/route.py, `RouteMeta` and `Route`): registration appends
 * entries, `route_request` walks them, and `__getitem__` turns the result
 * into a response.
 */
module Route {
  import opened Wrappers
  import opened Text
  import opened PathTemplate
  import opened Matching
  import opened Responses
  import opened Dispatch

  /** The message of the `FileNotFoundError` for an unroutable path. */
  function NotFoundMessage(path: string): string {
    "Invalid request path. No resource could be found at path: " + path
  }

  /** `if not cls.API`: the API name is unset while it is `None` or empty. */
  predicate ApiUnset(api: Option<string>) {
    api == None || api == Some("")
  }

  /**
   * `RouteMeta.__getitem__` as a function: route the path, answer an
   * unroutable one with the not-found error, let the `IndexError` of an empty
   * path escape, and process everything else. `swagger` is the documentation
   * class. Returns the outcome and the request's fields afterwards.
   */
  function Serve(entries: seq<Entry>, st: RequestState, swagger: Target, c: Collaborators): (r: (Outcome, RequestState))
    requires swagger.DocsTarget?
    // Anything routed is handed to `process_request`: the documentation class or the resource found.
    ensures Routed(entries, st.pathAsList) == Swagger ==> r == Process(swagger, st, c)
    ensures Routed(entries, st.pathAsList).Found? ==> r == Process(ResourceTarget(Routed(entries, st.pathAsList).resource), st, c)
    // An unroutable path gets the not-found error, with its `errorCode` as status, and the request is untouched.
    ensures Routed(entries, st.pathAsList) == NoMatch ==>
              var e := FileNotFound(NotFoundMessage(st.path));
              r == (Replied(ErrorResponse(e, c.errorCode(e)), c.errorCode(e)), st)
    // The `IndexError` escapes exactly when routing faulted; nothing else escapes but the unbound-name error.
    ensures r.0 == Escaped(IndexError) <==> Routed(entries, st.pathAsList) == IndexFault
    ensures r.0.Escaped? ==> r.0.uncaught in {IndexError, UnboundLocalError}
    // Every error response, whatever its cause, carries its own `errorCode` as the status.
    ensures r.0.Replied? && r.0.response.ErrorResponse? ==> r.0.status == c.errorCode(r.0.response.exc)
    // A handler's result comes with the success status of the request's verb.
    ensures r.0.Replied? && r.0.response.Handled? ==> r.0.status == SuccessStatus(c.successCodes, st.verb)
    // The request changes only when a routed resource's validation succeeded.
    ensures r.1 == st || (Routed(entries, st.pathAsList).Found?
                          && Validate(Routed(entries, st.pathAsList).resource, st, c).Ok?
                          && r.1 == Validate(Routed(entries, st.pathAsList).resource, st, c).value.state)
  {
    match Routed(entries, st.pathAsList)
    case Swagger => Process(swagger, st, c)
    case Found(rsc) => Process(ResourceTarget(rsc), st, c)
    case NoMatch =>
      var e := FileNotFound(NotFoundMessage(st.path));
      (Replied(ErrorResponse(e, c.errorCode(e)), c.errorCode(e)), st)
    case IndexFault => (Escaped(IndexError), st)
  }

  /** `[v for i, v in enumerate(path) if i not in ph and i < limit]`. */
  method TrimPath(path: seq<string>, ph: set<nat>, limit: nat) returns (trimmed: seq<string>)
    ensures trimmed == Trimmed(path, ph, limit)
  {
    trimmed := [];
    for i := 0 to |path|
      invariant Trimmed(path, ph, limit) == trimmed + TrimFrom(path, ph, limit, i)
    {
      if i !in ph && i < limit {
        trimmed := trimmed + [path[i]];
      }
    }
  }

  /** The class-level registry: `APPLICATION_RESOURCES` and `API`. */
  class RouteRegistry {
    /** The substitution of `PATH_ID_PARSE_EXPR` by the empty string. */
    const stripIds: string -> string
    var entries: seq<Entry>
    var api: Option<string>

    constructor (stripIds: string -> string)
      ensures this.stripIds == stripIds && entries == [] && api == None
    {
      this.stripIds := stripIds;
      entries := [];
      api := None;
    }

    /**
     * `RouteMeta.__wrapped_call__`: append the resource's entry, then the
     * synthesised `Enums` entry when `include_enums_endpoint` is set; set the
     * API name from the first registration that finds it unset; return the
     * resource.
     */
    method Register(rsc: Resource, includeEnumsEndpoint: bool, enumsPathSchema: string) returns (registered: Resource)
      modifies this
      ensures registered == rsc
      ensures |entries| == |old(entries)| + (if includeEnumsEndpoint then 2 else 1)
      ensures entries[..|old(entries)|] == old(entries)
      ensures entries[|old(entries)|] == MakeEntry(rsc, stripIds)
      ensures includeEnumsEndpoint ==> entries[|old(entries)| + 1] == MakeEntry(EnumsResource(enumsPathSchema), stripIds)
      ensures api == if ApiUnset(old(api)) then Some(TopModule(rsc.moduleName)) else old(api)
    {
      entries := entries + [MakeEntry(rsc, stripIds)];
      if includeEnumsEndpoint {
        entries := entries + [MakeEntry(EnumsResource(enumsPathSchema), stripIds)];
      }
      if ApiUnset(api) {
        api := Some(TopModule(rsc.moduleName));
      }
      registered := rsc;
    }

    /** `Route.route_request`: the documentation short-circuit, then the first-match loop. */
    method RouteRequest(path: seq<string>) returns (r: RouteResult)
      ensures r == Routed(entries, path)
    {
      if |path| > 0 && (Contains(path[|path| - 1], "favicon") || Contains(path[|path| - 1], "docs")) {
        return Swagger;
      }
      for i := 0 to |entries|
        invariant Search(entries, path) == Search(entries[i..], path)
      {
        var e := entries[i];
        assert entries[i..][1..] == entries[i + 1..];
        if e.schema == "healthz" && |path| == 0 {
          return Found(e.resource);
        } else if |path| == 0 {
          return IndexFault;
        } else if path[|path| - 1] == "enums" && !EndsWith(e.schema, "enums") {
          continue;
        } else if |path| > |Split(e.schema, "/")| + |e.placeholders| + 1 {
          continue;
        } else if |path| < |Split(e.schema, "/")| + |e.placeholders| {
          continue;
        }
        var s := Split(e.schema, "/");
        var trimmed := TrimPath(path, e.placeholders, |s|);
        if e.schema == Join(trimmed, "/") {
          return Found(e.resource);
        }
      }
      return NoMatch;
    }

    /** `RouteMeta.__getitem__`: route the request's path, then answer or process it. */
    method GetItem(request: Request, swagger: Target, c: Collaborators) returns (out: Outcome)
      requires swagger.DocsTarget?
      modifies request
      ensures (out, request.State()) == Serve(entries, old(request.State()), swagger, c)
    {
      var found := RouteRequest(request.pathAsList);
      if found.NoMatch? {
        var e := FileNotFound(NotFoundMessage(request.path));
        return Replied(ErrorResponse(e, c.errorCode(e)), c.errorCode(e));
      } else if found.IndexFault? {
        return Escaped(IndexError);
      } else if found.Swagger? {
        out := ProcessRequest(swagger, request, c);
      } else {
        out := ProcessRequest(ResourceTarget(found.resource), request, c);
      }
    }
  }
}
