# docent REST routing and query fields, in Dafny

This project models the request-handling core of docent's REST layer and the
field and class machinery of its core types:

- **Registration** (`RouteMeta.__wrapped_call__`). Each registered resource
  appends an entry to the class-level registry. The entry holds the normalised
  path schema, the indices of its `{...}` placeholder segments and the
  resource itself. When `include_enums_endpoint` is set, a second entry
  follows for the synthesised `Enums` resource. The first registration that
  finds `API` unset sets it to the resource's top-level package.
- **Routing** (`Route.route_request`). If the last path segment mentions
  `favicon` or `docs`, the request goes to the Swagger documentation class.
  Otherwise the registry is walked in registration order, and the first entry
  that is not skipped decides the result:
  - a `healthz` entry meeting an empty path is taken;
  - any other entry meeting an empty path raises `IndexError`;
  - a trailing `enums` segment skips every entry whose schema does not end in
    `enums`;
  - paths outside the length window `[L + P, L + P + 1]` are skipped;
  - otherwise the entry is taken when its schema equals the `/`-join of the
    path's kept segments.
- **The entry point** (`RouteMeta.__getitem__`). An unroutable path is
  answered with a `FileNotFoundError` response. The `IndexError` of routing
  escapes. Everything else goes through `process_request`:
  - validation rewrites the request's `body` and `params` in place;
  - the handler's result comes with the verb's success status;
  - documentation requests get one of seven pages, always with status 200;
  - every failure goes through the `except` branch. It classifies the last
    traceback frame: the original exception is surfaced, it is masked as
    `UnexpectedError`, or the unbound name `is_error_from_api` makes an
    `UnboundLocalError` escape.
- **Query fields and the object registry** (docent/core/types.py).
  - The six `DocField` comparisons each build a single-entry filter
    `{name: {tag: value}}`.
  - `from_dataclass_field` copies a field's name and type.
  - `DocMeta.__getattribute__` answers a dataclass field name with its
    `DocField`.
  - `DocMeta.__call__` registers application classes (never those of
    `docent.core` or `docent.rest`) first-wins under their `reference`. Its
    own lookups go through `__getattribute__`, so a class other than
    `DocObject` without dataclass fields makes the call raise
    `AttributeError` before anything is registered.

Where the code updates state, the model is imperative. `RouteRegistry`
(entries and `API`), `Request` (its fields) and `ObjectRegistry` (the shared
dictionary) are classes whose methods are proved against specification
functions. Routing, classification, validation and filter construction are
functions, with lemmas about them.

Two behaviours of the code are easy to misread; the model follows the code:

- An empty path reaches a `healthz` entry only when that entry comes first in
  the registry. Any earlier entry evaluates `request_path_as_list[-1]`, and
  the resulting `IndexError` escapes (`Matching.RouteEmptyPath`,
  `Route.Serve`).
- The length window is closed at both ends: a path of `L + P + 1` segments is
  still compared.

The `except` branch reads `is_error_from_api` even when the frame did not
split into three parts. A last frame whose code line holds `", "` (such as
`raise ValueError(a, b)`) therefore escapes as `UnboundLocalError`
(`Provenance.ClassifyCommaInCode`). The model keeps this behaviour as written.

## Model

| member | source | states |
|---|---|---|
| PathTemplate.PlaceholderIndices | docent/rest/route.py:64-69 | an index is a placeholder index exactly when it indexes a segment of `path_schema.split('/')` that starts with `{` and ends with `}` |
| PathTemplate.Normalize | docent/rest/route.py:59-63 | the stored schema is a slice of the substituted schema with only `/` characters cut off either end, and neither begins nor ends with `/` |
| PathTemplate.TopModule | docent/rest/route.py:136-137 | the API name is the prefix of the module path up to its first `.` (the whole path when it has none) |
| PathTemplate.MakeEntry | docent/rest/route.py:57-72 | the entry holds the resource, its normalised schema, and exactly the placeholder indices of the raw schema's `/`-segments |
| Route.RouteRegistry.constructor | docent/rest/route.py:46-47 | the registry starts empty with `API` unset |
| Route.RouteRegistry.Register | docent/rest/route.py:49-139 | appends the resource's entry and, with `include_enums_endpoint`, the `Enums` entry right after it; keeps earlier entries; sets `API` only when it was unset; returns the resource |
| Matching.Routed | docent/rest/route.py:256-262 | the result is the Swagger class exactly when the last segment contains `favicon` or `docs`; otherwise it is the first-match search |
| Matching.Check | docent/rest/route.py:264-300 | an entry is taken exactly when it is `healthz` meeting an empty path, or the path passes the enums filter and the length window and its kept segments join to the schema; it raises `IndexError` exactly when the path is empty and the entry is not `healthz` |
| Matching.Search | docent/rest/route.py:264-300 | the loop never yields the documentation class, and yields `None` exactly when every entry is skipped |
| Matching.SearchDecided | docent/rest/route.py:264-300 | the first entry not skipped decides: its resource if taken, the `IndexError` otherwise |
| Matching.SearchWitness | docent/rest/route.py:264-300 | any result other than `None` comes from an entry all of whose predecessors were skipped |
| Matching.RouteFound | docent/rest/route.py:250-300 | a returned resource belongs to the first taken entry in registration order, every earlier entry was skipped, and that entry is the `healthz` probe or a structural match |
| Matching.RouteEnumsFilter | docent/rest/route.py:270-274 | a path ending in `enums` only reaches an entry whose schema ends in `enums` |
| Matching.RouteNoMatch | docent/rest/route.py:250-300 | `None` exactly when the request is not for documentation and every entry is skipped |
| Matching.RouteEmptyPath | docent/rest/route.py:264-271 | an empty path reaches the first entry's resource if it is `healthz`, and `IndexError` otherwise |
| Matching.SearchAppend | docent/rest/route.py:264-300 | walking `a + b` walks `a` first and reaches `b` only when every entry of `a` was skipped |
| Matching.RouteStableUnderAppend | docent/rest/route.py:57-72 | registering more resources never changes where an already routable path goes |
| Matching.CheckRoundTrip | docent/rest/route.py:275-300 | the schema's own segments followed by one value per placeholder (and at most one more segment) are taken, when the placeholders follow the literal segments |
| Route.TrimPath | docent/rest/route.py:287-297 | the loop keeps exactly the segments below the literal count that are not placeholders, in order |
| Route.RouteRegistry.RouteRequest | docent/rest/route.py:250-300 | the loop returns the routing result defined by `Matching.Routed` on the current entries |
| Route.Serve | docent/rest/route.py:156-200 | a documentation path and a routed resource are handed to `process_request`; an unroutable path gets a `FileNotFoundError` response carrying the path in its message, with that error's code as status, and the request is untouched; `IndexError` escapes exactly when routing faulted, and nothing escapes except `IndexError` and `UnboundLocalError`; every error response carries its own `errorCode` as status; a handler's result carries the verb's success status; the request changes only through a routed resource's successful validation |
| Route.RouteRegistry.GetItem | docent/rest/route.py:156-200 | the response and the request's new fields are those of routing then processing the request's path |
| Provenance.ClassifyThreeParts | docent/rest/route.py:356-362 | a frame `file, line, code` is surfaced exactly when `code` holds ` raise ` or `file` holds the API module name; otherwise it is masked |
| Provenance.ClassifyCommaInCode | docent/rest/route.py:356-362 | a frame whose code part holds `", "` leaves `is_error_from_api` unbound |
| Provenance.ClassifyUnsplit | docent/rest/route.py:356-362 | a frame with no `", "` leaves `is_error_from_api` unbound |
| Provenance.Classify | docent/rest/route.py:352-362 | the name is unbound exactly when the stripped frame does not split into three parts on `", "`; the exception is surfaced exactly when it does and the third part holds ` raise ` or the first holds the API module name |
| Provenance.ErrorOutcome | docent/rest/route.py:351-368 | an `UnboundLocalError` escapes exactly when the name is unbound; otherwise the response is the error of the original exception (surfaced) or of `UnexpectedError` (masked), with that error's `errorCode` as status |
| Dispatch.OperationKey | docent/rest/route.py:473-476 | a POST in any letter case uses `NO_ID` without consulting `validate_path`; any other verb uses what `validate_path` returns or raises |
| Dispatch.PathObjFor | docent/rest/route.py:478-480 | the path object is looked up under `<module>.<name>` and the operation key; a failing key is passed on |
| Dispatch.ResolveMethod | docent/rest/route.py:473-486 | the method object is found exactly when the path object is found, `validate_method` passes and the lower-cased verb names a method; it is that method; a failure is the first failing step's |
| Dispatch.MergeParameters | docent/rest/route.py:488-493 | the parameters hold every header and every query parameter; on a clash the query parameter wins |
| Dispatch.BuildParameters | docent/rest/route.py:488-493 | the two guarded `update` calls build exactly the merged parameters |
| Dispatch.SchemaChecks | docent/rest/route.py:495-498 | parameters are checked exactly when non-empty, the body exactly when truthy, parameters first |
| Dispatch.RunChecks | docent/rest/route.py:495-498 | validation passes exactly when every schema check that runs passes |
| Dispatch.RunChecksFirstFailure | docent/rest/route.py:495-498 | a validation failure is the first failing schema check's |
| Dispatch.CheckSchemas | docent/rest/route.py:495-498 | the guarded calls report the first failure of the checks that run |
| Dispatch.Validate | docent/rest/route.py:466-510 | a request is accepted exactly when the method is resolved, every schema check passes and `parse_request_dtypes` succeeds; a rejected request carries the first failing step's failure; on success `body` and `params` are the outputs of `parse_request_dtypes`, and verb, path and headers are unchanged |
| Dispatch.ValidateResourceRequest | docent/rest/route.py:466-510 | the request object is rewritten as `Validate` says on success and left untouched on failure; the same object is returned |
| Dispatch.SuccessStatusIgnoresCase | docent/rest/route.py:459-462 | the verb's letter case does not change the success status |
| Dispatch.SuccessStatus | docent/rest/route.py:459-462 | a lower-case key of `METHOD_SUCCESS_CODES` that matches the verb in any letter case gives its code; a verb matching no lower-case key gets 200, even when keys in other letter cases match it |
| Dispatch.HandleResourceRequest | docent/rest/route.py:451-464 | the handler's value is returned with the verb's success status exactly when the handler does not raise; otherwise the handler's failure is passed on |
| Dispatch.DocSuffixesExclusive | docent/rest/route.py:387-431 | no path ends in two of `.json`, `.yaml`, `.ico`, `16x16.png`, `32x32.png` |
| Dispatch.DocsVariantBySuffix | docent/rest/route.py:387-431 | the JSON, YAML and icon pages are chosen exactly when the path ends in their suffix |
| Dispatch.DocsVariant | docent/rest/route.py:387-447 | a suffix page is chosen only for a path ending in that suffix; the HTML page exactly when no suffix matches, pointing at `/<suffices>/docs.yaml` when `PATH_SUFFICES` is set |
| Dispatch.HandleDocsRequest | docent/rest/route.py:381-449 | a documentation page with status 200 |
| Dispatch.Process | docent/rest/route.py:302-379 | documentation skips validation and gets its page with 200; for a resource, a validation or handler failure gives the `except` branch's outcome, and otherwise the handler, called on the validated request, has its value returned with the verb's success status; error responses carry their `errorCode`; only `UnboundLocalError` escapes |
| Dispatch.ProcessRequest | docent/rest/route.py:302-379 | the outcome and the request's new fields are those `Process` defines |
| DocTypes.Tag | docent/core/types.py:48-64 | each comparison writes its own tag, and the tag identifies the comparison |
| DocTypes.DocField.Compare | docent/core/types.py:48-64 | the filter has the field's name as its one key, mapping the comparison's tag alone to the value |
| DocTypes.DocField.Equals | docent/core/types.py:48-49 | `{name: {'__eq__': value}}` |
| DocTypes.DocField.NotEquals | docent/core/types.py:51-52 | `{name: {'__ne__': value}}` |
| DocTypes.DocField.GreaterThan | docent/core/types.py:54-55 | `{name: {'__gt__': value}}` |
| DocTypes.DocField.GreaterOrEqual | docent/core/types.py:57-58 | `{name: {'__gte__': value}}` |
| DocTypes.DocField.LessThan | docent/core/types.py:60-61 | `{name: {'__lt__': value}}` |
| DocTypes.DocField.LessOrEqual | docent/core/types.py:63-64 | `{name: {'__lte__': value}}` |
| DocTypes.FilterRoundTrip | docent/core/types.py:48-64 | reading a comparison's filter back gives the field's name, the comparison and the value |
| DocTypes.FiltersDistinct | docent/core/types.py:48-64 | different comparisons of the same field and value give different filters |
| DocTypes.FromDataclassField | docent/core/types.py:66-70 | the `DocField` has the dataclass field's name and type |
| DocTypes.GetAttribute | docent/core/types.py:89-103 | a `DocField` is returned exactly when the class is not `DocObject` and the name is one of its dataclass fields, and it carries that field's name and type; `AttributeError` exactly when a class other than `DocObject` has no dataclass fields |
| DocTypes.CallFailure | docent/core/types.py:81-100 | the call raises exactly when the class is not `DocObject` and has no dataclass fields, or has a dataclass field named `__module__`, or (for an application class) one named `APPLICATION_OBJECTS` or `reference` |
| DocTypes.Registered | docent/core/types.py:81-86 | framework classes and classes whose lookups raise leave the registry unchanged; any other class adds its `reference` key, bound to it when the key was new; existing entries are never changed |
| DocTypes.RegisteredIdempotent | docent/core/types.py:86 | registering the same class twice is registering it once |
| DocTypes.RegisterAllNoFramework | docent/core/types.py:81-86 | no sequence of calls registers a class from `docent.core` or `docent.rest` |
| DocTypes.RegisterAllKeeps | docent/core/types.py:86 | an entry, once present, survives every later call unchanged |
| DocTypes.RegisterAllFirstWins | docent/core/types.py:81-86 | the first class instantiated under a reference that reaches `setdefault` is the one the registry keeps |
| DocTypes.ObjectRegistry.constructor | docent/core/types.py:75-79 | the shared dictionary starts empty |
| DocTypes.ObjectRegistry.Call | docent/core/types.py:81-86 | the call raises as `CallFailure` says, and the dictionary becomes `Registered` of its old value and the class |
| Text.JoinSplit | docent/rest/route.py:276-299 | `'/'.join(s.split('/')) == s`, which makes a path spelled from a schema match it |

## Left out

- `RouteMeta.__call__` (docent/rest/route.py:141-154): the call with a resource is `Register`. The decorator-factory form returns a closure that performs the same registration later. Closures over keyword arguments are not modelled.
- `PATH_ID_PARSE_EXPR` is not part of this model. Its substitution is the registry's `stripIds` function, so nothing is proved about which placeholders the regular expression removes.
- The `Enums` resource's `path_schema` comes from the Resource class, which is not part of this model. It is the parameter `enumsPathSchema`. The `Enumeration` class and the `get_enums` handler defined alongside it are not modelled.
- Route.Serve: the request changes only through validation because the handler (`Collaborators.invoke`) is modelled as a function of the request's fields. A handler that mutates the request object it is given is not modelled.
- The Resource and Method collaborators are fields of `Collaborators`: `validate_path`, `PATHS`, `validate_method`, the method object for a verb, `validate_against_schema`, `parse_request_dtypes`, the handler call and `Error.from_exception(...).errorCode`. Their own behaviour is not part of this model.
- Logging and `uuid` request ids have no effect on the result and are left out.
- Dispatch.HandleDocsRequest: the page contents are left out (the spec built by `spec_from_api`, icon bytes, the camel-cased `API` title). A failure while building the JSON or YAML spec is not modelled, so documentation requests always succeed in the model.
- Traceback formatting is not modelled. Each failure carries its last frame as a string, and the model classifies that string exactly as the code does.
- `DocMeta.__call__` also creates the instance through `super().__call__`, which is not modelled. Only the registration step is.
- DocTypes.ObjectRegistry: assumes Python 3.9–3.12 semantics for the `classmethod`/`property`/`lru_cache` stack at docent/core/types.py:75-79. There, `cls.APPLICATION_OBJECTS` is one shared dictionary. On Python 3.13, which setup.py:46 lists, `classmethod` no longer wraps a `property`. The lookup at docent/core/types.py:86 then gives a bound method, `.setdefault` raises `AttributeError`, and every call on an application class fails. The model does not capture that.
- DocTypes.CallFailure: the ordinary lookups of `__module__` and `reference` are assumed to give the class's module path and a string key. A `reference` property that raises, or returns an unhashable value, is not modelled.
- `lower()` is modelled on ASCII letters only. Verbs and table keys outside ASCII are not modelled.
- `DocField.__repr__` and the `Constants` class are presentation only and are left out.
- The registries are class attributes shared across threads. Concurrency is not modelled.
