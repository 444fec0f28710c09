/**
 * What registration derives from a resource's path schema: the normalised
 * schema string, the indices of `{...}` placeholder segments, and the
 * registry entry that pairs them with the resource
 * (docent/rest/route.py, `RouteMeta.__wrapped_call__`).
 */
module PathTemplate {
  import opened Text

  /** The identity of a registered resource class: `__name__`, `__module__`, `path_schema`. */
  datatype Resource = Resource(name: string, moduleName: string, pathSchema: string)

  /** One element of `APPLICATION_RESOURCES`: (normalised schema, placeholder indices, resource). */
  datatype Entry = Entry(schema: string, placeholders: set<nat>, resource: Resource)

  /** `v.startswith('{') and v.endswith('}')`. */
  predicate IsPlaceholder(v: string) {
    StartsWith(v, "{") && EndsWith(v, "}")
  }

  /** The placeholder indices among `parts[start..]`, walked as `enumerate` walks them. */
  function PlaceholdersFrom(parts: seq<string>, start: nat): set<nat>
    decreases |parts| - start
  {
    if start >= |parts| then {}
    else (if IsPlaceholder(parts[start]) then {start} else {}) + PlaceholdersFrom(parts, start + 1)
  }

  lemma {:induction false} PlaceholdersFromExact(parts: seq<string>, start: nat, i: nat)
    ensures i in PlaceholdersFrom(parts, start) <==> start <= i < |parts| && IsPlaceholder(parts[i])
    decreases |parts| - start
  {
    if start < |parts| {
      PlaceholdersFromExact(parts, start + 1, i);
    }
  }

  /**
   * The placeholder indices of a raw schema, counted on `raw.split('/')` (a
   * leading `/` yields an empty segment 0): exactly the indices whose segment
   * is `{...}`.
   */
  function PlaceholderIndices(raw: string): (ph: set<nat>)
    ensures forall i: nat :: i in ph <==> i < |Split(raw, "/")| && IsPlaceholder(Split(raw, "/")[i])
  {
    assert forall i: nat :: i in PlaceholdersFrom(Split(raw, "/"), 0) <==> i < |Split(raw, "/")| && IsPlaceholder(Split(raw, "/")[i]) by {
      forall i: nat ensures i in PlaceholdersFrom(Split(raw, "/"), 0) <==> i < |Split(raw, "/")| && IsPlaceholder(Split(raw, "/")[i]) {
        PlaceholdersFromExact(Split(raw, "/"), 0, i);
      }
    }
    PlaceholdersFrom(Split(raw, "/"), 0)
  }

  /**
   * `re.sub(PATH_ID_PARSE_EXPR, '', raw).strip('/')`; the regular expression is
   * not part of this model, so its substitution is the parameter `stripIds`.
   */
  function Normalize(raw: string, stripIds: string -> string): (schema: string)
    ensures exists i, j :: StrippedSlice(stripIds(raw), schema, {'/'}, i, j)
    ensures !StartsWith(schema, "/") && !EndsWith(schema, "/")
  {
    var r := Strip(stripIds(raw), {'/'});
    assert |r| > 0 ==> r[..1] == [r[0]] && r[|r| - 1..] == [r[|r| - 1]];
    r
  }

  /**
   * The entry appended to the registry for a resource: the normalised schema,
   * the placeholder indices of the raw schema, and the resource.
   */
  function MakeEntry(rsc: Resource, stripIds: string -> string): (e: Entry)
    ensures e.resource == rsc
    ensures exists i, j :: StrippedSlice(stripIds(rsc.pathSchema), e.schema, {'/'}, i, j)
    ensures !StartsWith(e.schema, "/") && !EndsWith(e.schema, "/")
    ensures forall i: nat :: i in e.placeholders <==> i < |Split(rsc.pathSchema, "/")| && IsPlaceholder(Split(rsc.pathSchema, "/")[i])
  {
    Entry(Normalize(rsc.pathSchema, stripIds), PlaceholderIndices(rsc.pathSchema), rsc)
  }

  /**
   * The resource synthesised for `include_enums_endpoint`: class `Enums` declared
   * in `docent.rest.route`. Its `path_schema` is derived by the Resource class,
   * which is not part of this model, so it is a parameter.
   */
  function EnumsResource(enumsPathSchema: string): Resource {
    Resource("Enums", "docent.rest.route", enumsPathSchema)
  }

  /** `module.split('.')[0]`: the top-level package of a module path, up to its first `.`. */
  function TopModule(moduleName: string): (top: string)
    ensures StartsWith(moduleName, top) && '.' !in top
    ensures top == moduleName || (|top| < |moduleName| && moduleName[|top|] == '.')
  {
    SplitHeadIsPrefix(moduleName, ".");
    SplitHeadEnds(moduleName, ".");
    SplitPartsFree(moduleName, '.');
    assert Split(moduleName, ".")[0] in Split(moduleName, ".");
    Split(moduleName, ".")[0]
  }
}
