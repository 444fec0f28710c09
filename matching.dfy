/**
 * The path-matching algorithm of `Route.route_request`
 * (docent/rest/route.py:250-300) as functions over the registry's entries:
 * the documentation short-circuit, then a first-match walk in registration
 * order in which each entry is taken, skipped, or makes the walk fail with
 * Python's `IndexError`.
 */
module Matching {
  import opened Text
  import opened PathTemplate

  /** What `route_request` produces: the Swagger documentation class, a resource, `None`, or an `IndexError`. */
  datatype RouteResult = Swagger | Found(resource: Resource) | NoMatch | IndexFault

  /** What one pass of the `for` loop does with an entry. */
  datatype Step = Take | Skip | Fault

  /** The last segment mentions `favicon` or `docs`: the request is for the documentation pages. */
  predicate IsDocsRequest(path: seq<string>) {
    |path| > 0 && (Contains(path[|path| - 1], "favicon") || Contains(path[|path| - 1], "docs"))
  }

  /** `L`: the number of segments of the normalised schema, `len(schema.split('/'))`. */
  function LiteralCount(e: Entry): nat {
    |Split(e.schema, "/")|
  }

  /** `[v for i, v in enumerate(path) if i not in ph and i < limit]`, from index `i` on. */
  function TrimFrom(path: seq<string>, ph: set<nat>, limit: nat, i: nat): seq<string>
    decreases |path| - i
  {
    if i >= |path| then []
    else (if i !in ph && i < limit then [path[i]] else []) + TrimFrom(path, ph, limit, i + 1)
  }

  function Trimmed(path: seq<string>, ph: set<nat>, limit: nat): seq<string> {
    TrimFrom(path, ph, limit, 0)
  }

  /**
   * The body of the `for` loop for one entry, branch by branch. An entry is
   * taken exactly when it is a health probe or matches structurally, and it
   * faults exactly when the path is empty and the entry is not `healthz`.
   */
  function Check(e: Entry, path: seq<string>): (step: Step)
    ensures step == Take <==> HealthProbe(e, path) || StructuralMatch(e, path)
    ensures step == Fault <==> |path| == 0 && e.schema != "healthz"
  {
    if e.schema == "healthz" && |path| == 0 then Take
    else if |path| == 0 then Fault  // `request_path_as_list[-1]` on an empty list
    else if path[|path| - 1] == "enums" && !EndsWith(e.schema, "enums") then Skip
    else if |path| > LiteralCount(e) + |e.placeholders| + 1 then Skip
    else if |path| < LiteralCount(e) + |e.placeholders| then Skip
    else if e.schema == Join(Trimmed(path, e.placeholders, LiteralCount(e)), "/") then Take
    else Skip
  }

  /**
   * The `for` loop: the first entry that is not skipped decides. It never
   * yields the documentation class, and it finds nothing exactly when every
   * entry is skipped.
   */
  function Search(entries: seq<Entry>, path: seq<string>): (r: RouteResult)
    ensures !r.Swagger?
    ensures r == NoMatch <==> forall k :: 0 <= k < |entries| ==> Check(entries[k], path) == Skip
  {
    if |entries| == 0 then NoMatch
    else match Check(entries[0], path)
      case Take => Found(entries[0].resource)
      case Fault => IndexFault
      case Skip =>
        assert forall k :: 1 <= k < |entries| ==> entries[k] == entries[1..][k - 1];
        Search(entries[1..], path)
  }

  /** `route_request`. */
  function Routed(entries: seq<Entry>, path: seq<string>): (r: RouteResult)
    ensures r == Swagger <==> IsDocsRequest(path)
    ensures !IsDocsRequest(path) ==> r == Search(entries, path)
  {
    if IsDocsRequest(path) then Swagger else Search(entries, path)
  }

  // ---------------------------------------------------------------------------
  // What taking an entry means, independently of the branch order.

  /** An empty path meets an entry whose normalised schema is `healthz`. */
  predicate HealthProbe(e: Entry, path: seq<string>) {
    |path| == 0 && e.schema == "healthz"
  }

  /** A non-empty path that passes the enums filter, the length window and the schema comparison. */
  predicate StructuralMatch(e: Entry, path: seq<string>) {
    && |path| > 0
    && (path[|path| - 1] == "enums" ==> EndsWith(e.schema, "enums"))
    && LiteralCount(e) + |e.placeholders| <= |path| <= LiteralCount(e) + |e.placeholders| + 1
    && e.schema == Join(Trimmed(path, e.placeholders, LiteralCount(e)), "/")
  }

  /** Entry `k` is the first entry that the loop does not skip. */
  predicate DecidedAt(entries: seq<Entry>, path: seq<string>, k: int) {
    0 <= k < |entries| && Check(entries[k], path) != Skip
    && forall j :: 0 <= j < k ==> Check(entries[j], path) == Skip
  }

  /** The first entry not skipped decides the result: its resource, or the fault. */
  lemma {:induction false} SearchDecided(entries: seq<Entry>, path: seq<string>, k: int)
    requires DecidedAt(entries, path, k)
    ensures Search(entries, path) == if Check(entries[k], path) == Take then Found(entries[k].resource) else IndexFault
  {
    if k > 0 {
      assert Check(entries[0], path) == Skip;
      assert DecidedAt(entries[1..], path, k - 1) by {
        forall j | 0 <= j < k - 1 ensures Check(entries[1..][j], path) == Skip {
          assert entries[1..][j] == entries[j + 1];
        }
      }
      SearchDecided(entries[1..], path, k - 1);
    }
  }

  /** A result that is not `NoMatch` comes from the first entry the loop does not skip. */
  lemma {:induction false} SearchWitness(entries: seq<Entry>, path: seq<string>) returns (k: nat)
    requires Search(entries, path) != NoMatch
    ensures DecidedAt(entries, path, k)
  {
    if Check(entries[0], path) != Skip {
      k := 0;
    } else {
      var k' := SearchWitness(entries[1..], path);
      k := k' + 1;
      forall j | 0 <= j < k ensures Check(entries[j], path) == Skip {
        if j > 0 {
          assert entries[j] == entries[1..][j - 1];
        }
      }
    }
  }

  /**
   * A resource returned for a non-documentation path is the resource of the
   * first entry, in registration order, that is taken; every earlier entry was
   * skipped; and the entry is either the `healthz` probe of an empty path or
   * satisfies `L + P <= |path| <= L + P + 1` with its schema equal to the
   * `/`-join of the path's kept segments.
   */
  lemma RouteFound(entries: seq<Entry>, path: seq<string>) returns (k: nat)
    requires Routed(entries, path).Found?
    ensures k < |entries| && entries[k].resource == Routed(entries, path).resource
    ensures forall j :: 0 <= j < k ==> Check(entries[j], path) == Skip
    ensures HealthProbe(entries[k], path) || StructuralMatch(entries[k], path)
  {
    k := SearchWitness(entries, path);
    SearchDecided(entries, path, k);
  }

  /** With a last segment `enums`, only an entry whose schema ends in `enums` can be returned. */
  lemma RouteEnumsFilter(entries: seq<Entry>, path: seq<string>)
    requires |path| > 0 && path[|path| - 1] == "enums"
    requires Routed(entries, path).Found?
    ensures exists k :: 0 <= k < |entries| && entries[k].resource == Routed(entries, path).resource
                        && EndsWith(entries[k].schema, "enums")
  {
    var k := RouteFound(entries, path);
  }

  /** A path none of whose entries is taken or faults finds nothing; conversely. */
  lemma RouteNoMatch(entries: seq<Entry>, path: seq<string>)
    ensures Routed(entries, path) == NoMatch
            <==> !IsDocsRequest(path) && forall k :: 0 <= k < |entries| ==> Check(entries[k], path) == Skip
  {
  }

  /**
   * An empty path: the first entry's resource if that entry is `healthz`,
   * otherwise the `IndexError` of `request_path_as_list[-1]` (a later `healthz`
   * entry is never reached).
   */
  lemma RouteEmptyPath(entries: seq<Entry>)
    ensures Routed(entries, []) == if |entries| == 0 then NoMatch
                                  else if entries[0].schema == "healthz" then Found(entries[0].resource)
                                  else IndexFault
  {
  }

  /** Searching `a + b` searches `a` first and falls through to `b` only when nothing in `a` decided. */
  lemma {:induction false} SearchAppend(a: seq<Entry>, b: seq<Entry>, path: seq<string>)
    ensures Search(a + b, path) == if Search(a, path) == NoMatch then Search(b, path) else Search(a, path)
  {
    if |a| > 0 {
      assert (a + b)[0] == a[0] && (a + b)[1..] == a[1..] + b;
      SearchAppend(a[1..], b, path);
    } else {
      assert a + b == b;
    }
  }

  /** Appending entries never changes where an already routable path goes. */
  lemma RouteStableUnderAppend(a: seq<Entry>, b: seq<Entry>, path: seq<string>)
    requires Routed(a, path) != NoMatch
    ensures Routed(a + b, path) == Routed(a, path)
  {
    SearchAppend(a, b, path);
  }

  // ---------------------------------------------------------------------------
  // Round trip: a path spelled from a schema finds its entry.

  lemma {:induction false} TrimFromLiteralSpan(path: seq<string>, ph: set<nat>, limit: nat, i: nat)
    requires i <= limit <= |path|
    requires forall p :: p in ph ==> p >= limit
    ensures TrimFrom(path, ph, limit, i) == path[i..limit]
    decreases |path| - i
  {
    if i == limit {
      TrimFromBeyond(path, ph, limit, i);
    } else {
      TrimFromLiteralSpan(path, ph, limit, i + 1);
    }
  }

  lemma {:induction false} TrimFromBeyond(path: seq<string>, ph: set<nat>, limit: nat, i: nat)
    requires limit <= i
    ensures TrimFrom(path, ph, limit, i) == []
    decreases |path| - i
  {
    if i < |path| {
      TrimFromBeyond(path, ph, limit, i + 1);
    }
  }

  /**
   * Matching the segments of an entry's own normalised schema, followed by one
   * value per placeholder (and at most one extra trailing segment), takes the
   * entry, provided every placeholder index lies past the literal segments (as
   * for `/pets/{id}`) and the enums and documentation filters do not apply.
   */
  lemma CheckRoundTrip(e: Entry, ids: seq<string>)
    requires forall p :: p in e.placeholders ==> p >= LiteralCount(e)
    requires |ids| == |e.placeholders| || |ids| == |e.placeholders| + 1
    requires var path := Split(e.schema, "/") + ids;
             path[|path| - 1] == "enums" ==> EndsWith(e.schema, "enums")
    ensures Check(e, Split(e.schema, "/") + ids) == Take
  {
    var lits := Split(e.schema, "/");
    var path := lits + ids;
    TrimFromLiteralSpan(path, e.placeholders, |lits|, 0);
    assert path[0..|lits|] == lits;
    JoinSplit(e.schema, "/");
  }
}
