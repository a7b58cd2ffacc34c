/** The fallback side of the navigation hooks: the grouping of search
    parameters into `router.query` / `useParams()`, and the fields and
    actions of the synthetic router used when no Next.js router exists. */
module Navigation {
  import opened JsValues

  /** A `Record<string, string | string[]>` entry. */
  datatype QueryValue = Single(value: string) | Multi(values: seq<string>)

  /** A search parameter `(key, value)`, in the order `URLSearchParams.forEach` yields it. */
  type Param = (string, string)

  /** JavaScript truthiness of an entry: a string when non-empty, an array always. */
  predicate Occupied(v: QueryValue)
  {
    v.Multi? || v.value != ""
  }

  /** One pass of the grouping loop body for the parameter `key=value`. */
  function AddParam(query: map<string, QueryValue>, key: string, value: string): map<string, QueryValue>
  {
    if key in query && Occupied(query[key]) then
      match query[key]
      case Multi(vs) => query[key := Multi(vs + [value])]
      case Single(s) => query[key := Multi([s, value])]
    else
      query[key := Single(value)]
  }

  /** The record the grouping loop builds from `params`, one parameter at a time. */
  function Group(params: seq<Param>): map<string, QueryValue>
  {
    if params == [] then map[]
    else
      var last := params[|params| - 1];
      AddParam(Group(params[..|params| - 1]), last.0, last.1)
  }

  /** The grouping loop of `useRouter` (the `query` record). */
  method GroupQuery(params: seq<Param>) returns (query: map<string, QueryValue>)
    ensures query == Group(params)
  {
    query := map[];
    var i := 0;
    while i < |params|
      invariant 0 <= i <= |params|
      invariant query == Group(params[..i])
    {
      var (key, value) := params[i];
      if key in query && Occupied(query[key]) {
        match query[key]
        case Multi(vs) =>
          query := query[key := Multi(vs + [value])];
        case Single(s) =>
          query := query[key := Multi([s, value])];
      } else {
        query := query[key := Single(value)];
      }
      assert params[..i + 1][..i] == params[..i];
      i := i + 1;
    }
    assert params[..i] == params;
  }

  /** The fallback of `useParams`: the same loop over the same parameters. */
  method UseParamsFallback(params: seq<Param>) returns (result: map<string, QueryValue>)
    ensures result == Group(params)
    ensures forall key :: key in result <==> exists p :: p in params && p.0 == key
  {
    result := GroupQuery(params);
    forall key ensures key in result <==> exists p :: p in params && p.0 == key {
      GroupMatchesOccurrences(params, key);
      OccursIffValues(params, key);
    }
  }

  // ---------------------------------------------------------------------
  // An independent description of the result, key by key.

  /** The values given for `key`, in order of occurrence. */
  function ValuesOf(params: seq<Param>, key: string): (vs: seq<string>)
    ensures |vs| <= |params|
  {
    if params == [] then []
    else
      var last := params[|params| - 1];
      ValuesOf(params[..|params| - 1], key) + (if last.0 == key then [last.1] else [])
  }

  /** `vs` without its leading empty strings, but never shorter than one element. */
  function DropLeadingEmpty(vs: seq<string>): (w: seq<string>)
    ensures vs != [] ==> w != []
    ensures |w| > 1 ==> w[0] != ""
    ensures vs != [] && vs[0] != "" ==> w == vs
  {
    if |vs| > 1 && vs[0] == "" then DropLeadingEmpty(vs[1..]) else vs
  }

  /** The entry for a key with values `vs`: one surviving value as a string,
      several as a list. Leading empty values are lost, because an entry
      holding `""` is falsy and the next value replaces it. */
  function Collapse(vs: seq<string>): QueryValue
    requires vs != []
  {
    var w := DropLeadingEmpty(vs);
    if |w| == 1 then Single(w[0]) else Multi(w)
  }

  lemma {:induction false} DropLeadingEmptyAppend(vs: seq<string>, v: string)
    requires vs != []
    ensures DropLeadingEmpty(vs + [v]) ==
              if DropLeadingEmpty(vs) == [""] then [v] else DropLeadingEmpty(vs) + [v]
  {
    if |vs| > 1 && vs[0] == "" {
      assert (vs + [v])[1..] == vs[1..] + [v];
      DropLeadingEmptyAppend(vs[1..], v);
    } else if |vs| == 1 {
      if vs[0] == "" {
        assert (vs + [v])[1..] == [v];
      }
    }
  }

  /** Grouping agrees with `Collapse` of each key's values, and a key is
      present exactly when it occurs. */
  lemma {:induction false} GroupMatchesOccurrences(params: seq<Param>, key: string)
    ensures key in Group(params) <==> ValuesOf(params, key) != []
    ensures key in Group(params) ==> Group(params)[key] == Collapse(ValuesOf(params, key))
  {
    if params != [] {
      var prefix, last := params[..|params| - 1], params[|params| - 1];
      GroupMatchesOccurrences(prefix, key);
      var vs := ValuesOf(prefix, key);
      if last.0 != key {
        assert ValuesOf(params, key) == vs;
      } else if vs == [] {
        assert ValuesOf(params, key) == [last.1];
      } else {
        assert ValuesOf(params, key) == vs + [last.1];
        DropLeadingEmptyAppend(vs, last.1);
        var w := DropLeadingEmpty(vs);
        if |w| == 1 && w[0] != "" {
          assert w + [last.1] == [w[0], last.1];
        }
      }
    }
  }

  lemma {:induction false} OccursIffValues(params: seq<Param>, key: string)
    ensures ValuesOf(params, key) != [] <==> exists p :: p in params && p.0 == key
  {
    if params != [] {
      var prefix, last := params[..|params| - 1], params[|params| - 1];
      OccursIffValues(prefix, key);
      assert params == prefix + [last];
      if ValuesOf(prefix, key) != [] {
        var p :| p in prefix && p.0 == key;
        assert p in params;
      }
    }
  }

  /** The result's keys are exactly the keys that occur in the parameters. */
  lemma GroupKeys(params: seq<Param>)
    ensures Group(params).Keys == set p | p in params :: p.0
  {
  }

  /** A key given once maps to its value as a plain string. */
  lemma SingleOccurrence(params: seq<Param>, key: string, value: string)
    requires ValuesOf(params, key) == [value]
    ensures key in Group(params) && Group(params)[key] == Single(value)
  {
    GroupMatchesOccurrences(params, key);
  }

  /** When a key's first value is non-empty and it occurs more than once,
      every value is kept, in order of occurrence. */
  lemma AllValuesInOrder(params: seq<Param>, key: string)
    requires |ValuesOf(params, key)| >= 2 && ValuesOf(params, key)[0] != ""
    ensures key in Group(params) && Group(params)[key] == Multi(ValuesOf(params, key))
  {
    GroupMatchesOccurrences(params, key);
  }

  /** The empty-value quirk: `a=&a=b` gives `a` the plain string "b". */
  lemma EmptyFirstValueIsReplaced(params: seq<Param>, key: string, value: string)
    requires ValuesOf(params, key) == ["", value]
    ensures key in Group(params) && Group(params)[key] == Single(value)
  {
    GroupMatchesOccurrences(params, key);
    assert DropLeadingEmpty(["", value]) == [value] by {
      assert ["", value][1..] == [value];
    }
  }

  /** One more parameter: a non-empty string entry becomes the pair
      [first, second], a list grows at its end, and other keys keep their entries. */
  lemma {:induction false} GroupStep(params: seq<Param>, key: string, value: string)
    ensures var before, after := Group(params), Group(params + [(key, value)]);
      && (forall k :: k != key ==> (k in after <==> k in before) && (k in before ==> after[k] == before[k]))
      && (key in before && before[key].Single? && before[key].value != "" ==>
            after[key] == Multi([before[key].value, value]))
      && (key in before && before[key].Multi? ==> after[key] == Multi(before[key].values + [value]))
      && (key !in before || before[key] == Single("") ==> after[key] == Single(value))
  {
  }

  // ---------------------------------------------------------------------
  // The synthetic router.

  /** `window.location` in a browser; `None` when `window` is undefined. */
  datatype Location = Location(pathname: string, search: string)

  /** The initial state of `usePathname`. */
  function InitialPathname(window: Option<Location>): (pathname: string)
    ensures window.None? ==> pathname == "/"
    ensures window.Some? ==> pathname == window.value.pathname
  {
    match window
    case None => "/"
    case Some(loc) => loc.pathname
  }

  datatype Router = Router(
    pathname: string,
    query: map<string, QueryValue>,
    asPath: string,
    isReady: bool,
    isFallback: bool,
    isPreview: bool,
    basePath: string)

  /** The router object `useRouter` returns when Next.js is absent. */
  method FallbackRouter(pathname: string, window: Option<Location>, params: seq<Param>) returns (r: Router)
    ensures r.pathname == pathname && r.query == Group(params)
    ensures window.None? ==> r.asPath == "/"
    ensures window.Some? ==> r.asPath == window.value.pathname + window.value.search
    ensures r.isReady && !r.isFallback && !r.isPreview && r.basePath == ""
  {
    var query := GroupQuery(params);
    var asPath := if window.Some? then window.value.pathname + window.value.search else "/";
    r := Router(pathname, query, asPath, true, false, false, "");
  }

  /** What a router action asks of the browser. */
  datatype BrowserCall =
    | PushState(url: string)
    | ReplaceState(url: string)
    | DispatchPopState
    | HistoryBack
    | HistoryForward
    | Reload

  /** The browser calls an action makes, and the value its promise resolves to. */
  datatype ActionResult = ActionResult(calls: seq<BrowserCall>, resolvesTo: bool)

  function Push(window: Option<Location>, url: string): ActionResult
  {
    ActionResult(if window.Some? then [PushState(url), DispatchPopState] else [], true)
  }

  function Replace(window: Option<Location>, url: string): ActionResult
  {
    ActionResult(if window.Some? then [ReplaceState(url), DispatchPopState] else [], true)
  }

  function Back(window: Option<Location>): seq<BrowserCall>
  {
    if window.Some? then [HistoryBack] else []
  }

  function Forward(window: Option<Location>): seq<BrowserCall>
  {
    if window.Some? then [HistoryForward] else []
  }

  function Refresh(window: Option<Location>): seq<BrowserCall>
  {
    if window.Some? then [Reload] else []
  }

  /** The number of `popstate` events a sequence of calls dispatches. */
  function PopStates(calls: seq<BrowserCall>): (n: nat)
    ensures n <= |calls|
  {
    if calls == [] then 0
    else PopStates(calls[..|calls| - 1]) + (if calls[|calls| - 1] == DispatchPopState then 1 else 0)
  }

  /** `push` and `replace` always resolve to true; in a browser they update
      the history once and then notify listeners with exactly one
      `popstate`; without a window they do nothing. */
  lemma PushReplaceContract(window: Option<Location>, url: string)
    ensures Push(window, url).resolvesTo && Replace(window, url).resolvesTo
    ensures window.Some? ==> Push(window, url).calls == [PushState(url), DispatchPopState]
    ensures window.Some? ==> Replace(window, url).calls == [ReplaceState(url), DispatchPopState]
    ensures window.None? ==> Push(window, url).calls == [] && Replace(window, url).calls == []
  {
  }

  /** `back`, `forward` and `refresh` each make one browser call in a
      browser, and none without a window. */
  lemma HistoryActionsContract(window: Option<Location>)
    ensures |Back(window)| == |Forward(window)| == |Refresh(window)| == (if window.Some? then 1 else 0)
    ensures PopStates(Back(window)) == PopStates(Forward(window)) == PopStates(Refresh(window)) == 0
  {
  }
}
