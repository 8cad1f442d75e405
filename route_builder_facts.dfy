/** What `createRouter` (lib/routeBuilder.js) promises about the router
    module it returns, stated over the model in RouteBuilder. */
module RouteBuilderFacts {
  import opened Wrappers
  import opened OpenApi
  import opened NestedMaps
  import opened PathText
  import opened RouteBuilder

  // ---------------------------------------------------------------------
  // Failing fast

  /** createRouter fails exactly when some route's lower-cased method is not
      a router function, and then with the message naming the first one. */
  lemma FailsIffUnsupportedMethod(g: RouteGroup, routerFunctions: set<string>)
    ensures BuiltRouter(g, routerFunctions).Err? <==>
            exists i :: 0 <= i < |g.routes| && ToLower(g.routes[i].httpMethod) !in routerFunctions
    ensures BuiltRouter(g, routerFunctions).Err? ==>
            exists i :: 0 <= i < |g.routes|
              && ToLower(g.routes[i].httpMethod) !in routerFunctions
              && (forall j :: 0 <= j < i ==> ToLower(g.routes[j].httpMethod) in routerFunctions)
              && BuiltRouter(g, routerFunctions).error == "Invalid HTTP method: " + ToLower(g.routes[i].httpMethod)
  {
    var first := FirstUnsupported(routerFunctions, g.routes);
    if first.Some? {
      var i := first.value;
      assert ToLower(g.routes[i].httpMethod) !in routerFunctions;
    }
  }

  // ---------------------------------------------------------------------
  // Info

  /** A printed integer ends in a digit, never in a slash. */
  lemma PrintedEndsInDigit(n: int)
    ensures var d := IntToDecimal(n); |d| > 0 && '0' <= d[|d| - 1] <= '9'
  {
    var d := IntToDecimal(n);
    if n < 0 {
      assert d[1..][|d| - 2] == d[|d| - 1];
    }
  }

  /** A numeric version prefix survives the trimming of the base path whole. */
  lemma NumberedPrefixSurvives(n: int, basePath: string)
    requires n != 0
    ensures VersionPrefix(Some(VersionNum(n))) == "/v" + IntToDecimal(n)
    ensures VersionPrefix(Some(VersionNum(n))) <= FullBasePath(Some(VersionNum(n)), basePath)
  {
    var prefix := "/v" + IntToDecimal(n);
    PrintedEndsInDigit(n);
    assert prefix[|prefix| - 1] != '/';
    TrimKeepsStart(prefix, basePath);
  }

  /** With a numeric version, `info.version` is `v` and the number in
      decimal, and the title names the same `/v<number>` prefix right after
      `API `, whatever the base path. */
  lemma NumberedVersionInInfo(n: int, basePath: string)
    requires n != 0
    ensures var info := RouterInfo(Some(VersionNum(n)), basePath);
      && info.version == "v" + IntToDecimal(n)
      && Spells(info.version[1..], n)
      && "API /" + info.version <= info.title.value
  {
    var version := Some(VersionNum(n));
    var d := IntToDecimal(n);
    NumberedPrefixSurvives(n, basePath);
    var fb := FullBasePath(version, basePath);
    var info := RouterInfo(version, basePath);
    assert info.version == "v" + d;
    assert info.title.value == "API " + fb;
    PrefixAfterApi(d, fb);
  }

  /** Text placement only: `/v<d>` opening the full base path puts `v<d>` right after `API /`. */
  lemma PrefixAfterApi(d: string, fb: string)
    requires "/v" + d <= fb
    ensures ("v" + d)[1..] == d
    ensures "API /" + ("v" + d) <= "API " + fb
  {
    assert "API /" + ("v" + d) == "API " + ("/v" + d);
  }

  // ---------------------------------------------------------------------
  // Bindings

  /** Each route is bound once, in declaration order, under its lower-cased
      method and its own url, with its middlewares in order followed by its
      handler. */
  lemma BindingsFollowRoutes(g: RouteGroup, routerFunctions: set<string>, i: nat)
    requires BuiltRouter(g, routerFunctions).Ok?
    requires i < |g.routes|
    ensures var bs := BuiltRouter(g, routerFunctions).value.bindings;
      && |bs| == |g.routes|
      && bs[i].httpMethod == ToLower(g.routes[i].httpMethod)
      && bs[i].httpMethod in routerFunctions
      && bs[i].url == g.routes[i].url
      && |bs[i].chain| == |g.routes[i].middlewares| + 1
      && bs[i].chain[..|g.routes[i].middlewares|] == g.routes[i].middlewares
      && bs[i].chain[|g.routes[i].middlewares|] == g.routes[i].handler
  {
    var r := g.routes[i];
    assert (r.middlewares + [r.handler])[..|r.middlewares|] == r.middlewares;
  }

  // ---------------------------------------------------------------------
  // Paths of the fragment

  /** The key and method under which a route's operation is recorded. */
  predicate RecordsAt(fullBase: string, r: RouteDef, key: string, verb: string) {
    OpenApiPathKey(fullBase, r.url) == key && MethodOf(r) == verb
  }

  lemma EntryDefines(fullBase: string, tag: Option<Json>, r: RouteDef, key: string, verb: string)
    ensures Defines(PathEntry(fullBase, tag, r), key, verb) <==> RecordsAt(fullBase, r, key, verb)
  {
  }

  /** A key is in the fragment's paths exactly when some route has that key. */
  lemma FragmentKeysAreRouteKeys(fullBase: string, tag: Option<Json>, routes: seq<RouteDef>, key: string)
    ensures key in FragmentPaths(fullBase, tag, routes) <==>
            exists i :: 0 <= i < |routes| && OpenApiPathKey(fullBase, routes[i].url) == key
  {
    var es := PathEntries(fullBase, tag, routes);
    FoldKeys(map[], es, key);
    forall i | 0 <= i < |routes|
      ensures key in es[i] <==> OpenApiPathKey(fullBase, routes[i].url) == key
    {
      assert es[i] == PathEntry(fullBase, tag, routes[i]);
    }
  }

  /** A key and method are in the fragment exactly when some route records there. */
  lemma FragmentMethodsAreRouteMethods(fullBase: string, tag: Option<Json>, routes: seq<RouteDef>, key: string, verb: string)
    ensures Defines(FragmentPaths(fullBase, tag, routes), key, verb) <==>
            exists i :: 0 <= i < |routes| && RecordsAt(fullBase, routes[i], key, verb)
  {
    var es := PathEntries(fullBase, tag, routes);
    FoldDefines(map[], es, key, verb);
    forall i | 0 <= i < |routes|
      ensures Defines(es[i], key, verb) <==> RecordsAt(fullBase, routes[i], key, verb)
    {
      EntryDefines(fullBase, tag, routes[i], key, verb);
    }
  }

  /** Within one router the last route recorded at a key and method is the
      one whose operation the fragment holds there. */
  lemma LastRouteWins(fullBase: string, tag: Option<Json>, routes: seq<RouteDef>, i: nat, key: string, verb: string)
    requires i < |routes| && RecordsAt(fullBase, routes[i], key, verb)
    requires forall j :: i < j < |routes| ==> !RecordsAt(fullBase, routes[j], key, verb)
    ensures Defines(FragmentPaths(fullBase, tag, routes), key, verb)
    ensures FragmentPaths(fullBase, tag, routes)[key][verb] == BuildOperation(routes[i].swagger, tag)
  {
    var es := PathEntries(fullBase, tag, routes);
    forall j | i < j < |es|
      ensures !Defines(es[j], key, verb)
    {
      EntryDefines(fullBase, tag, routes[j], key, verb);
    }
    EntryDefines(fullBase, tag, routes[i], key, verb);
    FoldLastWins(map[], es, i, key, verb);
  }

  /** A further route replaces the operation at its own key and method and
      leaves every other key and method of the fragment as it was, including
      the other methods under the same key. */
  lemma AddedRouteOverwritesOnlyItsSlot(fullBase: string, tag: Option<Json>, routes: seq<RouteDef>, r: RouteDef,
                                        key: string, verb: string)
    ensures var before := FragmentPaths(fullBase, tag, routes);
            var after := FragmentPaths(fullBase, tag, routes + [r]);
      && (RecordsAt(fullBase, r, key, verb) ==>
            Defines(after, key, verb) && after[key][verb] == BuildOperation(r.swagger, tag))
      && (!RecordsAt(fullBase, r, key, verb) ==>
            (Defines(after, key, verb) <==> Defines(before, key, verb)) &&
            (Defines(before, key, verb) ==> after[key][verb] == before[key][verb]))
  {
    PathsSnoc(fullBase, tag, routes, r);
    MergeOneSlot(FragmentPaths(fullBase, tag, routes), OpenApiPathKey(fullBase, r.url), MethodOf(r),
                 BuildOperation(r.swagger, tag), key, verb);
  }

  /** Appending a route merges its entry into the paths of the earlier ones. */
  lemma PathsSnoc(fullBase: string, tag: Option<Json>, routes: seq<RouteDef>, r: RouteDef)
    ensures FragmentPaths(fullBase, tag, routes + [r])
         == MergeNested(FragmentPaths(fullBase, tag, routes), PathEntry(fullBase, tag, r))
  {
    var all := routes + [r];
    assert all[..|routes|] == routes;
    assert all[..|routes| + 1] == all;
    PathsStep(fullBase, tag, all, |routes|);
  }

  // ---------------------------------------------------------------------
  // Components of the fragment

  /** `components` always has `schemas`, and otherwise exactly the kinds some
      route's `swagger.components` has. */
  lemma ComponentKinds(routes: seq<RouteDef>, kind: string)
    ensures "schemas" in FragmentComponents(routes)
    ensures kind in FragmentComponents(routes) <==>
            kind == "schemas" || exists i :: 0 <= i < |routes| && kind in RouteComponents(routes[i])
  {
    var es := ComponentEntries(routes);
    FoldKeys(InitialComponents, es, kind);
    FoldKeys(InitialComponents, es, "schemas");
    if exists i :: 0 <= i < |routes| && kind in es[i] {
      var i :| 0 <= i < |routes| && kind in es[i];
      assert kind in RouteComponents(routes[i]);
    }
    if exists i :: 0 <= i < |routes| && kind in RouteComponents(routes[i]) {
      var i :| 0 <= i < |routes| && kind in RouteComponents(routes[i]);
      assert kind in es[i];
    }
  }

  /** `components[kind][name]` comes from the last route that declares it:
      later routes override earlier entries of the same name. */
  lemma LastComponentWins(routes: seq<RouteDef>, i: nat, kind: string, name: string)
    requires i < |routes| && Defines(RouteComponents(routes[i]), kind, name)
    requires forall j :: i < j < |routes| ==> !Defines(RouteComponents(routes[j]), kind, name)
    ensures Defines(FragmentComponents(routes), kind, name)
    ensures FragmentComponents(routes)[kind][name] == RouteComponents(routes[i])[kind][name]
  {
    var es := ComponentEntries(routes);
    forall j | i < j < |es|
      ensures !Defines(es[j], kind, name)
    {
      assert es[j] == RouteComponents(routes[j]);
    }
    FoldLastWins(InitialComponents, es, i, kind, name);
  }

  /** A further route's components become `{...old, ...new}` under each kind
      it declares, and leave every other kind as it was. */
  lemma AddedRouteSpreadsComponents(routes: seq<RouteDef>, r: RouteDef, kind: string)
    ensures var before := FragmentComponents(routes);
            var after := FragmentComponents(routes + [r]);
      && (kind in after <==> kind in before || kind in RouteComponents(r))
      && (kind in RouteComponents(r) ==> after[kind] == Inner(before, kind) + RouteComponents(r)[kind])
      && (kind !in RouteComponents(r) && kind in before ==> after[kind] == before[kind])
  {
    var all := routes + [r];
    assert all[..|routes|] == routes;
    assert all[..|routes| + 1] == all;
    assert all[|routes|] == r;
    ComponentsStep(all, |routes|);
    var before := FragmentComponents(routes);
    var added := RouteComponents(r);
    assert FragmentComponents(all) == MergeNested(before, added);
    if kind in before || kind in added {
      assert MergeNested(before, added)[kind] == Inner(before, kind) + Inner(added, kind);
      if kind !in added {
        assert before[kind] + map[] == before[kind];
      }
    }
  }

  // ---------------------------------------------------------------------
  // Operations

  /** A route without `swagger` metadata gets every default: empty summary
      and description, the group tag (if any) as its only tag, no
      parameters, a single `200: Success` response, no body, no security. */
  lemma DefaultOperation(tag: Option<Json>)
    ensures BuildOperation(None, tag)
         == Operation(JStr(""), JStr(""), if Given(tag) then JArr([tag.value]) else JArr([]),
                      [], JObj(map["200" := JObj(map["description" := JStr("Success")])]), None, None)
  {
  }

  /** `tags` given as an array is used as it is, even when it is empty:
      the group tag is then not applied. */
  lemma GivenTagsOverrideGroupTag(meta: RouteMeta, tag: Option<Json>, tags: seq<Json>)
    requires meta.tags == Some(JArr(tags))
    ensures BuildOperation(Some(meta), tag).tags == JArr(tags)
  {
  }

  /** Normalising a normalised parameter changes nothing. */
  lemma MapParamStable(p: ParamSpec)
    ensures MapParam(AsParamSpec(MapParam(p))) == MapParam(p)
  {
  }

  /** Building an operation from the metadata of a built operation gives that
      operation back, whatever the group tag: every default is already in place. */
  lemma BuildOperationStable(meta: Option<RouteMeta>, tag: Option<Json>, otherTag: Option<Json>)
    ensures var op := BuildOperation(meta, tag);
      BuildOperation(Some(AsMeta(op)), otherTag) == op
  {
    var op := BuildOperation(meta, tag);
    var again := BuildOperation(Some(AsMeta(op)), otherTag);
    var ps := ParamsOf(AsMeta(op));
    assert |again.parameters| == |op.parameters|;
    forall i | 0 <= i < |op.parameters|
      ensures again.parameters[i] == op.parameters[i]
    {
      var m := MetaOrEmpty(meta);
      assert op.parameters[i] == MapParam(ParamsOf(m)[i]);
      assert ps[i] == AsParamSpec(op.parameters[i]);
      MapParamStable(ParamsOf(m)[i]);
    }
  }

  // ---------------------------------------------------------------------
  // Path keys

  /** The path key is the OpenAPI writing of the one well-formed split of
      the collapsed Express path into literal characters and parameters:
      every `:name` becomes `{name}` with the same name and nothing else
      changes. */
  lemma PathKeyRewritesParameters(fullBase: string, url: string)
    ensures var collapsed := CollapseSlashes(fullBase + url);
      && WellFormed(Tokenize(collapsed))
      && ExpressStyle(Tokenize(collapsed)) == collapsed
      && OpenApiStyle(Tokenize(collapsed)) == OpenApiPathKey(fullBase, url)
      && forall ps :: WellFormed(ps) && ExpressStyle(ps) == collapsed ==> ps == Tokenize(collapsed)
  {
    var collapsed := CollapseSlashes(fullBase + url);
    TokenizeWellFormed(collapsed);
    TokenizeExpress(collapsed);
    TokenizeOpenApi(collapsed);
    forall ps | WellFormed(ps) && ExpressStyle(ps) == collapsed
      ensures ps == Tokenize(collapsed)
    {
      TokenizeUnique(ps);
    }
  }

  /** The key of a route without slashes doubled and without parameters in
      its path is that path itself, e.g. `/v1/books`. */
  lemma PlainPathIsItsOwnKey(fullBase: string, url: string)
    requires NoDoubleSlash(fullBase + url) && NoColonParam(fullBase + url)
    ensures OpenApiPathKey(fullBase, url) == fullBase + url
  {
    CollapseFixpoint(fullBase + url);
    BracesFixpoint(fullBase + url);
  }
}
