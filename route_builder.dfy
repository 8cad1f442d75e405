/** lib/routeBuilder.js: `createRouter` turns a versioned group of route
    definitions into Express bindings and the OpenAPI fragment of the group.
    The Express router is abstracted as the set of names under which it has
    a function (`routerFunctions`) and the list of bindings made on it. */
module RouteBuilder {
  import opened Wrappers
  import opened OpenApi
  import opened NestedMaps
  import opened PathText

  /** The identity of a middleware or handler function. */
  datatype Handler = Handler(id: nat)

  /** `version` may be a number (`1`) or a string (`'2'`). */
  datatype Version = VersionNum(n: int) | VersionText(s: string)

  /** One entry of a route's `swagger.parameters`, as the author wrote it. */
  datatype ParamSpec = ParamSpec(
    name: Option<Json>,
    location: Option<Json>,   // the `in` field
    required: Option<Json>,
    description: Option<Json>,
    schema: Option<Json>)

  /** A route's `swagger` metadata; every property may be missing. */
  datatype RouteMeta = RouteMeta(
    summary: Option<Json>,
    description: Option<Json>,
    tags: Option<Json>,
    parameters: Option<seq<ParamSpec>>,
    requestBody: Option<Json>,
    responses: Option<Json>,
    security: Option<Json>,
    components: Option<NestedMap<Json>>)

  /** `{ method, url, middlewares, handler, swagger }`. */
  datatype RouteDef = RouteDef(
    httpMethod: string,
    url: string,
    middlewares: seq<Handler>,
    handler: Handler,
    swagger: Option<RouteMeta>)

  /** The argument of `createRouter`: `{ version, basePath, routes, tag }`. */
  datatype RouteGroup = RouteGroup(
    version: Option<Version>,
    basePath: Option<string>,
    routes: seq<RouteDef>,
    tag: Option<Json>)

  /** One registration `router[method](url, ...chain)`. */
  datatype Binding = Binding(httpMethod: string, url: string, chain: seq<Handler>)

  /** What `createRouter` returns: `{ versionPrefix, basePath, router, swagger }`. */
  datatype RouterModule = RouterModule(
    versionPrefix: string,
    basePath: string,
    bindings: seq<Binding>,
    swagger: Swagger)

  // ---------------------------------------------------------------------
  // ensureMethod

  function InvalidMethodMessage(httpMethod: string): string {
    "Invalid HTTP method: " + httpMethod
  }

  /** Succeeds exactly when the router has a function named `method`;
      otherwise fails with the message naming the method. */
  function EnsureMethod(routerFunctions: set<string>, httpMethod: string): (r: Result<(), string>)
    ensures r.Ok? <==> httpMethod in routerFunctions
    ensures r.Err? ==> r.error == InvalidMethodMessage(httpMethod)
  {
    if httpMethod in routerFunctions then Ok(()) else Err(InvalidMethodMessage(httpMethod))
  }

  // ---------------------------------------------------------------------
  // mapParamToOpenApi

  const DefaultParamSchema: Json := JObj(map["type" := JStr("string")])

  /** Normalises one parameter: the name is kept as it is, `in` defaults to
      `'query'`, `required` becomes a boolean, `description` defaults to `''`
      and `schema` to `{type: 'string'}`. */
  function MapParam(p: ParamSpec): (r: OpenApiParam)
    ensures r.name == p.name
    ensures r.required <==> Given(p.required)
    ensures Given(p.location) ==> r.location == p.location.value
    ensures !Given(p.location) ==> r.location == JStr("query")
    ensures Given(p.description) ==> r.description == p.description.value
    ensures !Given(p.description) ==> r.description == JStr("")
    ensures Given(p.schema) ==> r.schema == p.schema.value
    ensures !Given(p.schema) ==> r.schema == DefaultParamSchema
    ensures Truthy(r.location) && Truthy(r.schema)
  {
    OpenApiParam(
      p.name,
      OrElse(p.location, JStr("query")),
      Given(p.required),
      OrElse(p.description, JStr("")),
      OrElse(p.schema, DefaultParamSchema))
  }

  /** An already normalised parameter, written back as an author would. */
  function AsParamSpec(q: OpenApiParam): ParamSpec {
    ParamSpec(q.name, Some(q.location), Some(JBool(q.required)), Some(q.description), Some(q.schema))
  }

  // ---------------------------------------------------------------------
  // The Operation object

  /** `r.swagger?.x` reads undefined for every `x` when `swagger` is missing. */
  const NoMeta: RouteMeta := RouteMeta(None, None, None, None, None, None, None, None)

  function MetaOrEmpty(meta: Option<RouteMeta>): RouteMeta {
    if meta.Some? then meta.value else NoMeta
  }

  function ParamsOf(m: RouteMeta): seq<ParamSpec> {
    if m.parameters.Some? then m.parameters.value else []
  }

  /** `{200: {description: 'Success'}}`. */
  const DefaultResponses: Json := JObj(map["200" := JObj(map["description" := JStr("Success")])])

  /** `tag ? [tag] : []`. */
  function GroupTags(tag: Option<Json>): Json {
    if Given(tag) then JArr([tag.value]) else JArr([])
  }

  /** Builds the Operation of one route. Each field is the author's value
      when that value is truthy and the documented default otherwise;
      parameters are normalised one by one in their order; `requestBody`
      and `security` are set only when given. */
  function BuildOperation(meta: Option<RouteMeta>, tag: Option<Json>): (r: Operation)
    ensures var m := MetaOrEmpty(meta);
      && (Given(m.summary) ==> r.summary == m.summary.value)
      && (!Given(m.summary) ==> r.summary == JStr(""))
      && (Given(m.description) ==> r.description == m.description.value)
      && (!Given(m.description) ==> r.description == JStr(""))
      && (Given(m.tags) ==> r.tags == m.tags.value)
      && (!Given(m.tags) ==> r.tags == GroupTags(tag))
      && |r.parameters| == |ParamsOf(m)|
      && (forall i :: 0 <= i < |r.parameters| ==> r.parameters[i] == MapParam(ParamsOf(m)[i]))
      && (Given(m.responses) ==> r.responses == m.responses.value)
      && (!Given(m.responses) ==> r.responses == DefaultResponses)
      && (r.requestBody.Some? <==> Given(m.requestBody))
      && (r.requestBody.Some? ==> r.requestBody == m.requestBody)
      && (r.security.Some? <==> Given(m.security))
      && (r.security.Some? ==> r.security == m.security)
    ensures Truthy(r.tags) && Truthy(r.responses)
  {
    var m := MetaOrEmpty(meta);
    var ps := ParamsOf(m);
    Operation(
      OrElse(m.summary, JStr("")),
      OrElse(m.description, JStr("")),
      OrElse(m.tags, GroupTags(tag)),
      seq(|ps|, i requires 0 <= i < |ps| => MapParam(ps[i])),
      OrElse(m.responses, DefaultResponses),
      if Given(m.requestBody) then m.requestBody else None,
      if Given(m.security) then m.security else None)
  }

  /** A built operation, written back as route metadata. */
  function AsMeta(op: Operation): RouteMeta {
    RouteMeta(
      Some(op.summary),
      Some(op.description),
      Some(op.tags),
      Some(seq(|op.parameters|, i requires 0 <= i < |op.parameters| => AsParamSpec(op.parameters[i]))),
      op.requestBody,
      Some(op.responses),
      op.security,
      None)
  }

  // ---------------------------------------------------------------------
  // Version prefix, base path and path key

  /** `version` is truthy. */
  predicate VersionGiven(v: Option<Version>) {
    v.Some? &&
    match v.value
    case VersionNum(n) => n != 0
    case VersionText(s) => s != ""
  }

  /** `${version}`: a number is printed in decimal, a string as it is. */
  function VersionString(v: Version): (r: string)
    ensures v.VersionNum? ==> Spells(r, v.n)
    ensures v.VersionText? ==> r == v.s
  {
    match v
    case VersionNum(n) => IntToDecimal(n)
    case VersionText(s) => s
  }

  /** `version ? `/v${version}` : ''`: `/v` followed by the printed version
      when the version is truthy (not missing, `0` or `''`), nothing otherwise. */
  function VersionPrefix(v: Option<Version>): (r: string)
    ensures VersionGiven(v) ==> |r| > 2 && r[..2] == "/v" && r[2..] == VersionString(v.value)
    ensures VersionGiven(v) && v.value.VersionNum? ==> Spells(r[2..], v.value.n)
    ensures !VersionGiven(v) ==> r == ""
  {
    if VersionGiven(v) then "/v" + VersionString(v.value) else ""
  }

  /** `basePath = ''`: the default applies only when the property is missing. */
  function BasePathOrDefault(basePath: Option<string>): string {
    if basePath.Some? then basePath.value else ""
  }

  /** The version prefix followed by the base path, without its trailing
      slashes: it never ends in `/` and only slashes were cut off. */
  function FullBasePath(version: Option<Version>, basePath: string): (r: string)
    ensures var joined := VersionPrefix(version) + basePath;
      && r <= joined
      && (forall i :: |r| <= i < |joined| ==> joined[i] == '/')
      && (r == [] || r[|r| - 1] != '/')
  {
    TrimTrailingSlashes(VersionPrefix(version) + basePath)
  }

  /** The OpenAPI key of a route: the full base path followed by the route
      url, each run of slashes made one, each `:name` made `{name}`. The key
      has no run of slashes (collapsing it again changes nothing) and no
      Express parameter left. */
  function OpenApiPathKey(fullBase: string, url: string): (r: string)
    ensures NoDoubleSlash(r) && NoColonParam(r)
    ensures CollapseSlashes(r) == r
    ensures ParamsToBraces(r) == r
  {
    var collapsed := CollapseSlashes(fullBase + url);
    BracesKeepSingleSlashes(collapsed);
    CollapseFixpoint(ParamsToBraces(collapsed));
    BracesFixpoint(ParamsToBraces(collapsed));
    ParamsToBraces(collapsed)
  }

  /** The `info` of a router's fragment. Its title is `API ` followed by the
      full base path, or `/` when that is empty, so it ends in a slash only
      when it is `API /`; its version is `v` followed by the printed version
      when a version was given, and `1.0.0` otherwise. */
  function RouterInfo(version: Option<Version>, basePath: string): (r: Info)
    ensures r.title.Some?
    ensures var fb := FullBasePath(version, basePath);
      r.title.value == "API " + (if fb == "" then "/" else fb)
    ensures r.title.value[|r.title.value| - 1] == '/' ==> r.title.value == "API /"
    ensures |r.version| > 0 && (r.version[0] == 'v' <==> VersionGiven(version))
    ensures VersionGiven(version) ==> r.version == "v" + VersionString(version.value)
    ensures VersionGiven(version) && version.value.VersionNum? ==> Spells(r.version[1..], version.value.n)
    ensures !VersionGiven(version) ==> r.version == "1.0.0"
  {
    var fb := FullBasePath(version, basePath);
    Info(
      Some("API " + (if fb == "" then "/" else fb)),
      if VersionGiven(version) then "v" + VersionString(version.value) else "1.0.0")
  }

  // ---------------------------------------------------------------------
  // What createRouter computes, route by route

  /** The method name as the router is asked for it. */
  function MethodOf(r: RouteDef): string {
    ToLower(r.httpMethod)
  }

  predicate Supported(routerFunctions: set<string>, r: RouteDef) {
    MethodOf(r) in routerFunctions
  }

  /** The index of the first route whose method the router lacks, if any. */
  function FirstUnsupported(routerFunctions: set<string>, routes: seq<RouteDef>): (r: Option<nat>)
    ensures r.Some? ==>
      && r.value < |routes|
      && !Supported(routerFunctions, routes[r.value])
      && forall j :: 0 <= j < r.value ==> Supported(routerFunctions, routes[j])
    ensures r.None? ==> forall j :: 0 <= j < |routes| ==> Supported(routerFunctions, routes[j])
    decreases |routes|
  {
    if routes == [] then None
    else if !Supported(routerFunctions, routes[0]) then Some(0)
    else
      match FirstUnsupported(routerFunctions, routes[1..])
      case None => None
      case Some(i) => Some(i + 1)
  }

  /** The binding a route makes: its middlewares, in order, then its handler. */
  function BindingOf(r: RouteDef): Binding {
    Binding(MethodOf(r), r.url, r.middlewares + [r.handler])
  }

  function Bindings(routes: seq<RouteDef>): seq<Binding> {
    seq(|routes|, i requires 0 <= i < |routes| => BindingOf(routes[i]))
  }

  /** The one-entry `paths` object a route contributes. */
  function PathEntry(fullBase: string, tag: Option<Json>, r: RouteDef): Paths {
    map[OpenApiPathKey(fullBase, r.url) := map[MethodOf(r) := BuildOperation(r.swagger, tag)]]
  }

  function PathEntries(fullBase: string, tag: Option<Json>, routes: seq<RouteDef>): seq<Paths> {
    seq(|routes|, i requires 0 <= i < |routes| => PathEntry(fullBase, tag, routes[i]))
  }

  /** The `components` a route contributes (`swagger.components`, or nothing). */
  function RouteComponents(r: RouteDef): NestedMap<Json> {
    var m := MetaOrEmpty(r.swagger);
    if m.components.Some? then m.components.value else map[]
  }

  function ComponentEntries(routes: seq<RouteDef>): seq<NestedMap<Json>> {
    seq(|routes|, i requires 0 <= i < |routes| => RouteComponents(routes[i]))
  }

  /** `{ schemas: {} }`. */
  const InitialComponents: NestedMap<Json> := map["schemas" := map[]]

  function FragmentPaths(fullBase: string, tag: Option<Json>, routes: seq<RouteDef>): Paths {
    FoldNested(map[], PathEntries(fullBase, tag, routes))
  }

  function FragmentComponents(routes: seq<RouteDef>): NestedMap<Json> {
    FoldNested(InitialComponents, ComponentEntries(routes))
  }

  /** The router module of a group whose every method is supported. */
  function ModuleOf(g: RouteGroup): RouterModule {
    var basePath := BasePathOrDefault(g.basePath);
    var fullBase := FullBasePath(g.version, basePath);
    RouterModule(
      VersionPrefix(g.version),
      basePath,
      Bindings(g.routes),
      Swagger(
        OpenApiVersion,
        RouterInfo(g.version, basePath),
        Some(FragmentPaths(fullBase, g.tag, g.routes)),
        Some(FragmentComponents(g.routes))))
  }

  /** What `createRouter` returns, or the error it throws at the first
      route whose method the router lacks. */
  function BuiltRouter(g: RouteGroup, routerFunctions: set<string>): Result<RouterModule, string> {
    match FirstUnsupported(routerFunctions, g.routes)
    case Some(i) => Err(InvalidMethodMessage(MethodOf(g.routes[i])))
    case None => Ok(ModuleOf(g))
  }

  /** Setting `paths[key][method]` merges a one-entry object into `paths`. */
  lemma SetIsMerge<V>(m: NestedMap<V>, k: string, k2: string, v: V)
    ensures m[k := Inner(m, k)[k2 := v]] == MergeNested(m, map[k := map[k2 := v]])
  {
    var lhs := m[k := Inner(m, k)[k2 := v]];
    var rhs := MergeNested(m, map[k := map[k2 := v]]);
    assert lhs.Keys == rhs.Keys;
    forall x | x in lhs
      ensures lhs[x] == rhs[x]
    {
      if x == k {
        assert Inner(m, k)[k2 := v] == Inner(m, k) + map[k2 := v];
      } else {
        assert rhs[x] == m[x] + map[];
        assert m[x] + map[] == m[x];
      }
    }
  }

  /** Taking one more route into account merges its path entry into the fragment. */
  lemma PathsStep(fullBase: string, tag: Option<Json>, routes: seq<RouteDef>, i: nat)
    requires i < |routes|
    ensures FragmentPaths(fullBase, tag, routes[..i + 1])
         == MergeNested(FragmentPaths(fullBase, tag, routes[..i]), PathEntry(fullBase, tag, routes[i]))
  {
    var es := PathEntries(fullBase, tag, routes[..i + 1]);
    assert es[..i] == PathEntries(fullBase, tag, routes[..i]) by {
      assert routes[..i + 1][..i] == routes[..i];
    }
    assert es[i] == PathEntry(fullBase, tag, routes[i]);
  }

  /** Taking one more route into account merges its components into the fragment. */
  lemma ComponentsStep(routes: seq<RouteDef>, i: nat)
    requires i < |routes|
    ensures FragmentComponents(routes[..i + 1])
         == MergeNested(FragmentComponents(routes[..i]), RouteComponents(routes[i]))
  {
    var es := ComponentEntries(routes[..i + 1]);
    assert es[..i] == ComponentEntries(routes[..i]) by {
      assert routes[..i + 1][..i] == routes[..i];
    }
    assert es[i] == RouteComponents(routes[i]);
  }

  /** Taking one more route into account appends its binding. */
  lemma BindingsStep(routes: seq<RouteDef>, i: nat)
    requires i < |routes|
    ensures Bindings(routes[..i + 1]) == Bindings(routes[..i]) + [BindingOf(routes[i])]
  {
  }

  /** What the routes register: the bindings, the fragment's paths and its
      components. */
  datatype Registered = Registered(bindings: seq<Binding>, paths: Paths, components: NestedMap<Json>)

  /** The registration of every route of `routes`, in order. */
  function Registration(fullBase: string, tag: Option<Json>, routes: seq<RouteDef>): Registered {
    Registered(Bindings(routes), FragmentPaths(fullBase, tag, routes), FragmentComponents(routes))
  }

  /** What registering one more route adds. */
  function Extend(acc: Registered, fullBase: string, tag: Option<Json>, r: RouteDef): Registered {
    Registered(
      acc.bindings + [BindingOf(r)],
      MergeNested(acc.paths, PathEntry(fullBase, tag, r)),
      MergeNested(acc.components, RouteComponents(r)))
  }

  /** Registering the routes one by one builds the registration of all of them. */
  lemma RegistrationStep(fullBase: string, tag: Option<Json>, routes: seq<RouteDef>, i: nat)
    requires i < |routes|
    ensures Registration(fullBase, tag, routes[..i + 1])
         == Extend(Registration(fullBase, tag, routes[..i]), fullBase, tag, routes[i])
  {
    PathsStep(fullBase, tag, routes, i);
    ComponentsStep(routes, i);
    BindingsStep(routes, i);
  }

  /** The body of `routes.forEach((r) => ...)` once the method is known to be
      supported: binds the chain, then records the operation under its path
      key and method (replacing an earlier one there) and merges the route's
      components into `components`, kind by kind. */
  method RegisterRoute(fullBasePath: string, tag: Option<Json>, r: RouteDef, acc: Registered)
    returns (acc': Registered)
    ensures acc' == Extend(acc, fullBasePath, tag, r)
  {
    var httpMethod := ToLower(r.httpMethod);
    var handlers := r.middlewares + [r.handler];
    var bindings := acc.bindings + [Binding(httpMethod, r.url, handlers)];

    var key := OpenApiPathKey(fullBasePath, r.url);
    var op := BuildOperation(r.swagger, tag);
    SetIsMerge(acc.paths, key, httpMethod, op);
    var paths := acc.paths[key := Inner(acc.paths, key)[httpMethod := op]];

    var components := acc.components;
    var meta := MetaOrEmpty(r.swagger);
    if meta.components.Some? {
      components := MergeEntries(components, meta.components.value);
    } else {
      MergeNothing(components);
    }
    acc' := Registered(bindings, paths, components);
  }

  /** The registration of `routes`, or the error for the first route whose
      method the router lacks. */
  function RegisteredRoutes(routerFunctions: set<string>, fullBase: string, tag: Option<Json>, routes: seq<RouteDef>)
    : Result<Registered, string>
  {
    match FirstUnsupported(routerFunctions, routes)
    case Some(i) => Err(InvalidMethodMessage(MethodOf(routes[i])))
    case None => Ok(Registration(fullBase, tag, routes))
  }

  /** Scanning route `i` when no unsupported route was found before it: it is
      the first unsupported one, or the first one lies beyond it. */
  lemma FirstUnsupportedAfter(routerFunctions: set<string>, routes: seq<RouteDef>, i: nat)
    requires i < |routes|
    requires var first := FirstUnsupported(routerFunctions, routes); first.Some? ==> i <= first.value
    ensures var first := FirstUnsupported(routerFunctions, routes);
      && (!Supported(routerFunctions, routes[i]) ==> first == Some(i))
      && (Supported(routerFunctions, routes[i]) ==> (first.Some? ==> i + 1 <= first.value))
  {
  }

  /** `routes.forEach(...)`: checks and registers each route in order, and
      stops with the error at the first route whose method the router lacks. */
  method RegisterRoutes(routerFunctions: set<string>, fullBasePath: string, tag: Option<Json>, routes: seq<RouteDef>)
    returns (res: Result<Registered, string>)
    ensures res == RegisteredRoutes(routerFunctions, fullBasePath, tag, routes)
  {
    var acc := Registered([], map[], InitialComponents);
    assert routes[..0] == [];
    ghost var first := FirstUnsupported(routerFunctions, routes);
    var i := 0;
    while i < |routes|
      invariant 0 <= i <= |routes|
      invariant first.Some? ==> i <= first.value
      invariant acc == Registration(fullBasePath, tag, routes[..i])
    {
      var check := EnsureMethod(routerFunctions, MethodOf(routes[i]));
      FirstUnsupportedAfter(routerFunctions, routes, i);
      if check.Err? {
        return Err(check.error);
      }
      acc := RegisterRoute(fullBasePath, tag, routes[i], acc);
      assert acc == Registration(fullBasePath, tag, routes[..i + 1]) by {
        RegistrationStep(fullBasePath, tag, routes, i);
      }
      i := i + 1;
    }
    assert routes[..i] == routes;
    res := Ok(acc);
  }

  /** createRouter: registers each route in order and builds the fragment;
      throws (returns Err) at the first route whose method the router lacks. */
  method CreateRouter(g: RouteGroup, routerFunctions: set<string>) returns (res: Result<RouterModule, string>)
    ensures res == BuiltRouter(g, routerFunctions)
  {
    var basePath := BasePathOrDefault(g.basePath);
    var versionPrefix := VersionPrefix(g.version);
    var fullBasePath := TrimTrailingSlashes(versionPrefix + basePath);
    var registered := RegisterRoutes(routerFunctions, fullBasePath, g.tag, g.routes);
    if registered.Err? {
      return Err(registered.error);
    }
    var r := registered.value;
    var swagger := Swagger(OpenApiVersion, RouterInfo(g.version, basePath), Some(r.paths), Some(r.components));
    res := Ok(RouterModule(versionPrefix, basePath, r.bindings, swagger));
  }
}
