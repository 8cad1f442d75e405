/** app.js `mergeSwaggers`: folds the `swagger` fragments of an ordered list
    of route modules into the one OpenAPI document the service publishes.
    The environment variables it reads (`APP_NAME`, `APP_PORT`) are parameters. */
module Aggregator {
  import opened Wrappers
  import opened OpenApi
  import opened NestedMaps

  /** A route module as the aggregator sees it: only its `swagger` matters. */
  datatype ApiModule = ApiModule(swagger: Option<Swagger>)

  datatype Server = Server(url: string)

  /** The merged document: `components` holds `schemas` only. */
  datatype Document = Document(
    openapi: string,
    info: Info,
    servers: seq<Server>,
    paths: Paths,
    schemas: map<string, Json>)

  /** `(m.swagger || {}).paths || {}`. */
  function ModulePaths(m: ApiModule): Paths {
    if m.swagger.Some? && m.swagger.value.paths.Some? then m.swagger.value.paths.value else map[]
  }

  /** `s.components?.schemas`, when set. */
  function ModuleSchemas(m: ApiModule): Option<map<string, Json>> {
    if m.swagger.Some? && m.swagger.value.components.Some? && "schemas" in m.swagger.value.components.value
    then Some(m.swagger.value.components.value["schemas"])
    else None
  }

  /** What a module adds to `components.schemas`: nothing when it has none. */
  function SchemaContribution(m: ApiModule): map<string, Json> {
    match ModuleSchemas(m)
    case Some(s) => s
    case None => map[]
  }

  function PathMaps(ms: seq<ApiModule>): seq<Paths> {
    seq(|ms|, i requires 0 <= i < |ms| => ModulePaths(ms[i]))
  }

  function SchemaMaps(ms: seq<ApiModule>): seq<map<string, Json>> {
    seq(|ms|, i requires 0 <= i < |ms| => SchemaContribution(ms[i]))
  }

  function MergedPaths(ms: seq<ApiModule>): Paths {
    FoldNested(map[], PathMaps(ms))
  }

  function MergedSchemas(ms: seq<ApiModule>): map<string, Json> {
    FoldFlat(map[], SchemaMaps(ms))
  }

  /** `${process.env.APP_PORT}`: an unset variable prints as `undefined`. */
  function PortText(appPort: Option<string>): string {
    if appPort.Some? then appPort.value else "undefined"
  }

  /** The parts of the document that do not depend on the modules. */
  function Header(appName: Option<string>, appPort: Option<string>): Document {
    Document(
      OpenApiVersion,
      Info(appName, "1.0.0"),
      [Server("http://localhost:" + PortText(appPort))],
      map[],
      map[])
  }

  /** The document mergeSwaggers returns. Its `openapi`, `info` and
      `servers` are those of the header, whatever the modules are. */
  function MergedDocument(ms: seq<ApiModule>, appName: Option<string>, appPort: Option<string>): (d: Document)
    ensures d.openapi == "3.0.1"
    ensures d.info == Info(appName, "1.0.0")
    ensures d.servers == [Server("http://localhost:" + PortText(appPort))]
  {
    Header(appName, appPort).(paths := MergedPaths(ms), schemas := MergedSchemas(ms))
  }

  /** Taking one more module into account merges its paths and its schemas. */
  lemma ModuleStep(ms: seq<ApiModule>, i: nat)
    requires i < |ms|
    ensures MergedPaths(ms[..i + 1]) == MergeNested(MergedPaths(ms[..i]), ModulePaths(ms[i]))
    ensures MergedSchemas(ms[..i + 1]) == MergedSchemas(ms[..i]) + SchemaContribution(ms[i])
  {
    assert ms[..i + 1][..i] == ms[..i];
    assert PathMaps(ms[..i + 1])[..i] == PathMaps(ms[..i]);
    assert SchemaMaps(ms[..i + 1])[..i] == SchemaMaps(ms[..i]);
  }

  /** The document after one more module: its paths merged in, its schemas assigned over. */
  lemma DocumentStep(ms: seq<ApiModule>, i: nat, appName: Option<string>, appPort: Option<string>)
    requires i < |ms|
    ensures var before := MergedDocument(ms[..i], appName, appPort);
      MergedDocument(ms[..i + 1], appName, appPort)
        == before.(paths := MergeNested(before.paths, ModulePaths(ms[i])),
                   schemas := before.schemas + SchemaContribution(ms[i]))
  {
    ModuleStep(ms, i);
  }

  /** mergeSwaggers: starts from the fixed header and, module by module,
      merges each path's methods into the document (a later module wins on
      the same path and method) and `Object.assign`s its schemas. */
  method MergeSwaggers(modules: seq<ApiModule>, appName: Option<string>, appPort: Option<string>)
    returns (merged: Document)
    ensures merged == MergedDocument(modules, appName, appPort)
  {
    merged := Header(appName, appPort);
    var i := 0;
    while i < |modules|
      invariant 0 <= i <= |modules|
      invariant merged == MergedDocument(modules[..i], appName, appPort)
    {
      var m := modules[i];
      DocumentStep(modules, i, appName, appPort);
      var paths := MergeEntries(merged.paths, ModulePaths(m));
      merged := merged.(paths := paths);
      var schemas := ModuleSchemas(m);
      if schemas.Some? {
        merged := merged.(schemas := merged.schemas + schemas.value);
      } else {
        AssignNothing(merged.schemas);
      }
      i := i + 1;
    }
    assert modules[..i] == modules;
  }

  /** `Object.assign` of an empty object changes nothing. */
  lemma AssignNothing(m: map<string, Json>)
    ensures m + map[] == m
  {
    assert (m + map[]).Keys == m.Keys;
  }

  // ---------------------------------------------------------------------
  // What the merged document holds

  /** A path is in the document exactly when some module has it. */
  lemma PathKeysAreUnion(ms: seq<ApiModule>, p: string)
    ensures p in MergedPaths(ms) <==> exists i :: 0 <= i < |ms| && p in ModulePaths(ms[i])
  {
    FoldKeys(map[], PathMaps(ms), p);
    if exists i :: 0 <= i < |ms| && p in PathMaps(ms)[i] {
      var i :| 0 <= i < |ms| && p in PathMaps(ms)[i];
      assert p in ModulePaths(ms[i]);
    }
    if exists i :: 0 <= i < |ms| && p in ModulePaths(ms[i]) {
      var i :| 0 <= i < |ms| && p in ModulePaths(ms[i]);
      assert p in PathMaps(ms)[i];
    }
  }

  /** A path and method are in the document exactly when some module has
      them: methods contributed under the same path by different modules are
      all kept. */
  lemma MethodsAreUnion(ms: seq<ApiModule>, p: string, verb: string)
    ensures Defines(MergedPaths(ms), p, verb) <==> exists i :: 0 <= i < |ms| && Defines(ModulePaths(ms[i]), p, verb)
  {
    FoldDefines(map[], PathMaps(ms), p, verb);
    if exists i :: 0 <= i < |ms| && Defines(PathMaps(ms)[i], p, verb) {
      var i :| 0 <= i < |ms| && Defines(PathMaps(ms)[i], p, verb);
      assert Defines(ModulePaths(ms[i]), p, verb);
    }
    if exists i :: 0 <= i < |ms| && Defines(ModulePaths(ms[i]), p, verb) {
      var i :| 0 <= i < |ms| && Defines(ModulePaths(ms[i]), p, verb);
      assert Defines(PathMaps(ms)[i], p, verb);
    }
  }

  /** When several modules define the same path and method, the document
      holds the operation of the last of them. */
  lemma LastModuleWins(ms: seq<ApiModule>, i: nat, p: string, verb: string)
    requires i < |ms| && Defines(ModulePaths(ms[i]), p, verb)
    requires forall j :: i < j < |ms| ==> !Defines(ModulePaths(ms[j]), p, verb)
    ensures Defines(MergedPaths(ms), p, verb)
    ensures MergedPaths(ms)[p][verb] == ModulePaths(ms[i])[p][verb]
  {
    var pm := PathMaps(ms);
    forall j | i < j < |pm|
      ensures !Defines(pm[j], p, verb)
    {
      assert pm[j] == ModulePaths(ms[j]);
    }
    FoldLastWins(map[], pm, i, p, verb);
  }

  /** A path and method that only one module defines appear in the document
      with that module's operation unchanged. */
  lemma SoleDefinitionKept(ms: seq<ApiModule>, i: nat, p: string, verb: string)
    requires i < |ms| && Defines(ModulePaths(ms[i]), p, verb)
    requires forall j :: 0 <= j < |ms| && j != i ==> !Defines(ModulePaths(ms[j]), p, verb)
    ensures Defines(MergedPaths(ms), p, verb)
    ensures MergedPaths(ms)[p][verb] == ModulePaths(ms[i])[p][verb]
  {
    LastModuleWins(ms, i, p, verb);
  }

  /** A schema name is in the document exactly when some module's
      `components.schemas` has it. */
  lemma SchemaNamesAreUnion(ms: seq<ApiModule>, name: string)
    ensures name in MergedSchemas(ms) <==>
            exists i :: 0 <= i < |ms| && ModuleSchemas(ms[i]).Some? && name in ModuleSchemas(ms[i]).value
  {
    var sm := SchemaMaps(ms);
    FlatKeys(map[], sm, name);
    if exists i :: 0 <= i < |ms| && name in sm[i] {
      var i :| 0 <= i < |ms| && name in sm[i];
      assert ModuleSchemas(ms[i]).Some? && name in ModuleSchemas(ms[i]).value;
    }
    if exists i :: 0 <= i < |ms| && ModuleSchemas(ms[i]).Some? && name in ModuleSchemas(ms[i]).value {
      var i :| 0 <= i < |ms| && ModuleSchemas(ms[i]).Some? && name in ModuleSchemas(ms[i]).value;
      assert name in sm[i];
    }
  }

  /** On a schema name clash the last module that has the name wins. */
  lemma LastSchemaWins(ms: seq<ApiModule>, i: nat, name: string)
    requires i < |ms| && ModuleSchemas(ms[i]).Some? && name in ModuleSchemas(ms[i]).value
    requires forall j :: i < j < |ms| ==> ModuleSchemas(ms[j]).None? || name !in ModuleSchemas(ms[j]).value
    ensures name in MergedSchemas(ms)
    ensures MergedSchemas(ms)[name] == ModuleSchemas(ms[i]).value[name]
  {
    var sm := SchemaMaps(ms);
    forall j | i < j < |sm|
      ensures name !in sm[j]
    {
      assert sm[j] == SchemaContribution(ms[j]);
    }
    FlatLastWins(map[], sm, i, name);
  }

  /** A module without `swagger`, or without `paths`, adds nothing to the paths. */
  lemma PathlessModuleAddsNothing(ms: seq<ApiModule>, m: ApiModule)
    requires ModulePaths(m) == map[]
    ensures MergedPaths(ms + [m]) == MergedPaths(ms)
  {
    var all := ms + [m];
    assert all[..|ms|] == ms;
    assert all[..|ms| + 1] == all;
    ModuleStep(all, |ms|);
    MergeNothing(MergedPaths(ms));
  }

  /** A module without `components.schemas` adds nothing to the schemas. */
  lemma SchemalessModuleAddsNothing(ms: seq<ApiModule>, m: ApiModule)
    requires ModuleSchemas(m).None?
    ensures MergedSchemas(ms + [m]) == MergedSchemas(ms)
  {
    var all := ms + [m];
    assert all[..|ms|] == ms;
    assert all[..|ms| + 1] == all;
    ModuleStep(all, |ms|);
    assert MergedSchemas(ms) + map[] == MergedSchemas(ms);
  }

  /** Merging the same module twice gives the paths of merging it once. */
  lemma DuplicatePathsAreHarmless(m: ApiModule)
    ensures MergedPaths([m, m]) == MergedPaths([m])
  {
    var twice := [m, m];
    assert twice[..1] == [m];
    assert twice[..2] == twice;
    ModuleStep(twice, 1);
    ModuleStep([m], 0);
    assert [m][..1] == [m];
    MergeAgain(MergedPaths([m][..0]), ModulePaths(m));
  }

  /** Merging the same module twice gives the schemas of merging it once. */
  lemma DuplicateSchemasAreHarmless(m: ApiModule)
    ensures MergedSchemas([m, m]) == MergedSchemas([m])
  {
    var s := SchemaContribution(m);
    var once := MergedSchemas([m]);
    assert MergedSchemas([m, m]) == once + s by {
      var twice := [m, m];
      assert twice[..1] == [m];
      assert twice[..2] == twice;
      ModuleStep(twice, 1);
    }
    assert once == MergedSchemas([]) + s by {
      assert [m][..1] == [m];
      assert [m][..0] == [];
      ModuleStep([m], 0);
    }
    assert once + s == once;
  }

  /** Merging the same module twice gives the document of merging it once. */
  lemma DuplicateModuleIsHarmless(m: ApiModule, appName: Option<string>, appPort: Option<string>)
    ensures MergedDocument([m, m], appName, appPort) == MergedDocument([m], appName, appPort)
  {
    DuplicatePathsAreHarmless(m);
    DuplicateSchemasAreHarmless(m);
  }
}
