# Route builder and OpenAPI aggregator, modelled in Dafny

The service declares its HTTP routes as data. `createRouter`
(`lib/routeBuilder.js`) turns one group of route definitions into two things:
- an Express router, with each route bound under its lower-cased method and its middlewares followed by its handler;
- an OpenAPI fragment, made of `paths`, `components` and `info`.

`mergeSwaggers` (`app.js`) folds the fragments of every route module into the
one OpenAPI 3.0.1 document the service publishes.

This project models both in Dafny and proves what they promise. It is split into these modules:

- `Wrappers`: `Option` and `Result`.
- `OpenApi`: JavaScript values (`Json`) with JavaScript truthiness, and the OpenAPI objects the code builds (`OpenApiParam`, `Operation`, `Info`, `Swagger`).
- `NestedMaps`: the later-wins object merge that both files use:
  - `paths[path][method] = op`;
  - `{...(c[k] || {}), ...v}`;
  - `Object.assign`.

  It has an entry-by-entry method (`MergeEntries`) proved equal to its specification (`MergeNested`), plus folds over sequences with key, entry and last-wins lemmas.
- `PathText`: the string work of the route builder:
  - ASCII lower-casing;
  - removing trailing slashes;
  - collapsing runs of slashes;
  - rewriting `:name` to `{name}`, with a tokenizer into literal characters and parameters. The tokenizer proves the rewrite changes each parameter's syntax and nothing else.
- `RouteBuilder`: `ensureMethod`, `mapParamToOpenApi`, the operation object, the version prefix, the full base path, the path key and `info`. `RegisterRoutes` is the loop over the routes, proved equal to the route-by-route specification `RegisteredRoutes`. `CreateRouter` builds on it and is proved equal to `BuiltRouter`.
- `RouteBuilderFacts`: what the built router module holds:
  - failure exactly when a method is unsupported;
  - bindings in route order;
  - path keys and methods;
  - last route wins, with nothing else touched;
  - component kinds and last-wins;
  - operation defaults and stability;
  - the parameter rewrite of path keys.
- `Aggregator`: `MergeSwaggers`, a loop proved equal to `MergedDocument`. Lemmas cover:
  - the union of paths, methods and schema names;
  - the last module winning;
  - modules that add nothing;
  - merging a module twice.

The Express router is represented by two things:
- the set of its property names that hold functions (`routerFunctions`), which is what `ensureMethod` tests;
- the list of `Binding`s the routes make.

`process.env.APP_NAME` and `process.env.APP_PORT` are parameters (`Option<string>`).

### Where the code and its description differ (the model follows the code)

- **Path key.** The comment at `lib/routeBuilder.js:47-48` says the OpenAPI path key is expressed without the version prefix. Line 49 builds it from `fullBasePath`, which includes `/v{version}`, so the model's keys carry the prefix (`OpenApiPathKey`).
- **Empty tags array.** `tags` uses `r.swagger?.tags || …`. An empty array is truthy in JavaScript, so a route that gives `tags: []` gets no tags, and the group tag is not applied (`GivenTagsOverrideGroupTag`).
- **Internal slashes in the base path.** `fullBasePath` only loses its trailing slashes. Runs of slashes inside it are not collapsed (`FullBasePath`). They are collapsed only in the path key.
- **Non-schema components.** The aggregator keeps only `components.schemas` of each module. Other component kinds that a router's fragment carries are dropped from the merged document (`Document` has only `schemas`).
- **Accepted method names.** `ensureMethod` accepts any method name the router holds a function for, not only HTTP verbs (for example `use` or `all`).
- **Unset port.** An unset `APP_PORT` makes the server URL `http://localhost:undefined` (`PortText`).

## Model

| member | source | states |
|---|---|---|
| PathText.ToLower | lib/routeBuilder.js:41 | the method name keeps its length, and each character is lower-cased (ASCII) |
| PathText.NatToDecimal | lib/routeBuilder.js:33 | a version number prints as decimal digits, without a leading zero, that denote exactly that number |
| PathText.DecimalUnique | lib/routeBuilder.js:33 | any digit string without a leading zero that denotes n is the one printed for n |
| PathText.IntToDecimal | lib/routeBuilder.js:33 | an integer prints as its digits without a leading zero, after a `-` when negative, denoting its value |
| PathText.SpellsUnique | lib/routeBuilder.js:33 | any canonical decimal writing of an integer is the one printed for it |
| PathText.TrimTrailingSlashes | lib/routeBuilder.js:34 | the result is a prefix of the input, only slashes were cut, and it does not end in `/` |
| PathText.TrimKeepsStart | lib/routeBuilder.js:34 | a start that does not end in `/` survives the trimming whole |
| PathText.CollapseSlashes | lib/routeBuilder.js:49 | the result has no two adjacent slashes, starts like the input, is no longer, and has the same non-slash characters |
| PathText.CollapseFixpoint | lib/routeBuilder.js:49 | a path without a run of slashes is left unchanged |
| PathText.CollapseIgnoresExtraSlash | lib/routeBuilder.js:49 | adding a slash next to a slash does not change the result, so every run of slashes becomes exactly one; with CollapseFixpoint this fixes the function |
| PathText.CollapseIdempotent | lib/routeBuilder.js:49 | collapsing twice equals collapsing once |
| PathText.WordPrefixLen | lib/routeBuilder.js:51 | the parameter name is the longest run of `[A-Za-z0-9_]` characters |
| PathText.ParamsToBraces | lib/routeBuilder.js:51 | no `:` followed by a word character is left, and the first character is kept or is the opening `{` |
| PathText.BracesKeepSingleSlashes | lib/routeBuilder.js:49-51 | rewriting parameters never creates two adjacent slashes |
| PathText.BracesFixpoint | lib/routeBuilder.js:51 | a path with no `:name` in it is left unchanged |
| PathText.Tokenize | lib/routeBuilder.js:51 | the first piece is the first character, or a parameter when the path starts with `:` |
| PathText.TokenizeExpress | lib/routeBuilder.js:51 | writing the pieces in Express syntax gives back the path |
| PathText.TokenizeOpenApi | lib/routeBuilder.js:51 | writing the pieces in OpenAPI syntax gives the rewritten path |
| PathText.TokenizeWellFormed | lib/routeBuilder.js:51 | names are maximal runs of word characters, and no literal `:` precedes a word character |
| PathText.TokenizeUnique | lib/routeBuilder.js:51 | every well-formed split of a path is the one the scanner produces |
| RouteBuilder.EnsureMethod | lib/routeBuilder.js:3-7 | succeeds exactly when the router has a function of that name; otherwise fails with `Invalid HTTP method: <method>` |
| RouteBuilder.MapParam | lib/routeBuilder.js:10-18 | the name is kept; `required` is true exactly when the input is truthy; `in`, `description` and `schema` are the author's value when truthy and `query`, `''`, `{type: 'string'}` otherwise |
| RouteBuilder.BuildOperation | lib/routeBuilder.js:54-71 | each field is the author's truthy value or its default (the group tag as the only tag; a `200: Success` response); parameters are normalised in order; `requestBody` and `security` are present exactly when given |
| RouteBuilder.VersionString | lib/routeBuilder.js:33 | a numeric version prints in canonical decimal (no leading zero) denoting its value; a string version prints as it is |
| RouteBuilder.VersionPrefix | lib/routeBuilder.js:33 | `/v` followed by the printed version when the version is truthy, and empty otherwise |
| RouteBuilder.FullBasePath | lib/routeBuilder.js:33-34 | version prefix plus base path with only trailing slashes removed; never ends in `/` |
| RouteBuilder.OpenApiPathKey | lib/routeBuilder.js:49-51 | the key has no run of slashes and no `:name` left, and both rewrites leave it unchanged |
| RouteBuilder.RouterInfo | lib/routeBuilder.js:86-89 | the title is `API ` plus the full base path, or `/` when that is empty, and ends in `/` only as `API /`; the version is `v` followed by the printed version when one was given, and `1.0.0` otherwise |
| RouteBuilder.FirstUnsupported | lib/routeBuilder.js:40-42 | the index of the first route whose lower-cased method the router lacks, with every earlier route supported; none when all are supported |
| RouteBuilder.FirstUnsupportedAfter | lib/routeBuilder.js:40-42 | checking route i when no earlier route failed: if its method is unsupported it is the first failure, otherwise the first failure (if any) lies after it |
| RouteBuilder.SetIsMerge | lib/routeBuilder.js:73-74 | setting `paths[key][method]` equals merging a one-entry object into `paths` |
| RouteBuilder.PathsStep | lib/routeBuilder.js:73-74 | one more route merges its path entry into the fragment's paths |
| RouteBuilder.ComponentsStep | lib/routeBuilder.js:76-80 | one more route merges its components into the fragment's components |
| RouteBuilder.BindingsStep | lib/routeBuilder.js:44-45 | one more route appends its binding |
| RouteBuilder.RegistrationStep | lib/routeBuilder.js:40-81 | registering one more route extends the registration of the routes before it by that route's binding, path entry and components |
| RouteBuilder.RegisterRoute | lib/routeBuilder.js:41-80 | the new state is the old one extended by the route: its binding appended, its operation set under its key and method, its components spread kind by kind |
| RouteBuilder.RegisterRoutes | lib/routeBuilder.js:40-81 | the loop over routes returns the bindings, paths and components of all routes, or the error for the first unsupported method |
| RouteBuilder.CreateRouter | lib/routeBuilder.js:31-95 | the loop returns exactly `BuiltRouter`: the error for the first unsupported method, or the module with its version prefix, base path, bindings and fragment |
| RouteBuilderFacts.FailsIffUnsupportedMethod | lib/routeBuilder.js:40-42 | building fails exactly when some route's lower-cased method is unsupported, with the message naming the first such method |
| RouteBuilderFacts.PrintedEndsInDigit | lib/routeBuilder.js:33 | a printed version number is non-empty and ends in a digit, so never in `/` |
| RouteBuilderFacts.NumberedPrefixSurvives | lib/routeBuilder.js:33-34 | with a nonzero numeric version, the prefix is `/v` and the number in decimal, and trimming trailing slashes from prefix plus base path keeps that prefix whole |
| RouteBuilderFacts.NumberedVersionInInfo | lib/routeBuilder.js:33-34 | with a numeric version, `info.version` is `v` and the number in decimal, and the title starts with `API /` followed by that same version |
| RouteBuilderFacts.BindingsFollowRoutes | lib/routeBuilder.js:44-45 | binding i is route i's lower-cased method, its url, and its middlewares in order followed by its handler |
| RouteBuilderFacts.FragmentKeysAreRouteKeys | lib/routeBuilder.js:49-73 | a key is in the fragment's paths exactly when some route's path key is that key |
| RouteBuilderFacts.FragmentMethodsAreRouteMethods | lib/routeBuilder.js:73-74 | a key and method are in the fragment exactly when some route has that key and method |
| RouteBuilderFacts.LastRouteWins | lib/routeBuilder.js:73-74 | among routes with the same key and method, the last one's operation is kept |
| RouteBuilderFacts.PathsSnoc | lib/routeBuilder.js:73-74 | appending a route merges its one-entry path object into the paths of the routes before it |
| RouteBuilderFacts.AddedRouteOverwritesOnlyItsSlot | lib/routeBuilder.js:73-74 | a further route sets its own key and method and leaves every other entry, including other methods of the same key, as it was |
| RouteBuilderFacts.ComponentKinds | lib/routeBuilder.js:38-80 | `schemas` is always present; any other kind is present exactly when some route declares it |
| RouteBuilderFacts.LastComponentWins | lib/routeBuilder.js:76-80 | a component name under a kind holds the value of the last route that declares it |
| RouteBuilderFacts.AddedRouteSpreadsComponents | lib/routeBuilder.js:77-79 | a further route spreads its entries over each kind it declares and leaves the other kinds unchanged |
| RouteBuilderFacts.DefaultOperation | lib/routeBuilder.js:54-62 | a route without `swagger` gets empty summary and description, the group tag, no parameters, `200: Success`, no body and no security |
| RouteBuilderFacts.GivenTagsOverrideGroupTag | lib/routeBuilder.js:57 | a `tags` array, even an empty one, replaces the group tag |
| RouteBuilderFacts.MapParamStable | lib/routeBuilder.js:10-18 | normalising a normalised parameter changes nothing |
| RouteBuilderFacts.BuildOperationStable | lib/routeBuilder.js:54-71 | rebuilding an operation from a built operation gives it back, whatever the group tag |
| RouteBuilderFacts.PathKeyRewritesParameters | lib/routeBuilder.js:49-51 | the key is the OpenAPI writing of the unique well-formed split of the collapsed Express path: each `:name` becomes `{name}` and nothing else changes |
| RouteBuilderFacts.PlainPathIsItsOwnKey | lib/routeBuilder.js:49-51 | a path without a run of slashes or a parameter is its own key |
| NestedMaps.MergeNested | lib/routeBuilder.js:76-80 | the merged object has exactly the outer keys of both sides |
| NestedMaps.MergeAt | lib/routeBuilder.js:78 | an entry is in the merge exactly when either side has it; `incoming` wins, and otherwise `acc`'s value is kept |
| NestedMaps.MergeOneSlot | lib/routeBuilder.js:73-74 | merging a single `{key: {method: op}}` sets that one entry to `op` and leaves every other entry, including other methods of the same key, as it was |
| NestedMaps.MergeNothing | app.js:45 | merging an empty object changes nothing |
| NestedMaps.MergeAgain | app.js:45-51 | merging the same object twice equals merging it once |
| NestedMaps.MergeEntries | app.js:45-51 | the entry-by-entry loop computes `MergeNested` |
| NestedMaps.FoldKeys | app.js:45-47 | an outer key is in the fold exactly when the start or some merged object has it |
| NestedMaps.FoldDefines | app.js:45-51 | an entry is in the fold exactly when the start or some merged object has it |
| NestedMaps.FoldLastWins | app.js:48-49 | an entry of the fold holds the value of the last object that defines it |
| NestedMaps.FlatKeys | app.js:53-55 | a key is in the flat fold exactly when the start or some merged object has it |
| NestedMaps.FlatLastWins | app.js:53-55 | the flat fold holds, under a key, the value of the last object that has it |
| Aggregator.MergedDocument | app.js:34-40 | `openapi` is `3.0.1`, `info` is `APP_NAME` with version `1.0.0`, and the server is `http://localhost:<APP_PORT>` |
| Aggregator.ModuleStep | app.js:42-56 | one more module merges its paths and its schemas |
| Aggregator.DocumentStep | app.js:42-56 | the document after one more module is the previous one with that module's paths merged in and its schemas assigned over |
| Aggregator.MergeSwaggers | app.js:33-59 | the loop over modules returns exactly `MergedDocument` |
| Aggregator.PathKeysAreUnion | app.js:45-47 | a path is in the document exactly when some module has it |
| Aggregator.MethodsAreUnion | app.js:45-51 | a path and method are in the document exactly when some module has them; methods from different modules under one path are all kept |
| Aggregator.LastModuleWins | app.js:48-49 | on the same path and method, the last module's operation is kept |
| Aggregator.SoleDefinitionKept | app.js:45-51 | an operation only one module defines appears unchanged |
| Aggregator.SchemaNamesAreUnion | app.js:53-55 | a schema name is in the document exactly when some module's `components.schemas` has it |
| Aggregator.LastSchemaWins | app.js:54 | on a schema name clash, the last module's schema is kept |
| Aggregator.PathlessModuleAddsNothing | app.js:43-45 | a module without `swagger` or `paths` leaves the paths unchanged |
| Aggregator.SchemalessModuleAddsNothing | app.js:53 | a module without `components.schemas` leaves the schemas unchanged |
| Aggregator.DuplicatePathsAreHarmless | app.js:45-51 | merging a module's paths twice gives the paths of merging them once |
| Aggregator.DuplicateSchemasAreHarmless | app.js:53-55 | merging a module's schemas twice gives the schemas of merging them once |
| Aggregator.DuplicateModuleIsHarmless | app.js:42-56 | merging a module twice gives the document of merging it once |

## Left out

- Express itself (`express.Router()`, how `router[method]` registers and later dispatches requests, mounting the router) is not modelled. The router is the set of its function-valued property names plus the list of bindings made.
- The branch of `lib/routeBuilder.js:44` for a `middlewares` value that is not an array (`[r.middlewares, r.handler]`) is not modelled. `middlewares` is always a sequence of handlers in the model.
- PathText.ToLower: lower-cases ASCII letters only. JavaScript's `toLowerCase` also folds non-ASCII letters.
- Numbers are integers. A fractional or `NaN` version, and the floating-point printing of `${version}`, are not modelled.
- `parameters` that is present but not an array (where `.map` throws a TypeError) is not modelled.
- The empty `if (r.swagger.requestBody?.content) { }` block at `lib/routeBuilder.js:67-68` does nothing, so it has no counterpart.
- The order of keys in JavaScript objects (insertion order) is not modelled. Objects are maps.
- Nothing in `app.js` outside `mergeSwaggers` is modelled:
  - the middleware setup (JSON body parsing, helmet, CORS);
  - mounting the routes and the Swagger UI;
  - the 404 handler;
  - reading `.env`.

  These are configuration of third-party code.
- `routes/bookRoutes.js` and the tests are not part of this model.
