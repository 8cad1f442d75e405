/** The JavaScript values and OpenAPI objects shared by the per-router
    fragment builder (lib/routeBuilder.js) and the global aggregator (app.js). */
module OpenApi {
  import opened Wrappers

  /** A JSON-like JavaScript value. Numbers are integers in this model. */
  datatype Json =
    | JNull
    | JBool(b: bool)
    | JNum(n: int)
    | JStr(s: string)
    | JArr(items: seq<Json>)
    | JObj(fields: map<string, Json>)

  /** JavaScript truthiness: `false`, `0`, `''` and `null` are falsy;
      every array and every object, even an empty one, is truthy. */
  predicate Truthy(v: Json) {
    match v
    case JNull => false
    case JBool(b) => b
    case JNum(n) => n != 0
    case JStr(s) => s != ""
    case JArr(_) => true
    case JObj(_) => true
  }

  /** True when a possibly-undefined property holds a truthy value. */
  predicate Given(v: Option<Json>) {
    v.Some? && Truthy(v.value)
  }

  /** JavaScript `v || fallback` for a possibly-undefined `v`. */
  function OrElse(v: Option<Json>, fallback: Json): Json {
    if Given(v) then v.value else fallback
  }

  /** One entry of an operation's `parameters` list, after defaulting. */
  datatype OpenApiParam = OpenApiParam(
    name: Option<Json>,
    location: Json,        // the `in` field
    required: bool,
    description: Json,
    schema: Json)

  /** An OpenAPI Operation object as the router builds it. `requestBody`
      and `security` are None when the property is not set at all. */
  datatype Operation = Operation(
    summary: Json,
    description: Json,
    tags: Json,
    parameters: seq<OpenApiParam>,
    responses: Json,
    requestBody: Option<Json>,
    security: Option<Json>)

  /** `paths[path][method]`. */
  type Paths = map<string, map<string, Operation>>

  datatype Info = Info(title: Option<string>, version: string)

  /** The `swagger` object of a route module. Any part may be missing in
      a module the aggregator is given. */
  datatype Swagger = Swagger(
    openapi: string,
    info: Info,
    paths: Option<Paths>,
    components: Option<map<string, map<string, Json>>>)

  const OpenApiVersion: string := "3.0.1"
}
