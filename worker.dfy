/**
 * The Worker's entry point: a preflight answer before anything else, three
 * API paths routed to their handlers, and every other request handed to the
 * Pages machinery, whose response is copied under the fetch standard's
 * null-body rule.
 */
module Worker {
  import opened Wrappers
  import opened JsValues
  import opened Http
  import AbacusGenerate
  import ModelTags

  /** The headers of the Worker's own preflight answer. */
  const CorsHeaders: Headers := [
    ("Access-Control-Allow-Origin", "*"),
    ("Access-Control-Allow-Methods", "GET,OPTIONS,POST"),
    ("Access-Control-Allow-Headers", "Content-Type,Authorization")
  ]

  /** The null body statuses of the fetch standard: a response with one of them cannot have a body. */
  const NullBodyStatuses: set<int> := {101, 204, 205, 304}

  /** `new Response(nullBodyStatus ? null : response.body, response)`. */
  function CloneResponse(response: Response): (r: Response)
    ensures r.status == response.status && r.headers == response.headers
    ensures r.body.NoBody? <==> response.status in NullBodyStatuses || response.body.NoBody?
    ensures !r.body.NoBody? ==> r.body == response.body
  {
    var body := if response.status in NullBodyStatuses then NoBody else response.body;
    Response(response.status, response.headers, body)
  }

  /** Copying a copy changes nothing further, and a response with an ordinary status is copied as it is. */
  lemma CloneSettles(response: Response)
    ensures CloneResponse(CloneResponse(response)) == CloneResponse(response)
    ensures response.status !in NullBodyStatuses ==> CloneResponse(response) == response
  {
  }

  /** Where a request goes. */
  datatype Route = Preflight | ModelsApi | TagsApi | GenerateApi | PagesFunctions

  function RouteOf(request: Request): (r: Route)
    ensures r == Preflight <==> request.httpMethod == "OPTIONS"
    ensures r == ModelsApi <==> request.httpMethod != "OPTIONS" && request.pathname == "/api/models"
    ensures r == TagsApi <==> request.httpMethod != "OPTIONS" && request.pathname == "/api/tags"
    ensures r == GenerateApi <==> request.httpMethod != "OPTIONS" && request.pathname == "/api/generate"
  {
    if request.httpMethod == "OPTIONS" then Preflight
    else if request.pathname == "/api/models" then ModelsApi
    else if request.pathname == "/api/tags" then TagsApi
    else if request.pathname == "/api/generate" then GenerateApi
    else PagesFunctions
  }

  /**
   * What the parts the Worker delegates to do with the request: the Abacus.ai
   * key of the environment and the upstream reply of the generate handler, the
   * catalogue fetch of the tags handler with the runtime's error message, and
   * the outcomes of the models handler and of the Pages function that
   * serves the request.
   */
  datatype Delegates = Delegates(
    abacusKey: Value,
    abacusReply: Option<Json>,
    catalogue: ModelTags.Catalogue,
    thrown: string,
    models: Outcome,
    pages: Outcome)

  /** `fetch(request, env)`. */
  function Fetch(request: Request, delegates: Delegates): (r: Outcome)
    ensures RouteOf(request) == Preflight ==> r == Returned(Response(204, CorsHeaders, NoBody))
    ensures RouteOf(request) == ModelsApi ==> r == delegates.models
    ensures RouteOf(request) == TagsApi ==>
      r == Returned(ModelTags.OnRequest(request, delegates.catalogue, delegates.thrown))
    ensures RouteOf(request) == GenerateApi ==>
      r == AbacusGenerate.OnRequest(request, delegates.abacusKey, delegates.abacusReply).outcome
    ensures RouteOf(request) == PagesFunctions ==>
      r == if delegates.pages.Returned? then Returned(CloneResponse(delegates.pages.response)) else Threw
  {
    match RouteOf(request)
    case Preflight => Returned(Response(204, CorsHeaders, NoBody))
    case ModelsApi => delegates.models
    case TagsApi => Returned(ModelTags.OnRequest(request, delegates.catalogue, delegates.thrown))
    case GenerateApi => AbacusGenerate.OnRequest(request, delegates.abacusKey, delegates.abacusReply).outcome
    case PagesFunctions => if delegates.pages.Returned? then Returned(CloneResponse(delegates.pages.response)) else Threw
  }

  /**
   * A preflight is answered by the Worker itself, whatever the path: the
   * handlers' own preflight answers, with their narrower method lists, are
   * never reached through it.
   */
  lemma PreflightShadowsHandlers(request: Request, delegates: Delegates)
    requires request.httpMethod == "OPTIONS"
    ensures Fetch(request, delegates).Returned?
    ensures HeaderValue(Fetch(request, delegates).response.headers, "Access-Control-Allow-Methods") == Some("GET,OPTIONS,POST")
    ensures Fetch(request, delegates).response != AbacusGenerate.OnRequest(request, delegates.abacusKey, delegates.abacusReply).outcome.response
    ensures Fetch(request, delegates).response != ModelTags.OnRequest(request, delegates.catalogue, delegates.thrown)
  {
    assert CorsHeaders[1].1 != AbacusGenerate.ResponseHeaders[1].1;
    assert CorsHeaders[1].1 != ModelTags.ResponseHeaders[1].1;
  }

  /** The tags path always answers, with the listing's default status for anything but a preflight. */
  lemma TagsAlwaysAnswers(request: Request, delegates: Delegates)
    requires request.pathname == "/api/tags"
    ensures Fetch(request, delegates).Returned?
    ensures Fetch(request, delegates).response.status == if request.httpMethod == "OPTIONS" then 204 else DefaultStatus
  {
  }
}
