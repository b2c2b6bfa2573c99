/**
 * The Worker handler behind `/api/tags`: the list of text-generation models,
 * read from the model catalogue Cloudflare publishes, with a fixed list to
 * fall back on whenever reading or processing the catalogue fails.
 */
module ModelTags {
  import opened Wrappers
  import opened JsValues
  import opened Http

  /** The CORS and content headers every response of this handler carries. */
  const ResponseHeaders: Headers := [
    ("Access-Control-Allow-Origin", "*"),
    ("Access-Control-Allow-Methods", "GET, OPTIONS"),
    ("Access-Control-Allow-Headers", "Content-Type"),
    ("Content-Type", "application/json")
  ]

  const CatalogueUrl: string :=
    "https://raw.githubusercontent.com/cloudflare/cloudflare-docs/production/content/workers-ai/models.json"

  /** The models offered when the catalogue cannot be used, in this order. */
  const FallbackNames: seq<string> := [
    "gpt-3.5-turbo",
    "gpt-4",
    "claude-2",
    "@cf/meta/llama-2-7b-chat-fp16",
    "@cf/mistral/mistral-7b-instruct-v0.1"
  ]

  const FallbackNotice: string := "Failed to fetch dynamic model list. Using fallback. Reason: "
  const NotOkNotice: string := "Failed to fetch model list: "

  /**
   * The catalogue fetch: it rejects with an error message, or it gives a
   * response with its `ok` flag, its status text and what `response.json()`
   * resolves to (None when that rejects).
   */
  datatype Catalogue = Rejected(message: string) | Fetched(ok: bool, statusText: string, data: Option<Json>)

  /** `model.type === "text-generation"` on an entry that is not null. */
  predicate IsTextGeneration(model: Json) {
    Get(Defined(model), "type") == Defined(JStr("text-generation"))
  }

  /** `({ name: model.name })`; the name is left out when the entry has none. */
  function NameOnly(model: Json): Json {
    ObjOf([("name", Get(Defined(model), "name"))])
  }

  /** `models.filter(IsTextGeneration)`. */
  function TextGeneration(models: seq<Json>): (r: seq<Json>)
    ensures |r| <= |models|
    decreases |models|
  {
    if |models| == 0 then []
    else
      var rest := TextGeneration(models[..|models| - 1]);
      if IsTextGeneration(models[|models| - 1]) then rest + [models[|models| - 1]] else rest
  }

  /** `models.map(NameOnly)`. */
  function Names(models: seq<Json>): (r: seq<Json>)
    ensures |r| == |models|
  {
    seq(|models|, k requires 0 <= k < |models| => NameOnly(models[k]))
  }

  /**
   * `modelData.filter(...).map(...)`. None when it throws: `filter` is only
   * defined on arrays, and reading `type` of a `null` entry is a TypeError.
   */
  function Listed(data: Json): (r: Option<seq<Json>>)
    ensures r.Some? <==> data.JArr? && forall k :: 0 <= k < |data.items| ==> data.items[k] != JNull
  {
    if data.JArr? && forall k :: 0 <= k < |data.items| ==> data.items[k] != JNull then
      Some(Names(TextGeneration(data.items)))
    else None
  }

  /** An entry is kept exactly when it is a text-generation model. */
  lemma {:induction false} TextGenerationMembers(models: seq<Json>, x: Json)
    ensures x in TextGeneration(models) <==> x in models && IsTextGeneration(x)
    decreases |models|
  {
    if |models| > 0 {
      var init := models[..|models| - 1];
      TextGenerationMembers(init, x);
      assert models == init + [models[|models| - 1]];
    }
  }

  /** The filter keeps the catalogue's order: filtering a concatenation concatenates. */
  lemma {:induction false} TextGenerationAppend(a: seq<Json>, b: seq<Json>)
    ensures TextGeneration(a + b) == TextGeneration(a) + TextGeneration(b)
    decreases |b|
  {
    if |b| == 0 {
      assert a + b == a;
    } else {
      var b' := b[..|b| - 1];
      assert (a + b)[..|a + b| - 1] == a + b';
      assert (a + b)[|a + b| - 1] == b[|b| - 1];
      TextGenerationAppend(a, b');
    }
  }

  /** The filter never adds entries. */
  lemma {:induction false} TextGenerationShrinks(models: seq<Json>)
    ensures |TextGeneration(models)| <= |models|
    decreases |models|
  {
    if |models| > 0 {
      TextGenerationShrinks(models[..|models| - 1]);
    }
  }

  /** `entry` is the `{ name }` of some text-generation model among `models`. */
  ghost predicate NamesTextGeneration(models: seq<Json>, entry: Json) {
    exists model :: model in models && IsTextGeneration(model) && entry == NameOnly(model)
  }

  /**
   * On a usable catalogue the list has no more entries than the catalogue,
   * and each of them is the name of a text-generation entry.
   */
  lemma ListedFromTextGeneration(data: Json)
    requires Listed(data).Some?
    ensures |Listed(data).value| <= |data.items|
    ensures forall k :: 0 <= k < |Listed(data).value| ==> NamesTextGeneration(data.items, Listed(data).value[k])
  {
    var kept := TextGeneration(data.items);
    TextGenerationShrinks(data.items);
    forall k | 0 <= k < |Listed(data).value| ensures NamesTextGeneration(data.items, Listed(data).value[k]) {
      assert kept[k] in kept;
      TextGenerationMembers(data.items, kept[k]);
      assert Listed(data).value[k] == NameOnly(kept[k]);
    }
  }

  /** `{ name }` for each fallback model. */
  function FallbackModels(): (r: seq<Json>)
    ensures |r| == |FallbackNames|
    ensures forall k :: 0 <= k < |r| ==> r[k] == JObj([("name", JStr(FallbackNames[k]))])
  {
    seq(|FallbackNames|, k requires 0 <= k < |FallbackNames| => JObj([("name", JStr(FallbackNames[k]))]))
  }

  /** The fallback answer: the fixed list and the reason it was used. */
  function FallbackBody(reason: string): Json {
    JObj([("models", JArr(FallbackModels())), ("error", JStr(FallbackNotice + reason))])
  }

  /**
   * Why the catalogue could not be used, None when it could. `thrown` is the
   * message of the runtime's own error (a parse failure or a TypeError), whose
   * text the engine decides.
   */
  function FailureReason(catalogue: Catalogue, thrown: string): (r: Option<string>)
    ensures r.None? <==> catalogue.Fetched? && catalogue.ok && catalogue.data.Some? && Listed(catalogue.data.value).Some?
    ensures catalogue.Rejected? ==> r == Some(catalogue.message)
    ensures catalogue.Fetched? && !catalogue.ok ==> r == Some(NotOkNotice + catalogue.statusText)
    // An ok answer that is not a list of entries makes `filter` or `map` throw.
    ensures catalogue.Fetched? && catalogue.ok && (catalogue.data.None? || Listed(catalogue.data.value).None?) ==>
      r == Some(thrown)
  {
    match catalogue
    case Rejected(message) => Some(message)
    case Fetched(ok, statusText, data) =>
      if !ok then Some(NotOkNotice + statusText)
      else if data.None? || Listed(data.value).None? then Some(thrown)
      else None
  }

  /** The handler, given the outcome of the catalogue fetch. */
  function OnRequest(request: Request, catalogue: Catalogue, thrown: string): (r: Response)
    ensures r.headers == ResponseHeaders
    ensures request.httpMethod == "OPTIONS" ==> r == Response(204, ResponseHeaders, NoBody)
    // Every other method gets a list with the default status, even when it is the fallback.
    ensures request.httpMethod != "OPTIONS" ==> r.status == DefaultStatus && r.body.JsonBody?
    ensures request.httpMethod != "OPTIONS" && FailureReason(catalogue, thrown).None? ==>
      r.body.json == JObj([("models", JArr(Listed(catalogue.data.value).value))])
    ensures request.httpMethod != "OPTIONS" && FailureReason(catalogue, thrown).Some? ==>
      r.body.json == FallbackBody(FailureReason(catalogue, thrown).value)
  {
    if request.httpMethod == "OPTIONS" then Response(204, ResponseHeaders, NoBody)
    else
      match FailureReason(catalogue, thrown)
      case None => Response(DefaultStatus, ResponseHeaders, JsonBody(JObj([("models", JArr(Listed(catalogue.data.value).value))])))
      case Some(reason) => Response(DefaultStatus, ResponseHeaders, JsonBody(FallbackBody(reason)))
  }

  /** The fallback answer lists the five fixed models in order and names its reason. */
  lemma FallbackAnswer(request: Request, catalogue: Catalogue, thrown: string)
    requires request.httpMethod != "OPTIONS" && FailureReason(catalogue, thrown).Some?
    ensures var body := OnRequest(request, catalogue, thrown).body.json;
      && Lookup(body.fields, "models") == Defined(JArr(FallbackModels()))
      && Lookup(body.fields, "error") == Defined(JStr(FallbackNotice + FailureReason(catalogue, thrown).value))
      && |FallbackModels()| == 5
      && FallbackModels()[0] == JObj([("name", JStr("gpt-3.5-turbo"))])
  {
  }
}
