/**
 * The HTTP values the edge handlers exchange, as far as the handlers look at
 * them: the method, the path and the parsed JSON body of a request, and the
 * status, headers and body of a response.
 */
module Http {
  import opened Wrappers
  import opened JsValues

  type Headers = seq<(string, string)>

  /**
   * An incoming request. `body` is what `request.json()` resolves to, None when
   * it rejects (the body is not JSON).
   */
  datatype Request = Request(httpMethod: string, pathname: string, body: Option<Json>)

  /**
   * A response body: none (`null`), a text, the JSON text of a value (its
   * printing is `JSON.stringify` and is left uninterpreted), or a re-framed
   * stream of lines, which ends in an error when `failed` is set.
   */
  datatype Body =
    | NoBody
    | TextBody(text: string)
    | JsonBody(json: Json)
    | LinesBody(lines: seq<string>, failed: bool)

  datatype Response = Response(status: int, headers: Headers, body: Body)

  /** What a handler does with a request: it returns a response, or throws. */
  datatype Outcome = Returned(response: Response) | Threw

  /** The status `new Response(body, {headers})` gets when none is given. */
  const DefaultStatus: int := 200

  /** The value of a header, by exact name. */
  function HeaderValue(headers: Headers, name: string): Option<string>
    decreases |headers|
  {
    if |headers| == 0 then None
    else if headers[0].0 == name then Some(headers[0].1)
    else HeaderValue(headers[1..], name)
  }
}
