/** What the handlers receive and send: the upstream outcome of the GET, the
    reply written to the caller, the client module chosen for the fetch, and
    the foreign collaborators (URL parser, HTML parser, serialiser,
    markdown converter) the handlers call. */
module Http {
  import opened Common
  import opened Dom

  /** Node's `http` or `https` module. */
  datatype Client = HttpClient | HttpsClient

  /** `targetUrl.startsWith("https") ? https : http`: a case-sensitive test
      of the raw string, not of the parsed scheme. */
  function ClientFor(url: string): (c: Client)
    ensures c == HttpsClient <==> StartsWith(url, "https")
    ensures c == HttpClient <==> !StartsWith(url, "https")
  {
    if StartsWith(url, "https") then HttpsClient else HttpClient
  }

  /** The test is on the raw string: the scheme's case matters, and
      anything after the five letters is irrelevant. */
  lemma ClientForExamples()
    ensures ClientFor("https://example.com") == HttpsClient
    ensures ClientFor("http://example.com") == HttpClient
    ensures ClientFor("HTTPS://example.com") == HttpClient
    ensures ClientFor("httpsx:") == HttpsClient
    ensures ClientFor("") == HttpClient
  {
    assert "http://example.com"[..5] == "http:";
    assert "HTTPS://example.com"[..5] == "HTTPS";
  }

  /** The content type `res.json` writes. */
  const JsonContentType: string := "application/json; charset=utf-8"
  /** The content type the server sets for markdown, and that Express's
      `sendStatus` writes. */
  const PlainTextContentType: string := "text/plain; charset=utf-8"

  /** A response body: none, an emptied body under a content type that is
      still sent, text with the content type the handler set (None: the
      handler set none), or the `{error, message}` JSON object (message
      None: the key is absent). */
  datatype Body =
    | NoBody
    | Emptied(emptiedType: string)
    | TextBody(contentType: Option<string>, text: string)
    | Json(error: string, message: Option<string>)

  /** What the handler writes, or `NoReply` when it writes nothing (an
      exception escaped it, or it waits for an event that never comes). */
  datatype Reply = Reply(status: nat, body: Body) | NoReply

  /** `res.status(code).json({error, message})` as it reaches the caller:
      for a 204 or a 304 `res.send` drops the body and the content type; a
      205 keeps the JSON content type, but its body is emptied (`res.send`
      empties it, and `fetch` exposes no body for a 205 in any case). Only
      other codes carry the object. */
  function JsonReply(code: nat, error: string, message: Option<string>): (r: Reply)
    ensures r.Reply? && r.status == code
    ensures r.body == NoBody <==> code == 204 || code == 304
    ensures r.body == Emptied(JsonContentType) <==> code == 205
    ensures r.body.Json? <==> code != 204 && code != 205 && code != 304
    ensures r.body.Json? ==> r.body == Json(error, message)
  {
    if code == 204 || code == 304 then Reply(code, NoBody)
    else if code == 205 then Reply(code, Emptied(JsonContentType))
    else Reply(code, Json(error, message))
  }

  function ContentType(b: Body): Option<string> {
    match b
    case NoBody => None
    case Emptied(ct) => Some(ct)
    case TextBody(ct, _) => ct
    case Json(_, _) => Some(JsonContentType)
  }

  /** How the GET ended: a response arrived (status code, status message and
      `Location` header as the HTTP client reports them, and the body read
      to its end and decoded), the request emitted `error`, or the socket
      stayed idle until the request's timeout. */
  datatype Upstream =
    | Responded(status: Option<nat>, statusMessage: Option<string>, location: Option<string>, body: string)
    | Failed(message: string)
    | Stalled

  /** The foreign code both handlers call: `new URL(s)` succeeding,
      `cheerio.load` (parsing never fails), `.html()` on an element (the
      serialisation of its children) and `turndown.turndown` (None: it
      threw). */
  datatype Runtime = Runtime(
    parsesAsUrl: string -> bool,
    load: string -> seq<Node>,
    innerHtml: seq<Node> -> string,
    turndown: string -> Option<string>)

  /** `$(sel).first().html()` after pruning: None when nothing matches. */
  function InnerHtmlOfFirst(rt: Runtime, doc: seq<Node>, sel: Selector): Option<string> {
    match FirstMatch(doc, sel)
    case Some(e) => Some(rt.innerHtml(e.children))
    case None => None
  }
}
