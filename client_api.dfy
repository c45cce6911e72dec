/** The browser side of the scrape call (client/src/lib/api.ts): the
    `scrapeUrl` request path and the decision, on the reply's content type,
    between returning the markdown and throwing the server's error. */
module ClientApi {
  import opened Common
  import opened Http
  import ServerRoutes
  import VercelScrape

  const ScrapePathPrefix: string := "/api/scrape?url="
  const JsonMarker: string := "application/json"
  const UnknownError: string := "Unknown error occurred"

  /** `/api/scrape?url=${encodeURIComponent(url)}`, with the encoder given. */
  function RequestPath(url: string, encode: string -> string): (p: string)
    ensures StartsWith(p, ScrapePathPrefix)
    ensures p[|ScrapePathPrefix|..] == encode(url)
  {
    ScrapePathPrefix + encode(url)
  }

  /** The two fields of the error object the client reads (None: the
      property is undefined, as it is for a body holding a number, a string
      or an array). */
  datatype ErrorData = ErrorData(message: Option<string>, error: Option<string>)

  /** The reply as `fetch` exposes it: the `content-type` header (None:
      absent), the body text, and what reading `errorData` from
      `response.json()` yields (None: the body is not JSON at all, or is
      `null`, and reading it rejects). */
  datatype Response = Response(contentType: Option<string>, text: string, json: Option<ErrorData>)

  /** How `scrapeUrl` settles: it resolves to the text, rejects with an
      `Error` carrying the message, or rejects with the parser's syntax
      error (or the type error of reading a property of `null`). */
  datatype Outcome = Returned(text: string) | Threw(message: string) | BadJson

  /** `contentType && contentType.includes('application/json')`. */
  predicate IsJsonReply(contentType: Option<string>) {
    Truthy(contentType) && Contains(contentType.value, JsonMarker)
  }

  /** `errorData.message || errorData.error || 'Unknown error occurred'`. */
  function ErrorMessage(data: ErrorData): (m: string)
    ensures m != ""
    ensures Truthy(data.message) ==> m == data.message.value
    ensures !Truthy(data.message) && Truthy(data.error) ==> m == data.error.value
    ensures !Truthy(data.message) && !Truthy(data.error) ==> m == UnknownError
  {
    OrElse(data.message, OrElse(data.error, UnknownError))
  }

  /** The decision on the content type. */
  function Decode(response: Response): (o: Outcome)
    ensures o.Returned? <==> !IsJsonReply(response.contentType)
    ensures o.Returned? ==> o.text == response.text
    ensures IsJsonReply(response.contentType) && response.json.Some? ==>
      o == Threw(ErrorMessage(response.json.value))
    ensures IsJsonReply(response.contentType) && response.json.None? ==> o == BadJson
  {
    if IsJsonReply(response.contentType) then
      match response.json
      case Some(data) => Threw(ErrorMessage(data))
      case None => BadJson
    else Returned(response.text)
  }

  /** `scrapeUrl`: a GET of the request path, then the decision. The
      transport (`apiRequest` and what answers it) is the `respond`
      parameter. */
  function ScrapeUrl(url: string, encode: string -> string, respond: string -> Response): (o: Outcome)
    ensures o == Decode(respond(ScrapePathPrefix + encode(url)))
  {
    Decode(respond(RequestPath(url, encode)))
  }

  /** The JSON marker is found anywhere in the header, parameters and all. */
  lemma JsonWithCharsetIsJson()
    ensures IsJsonReply(Some(JsonContentType))
    ensures !IsJsonReply(Some(PlainTextContentType))
    ensures !IsJsonReply(None)
  {
    assert OccursAt(JsonContentType, JsonMarker, 0);
    NoJsonMarkerInPlainText();
  }

  lemma NoJsonMarkerInPlainText()
    ensures !Contains(PlainTextContentType, JsonMarker)
  {
    forall i | 0 <= i <= |PlainTextContentType| - |JsonMarker|
      ensures !OccursAt(PlainTextContentType, JsonMarker, i)
    {
      NoJsonMarkerAt(i);
    }
  }

  lemma NoJsonMarkerAt(i: int)
    ensures !OccursAt(PlainTextContentType, JsonMarker, i)
  {
    if 0 <= i && i + |JsonMarker| <= |PlainTextContentType| {
      var w := PlainTextContentType[i..i + |JsonMarker|];
      assert w[0] == PlainTextContentType[i] && w[1] == PlainTextContentType[i + 1];
    }
  }

  /** What reaching the client means for a reply: its content type, no text
      for a bodiless reply, no text and nothing to parse for an emptied one,
      its text for a text body, and for a JSON body the object with its two
      fields. */
  ghost predicate Carries(response: Response, reply: Reply) {
    reply.Reply? && response.contentType == ContentType(reply.body)
    && (reply.body.NoBody? ==> response.text == "")
    && (reply.body.Emptied? ==> response.text == "" && response.json == None)
    && (reply.body.TextBody? ==> response.text == reply.body.text)
    && (reply.body.Json? ==> response.json == Some(ErrorData(reply.body.message, Some(reply.body.error))))
  }

  /** Against the server route: the client resolves with the markdown on a
      200 reply and with "" on a bodiless 204 or 304; on a 205 `response.json()`
      rejects on the empty body; otherwise it throws the reply's message. */
  lemma ServerRepliesDecode(reply: Reply, response: Response)
    requires ServerRoutes.WellFormedReply(reply) && Carries(response, reply)
    ensures Decode(response).Returned? <==> reply.status == 200 || reply.status == 204 || reply.status == 304
    ensures reply.status == 200 ==> Decode(response) == Returned(reply.body.text)
    ensures reply.status == 204 || reply.status == 304 ==> Decode(response) == Returned("")
    ensures reply.status == 205 ==> Decode(response) == BadJson
    ensures reply.status != 200 && reply.status != 204 && reply.status != 205 && reply.status != 304 ==>
      Decode(response) == Threw(reply.body.message.value)
  {
    JsonWithCharsetIsJson();
  }

  /** An upstream 204, or a 304 without Location, is echoed with its status
      but without the error object: the client resolves with "" as if the
      page had converted to empty markdown. */
  lemma UpstreamNoContentReadsAsEmpty(rt: Runtime, url: string, code: nat, statusMessage: Option<string>,
                                      location: Option<string>, html: string, response: Response)
    requires url != "" && rt.parsesAsUrl(url)
    requires code == 204 || (code == 304 && !Truthy(location))
    requires Carries(response, ServerRoutes.ScrapeOutcome(rt, Some(url), Responded(Some(code), statusMessage, location, html)).0)
    ensures ServerRoutes.ScrapeOutcome(rt, Some(url), Responded(Some(code), statusMessage, location, html)).0 == Reply(code, NoBody)
    ensures Decode(response) == Returned("")
  {
  }

  /** An upstream 205 is echoed with the JSON content type but no body: the
      client's `response.json()` rejects, so neither the markdown nor the
      server's message reaches the caller. */
  lemma UpstreamResetContentRejects(rt: Runtime, url: string, statusMessage: Option<string>,
                                    location: Option<string>, html: string, response: Response)
    requires url != "" && rt.parsesAsUrl(url)
    requires Carries(response, ServerRoutes.ScrapeOutcome(rt, Some(url), Responded(Some(205), statusMessage, location, html)).0)
    ensures ServerRoutes.ScrapeOutcome(rt, Some(url), Responded(Some(205), statusMessage, location, html)).0
      == Reply(205, Emptied(JsonContentType))
    ensures Decode(response) == BadJson
  {
    JsonWithCharsetIsJson();
  }

  /** Against the serverless handler: its errors carry no message, so the
      error title is thrown; a transport error with an empty text throws
      the title as well. */
  lemma VercelErrorsDecode(response: Response, message: string)
    ensures Carries(response, VercelScrape.MissingUrlReply) ==> Decode(response) == Threw("Missing URL")
    ensures Carries(response, VercelScrape.InvalidUrlReply) ==> Decode(response) == Threw("Invalid URL")
    ensures Carries(response, Reply(500, Json(VercelScrape.FetchFailedTitle, Some(message)))) ==>
      Decode(response) == Threw(if message != "" then message else VercelScrape.FetchFailedTitle)
  {
    JsonWithCharsetIsJson();
  }

  /** Every reply the serverless handler sends, as the client reads it: a
      200 resolves with its text (with "" for the bodiless preflight), and
      every other status throws the message, or the error title when the
      message is absent or empty. */
  lemma VercelRepliesDecode(rt: Runtime, httpMethod: string, url: Option<string>, upstream: Upstream, response: Response)
    requires Carries(response, VercelScrape.Handler(rt, httpMethod, url, upstream).0)
    ensures var r := VercelScrape.Handler(rt, httpMethod, url, upstream).0;
      Decode(response) ==
        if r.status == 200 then Returned(if r.body.TextBody? then r.body.text else "")
        else Threw(OrElse(r.body.message, r.body.error))
  {
    JsonWithCharsetIsJson();
  }
}
