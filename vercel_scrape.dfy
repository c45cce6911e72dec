/** The serverless `handler` of api/scrape.ts: the same pipeline as the
    Express route with looser rules. It answers OPTIONS itself, prunes a
    narrower noise list, takes the first non-empty inner HTML of article,
    main and body, and sends whatever turndown produces with status 200.
    It has no status, redirect or length checks, and passes the transport
    error text through unchanged. */
module VercelScrape {
  import opened Common
  import opened Dom
  import opened Http
  import ServerRoutes
  import Markdown

  /** `res.status(200).end()`. */
  const PreflightReply: Reply := Reply(200, NoBody)
  const MissingUrlReply: Reply := Reply(400, Json("Missing URL", None))
  const InvalidUrlReply: Reply := Reply(400, Json("Invalid URL", None))
  const FetchFailedTitle: string := "Fetch failed"

  /** `$("script, style, iframe, nav, header, footer").remove()`. */
  const VercelNoise: NoiseList := NoiseList({"script", "style", "iframe", "nav", "header", "footer"}, {})

  /** The client the handler fetches with: none for OPTIONS or a rejected
      URL, otherwise chosen by the raw string's prefix. */
  function ClientUsed(httpMethod: string, url: Option<string>, parsesAsUrl: string -> bool): (c: Option<Client>)
    ensures c.Some? <==> httpMethod != "OPTIONS" && Truthy(url) && parsesAsUrl(url.value)
    ensures c.Some? ==> (c.value == HttpsClient <==> StartsWith(url.value, "https"))
  {
    if httpMethod == "OPTIONS" || !Truthy(url) || !parsesAsUrl(url.value) then None
    else Some(ClientFor(url.value))
  }

  /** `$("article").html() || $("main").html() || $("body").html() || ""`. */
  function Content(rt: Runtime, doc: seq<Node>): string {
    OrElse(InnerHtmlOfFirst(rt, doc, Tag("article")),
      OrElse(InnerHtmlOfFirst(rt, doc, Tag("main")),
        OrElse(InnerHtmlOfFirst(rt, doc, Tag("body")), "")))
  }

  /** Reference reading of an `||` chain: the first truthy candidate, else
      "". */
  function FirstNonEmpty(candidates: seq<Option<string>>): (r: string)
    ensures r == "" || exists i :: 0 <= i < |candidates| && candidates[i] == Some(r)
  {
    if candidates == [] then ""
    else if Truthy(candidates[0]) then candidates[0].value
    else FirstNonEmpty(candidates[1..])
  }

  /** The candidate chosen is the first truthy one. */
  lemma {:induction false} FirstNonEmptyPicksFirst(candidates: seq<Option<string>>, i: nat)
    requires i < |candidates| && Truthy(candidates[i])
    requires forall j :: 0 <= j < i ==> !Truthy(candidates[j])
    ensures FirstNonEmpty(candidates) == candidates[i].value
  {
    if i > 0 {
      assert !Truthy(candidates[0]);
      assert forall j :: 0 <= j < i - 1 ==> candidates[1..][j] == candidates[j + 1];
      FirstNonEmptyPicksFirst(candidates[1..], i - 1);
    }
  }

  /** With no truthy candidate the chain ends in "". */
  lemma {:induction false} FirstNonEmptyNone(candidates: seq<Option<string>>)
    requires forall j :: 0 <= j < |candidates| ==> !Truthy(candidates[j])
    ensures FirstNonEmpty(candidates) == ""
  {
    if candidates != [] {
      assert !Truthy(candidates[0]);
      assert forall j :: 0 <= j < |candidates| - 1 ==> candidates[1..][j] == candidates[j + 1];
      FirstNonEmptyNone(candidates[1..]);
    }
  }

  /** The inner HTML of each selector's first match, in the chain's order. */
  function Candidates(rt: Runtime, doc: seq<Node>): seq<Option<string>> {
    [InnerHtmlOfFirst(rt, doc, Tag("article")),
     InnerHtmlOfFirst(rt, doc, Tag("main")),
     InnerHtmlOfFirst(rt, doc, Tag("body"))]
  }

  lemma FirstNonEmptyCons(c: Option<string>, rest: seq<Option<string>>)
    ensures FirstNonEmpty([c] + rest) == OrElse(c, FirstNonEmpty(rest))
  {
    assert ([c] + rest)[0] == c && ([c] + rest)[1..] == rest;
  }

  /** The chain takes the first candidate whose first match exists and has
      non-empty inner HTML; it never falls back to the raw page. */
  lemma ContentIsFirstNonEmpty(rt: Runtime, doc: seq<Node>)
    ensures Content(rt, doc) == FirstNonEmpty(Candidates(rt, doc))
  {
    var cs := Candidates(rt, doc);
    assert cs == [cs[0]] + ([cs[1]] + ([cs[2]] + []));
    FirstNonEmptyCons(cs[2], []);
    FirstNonEmptyCons(cs[1], [cs[2]] + []);
    FirstNonEmptyCons(cs[0], [cs[1]] + ([cs[2]] + []));
  }

  /** An article whose inner HTML is empty does not stop the chain: unlike
      the server route, the main element's text is used. */
  lemma EmptyArticleFallsThrough(rt: Runtime, doc: seq<Node>, raw: string)
    requires FirstMatch(doc, Tag("article")).Some?
    requires rt.innerHtml(FirstMatch(doc, Tag("article")).value.children) == ""
    requires FirstMatch(doc, Tag("main")).Some?
    requires rt.innerHtml(FirstMatch(doc, Tag("main")).value.children) != ""
    ensures Content(rt, doc) == rt.innerHtml(FirstMatch(doc, Tag("main")).value.children)
    ensures ServerRoutes.SelectByPriority(rt, doc, raw) == ""
    ensures Content(rt, doc) != ServerRoutes.SelectByPriority(rt, doc, raw)
  {
    ServerRoutes.ServerPriorityInOrder(doc);
  }

  /** With nothing non-empty to take, the content is "", never the raw
      page. */
  lemma NoRawFallback(rt: Runtime, doc: seq<Node>)
    requires forall i :: 0 <= i < |Candidates(rt, doc)| ==> !Truthy(Candidates(rt, doc)[i])
    ensures Content(rt, doc) == ""
  {
    ContentIsFirstNonEmpty(rt, doc);
    FirstNonEmptyNone(Candidates(rt, doc));
  }

  /** The handler, from the request to what it writes, with the client it
      fetched with (None: no request was made). An exception from turndown
      inside the `end` listener escapes (the handler writes no reply), and
      with no timer a stalled socket gets no reply from the handler either. */
  function Handler(rt: Runtime, httpMethod: string, url: Option<string>, upstream: Upstream): (o: (Reply, Option<Client>))
    ensures o.1 == ClientUsed(httpMethod, url, rt.parsesAsUrl)
    ensures httpMethod == "OPTIONS" ==> o.0 == PreflightReply
    ensures httpMethod != "OPTIONS" && !Truthy(url) ==> o.0 == MissingUrlReply
    ensures httpMethod != "OPTIONS" && Truthy(url) && !rt.parsesAsUrl(url.value) ==> o.0 == InvalidUrlReply
    ensures o.1.Some? && upstream.Failed? ==>
      o.0 == Reply(500, Json(FetchFailedTitle, Some(upstream.message)))
    ensures o.1.Some? && upstream.Stalled? ==> o.0 == NoReply
    ensures o.1.Some? && upstream.Responded? ==>
      var md := rt.turndown(Content(rt, Prune(rt.load(upstream.body), VercelNoise)));
      (md.None? ==> o.0 == NoReply) && (md.Some? ==> o.0 == Reply(200, TextBody(None, md.value)))
  {
    if httpMethod == "OPTIONS" then (PreflightReply, None)
    else if !Truthy(url) then (MissingUrlReply, None)
    else if !rt.parsesAsUrl(url.value) then (InvalidUrlReply, None)
    else
      var reply :=
        (match upstream
         case Responded(_, _, _, html) =>
           (match rt.turndown(Content(rt, Prune(rt.load(html), VercelNoise)))
            case Some(markdown) => Reply(200, TextBody(None, markdown))
            case None => NoReply)
         case Failed(message) => Reply(500, Json(FetchFailedTitle, Some(message)))
         case Stalled => NoReply);
      (reply, Some(ClientFor(url.value)))
  }

  /** The reply depends on the response body only: status, status message
      and Location header are never looked at. */
  lemma StatusIsIgnored(rt: Runtime, httpMethod: string, url: Option<string>,
                        s1: Option<nat>, m1: Option<string>, l1: Option<string>,
                        s2: Option<nat>, m2: Option<string>, l2: Option<string>, body: string)
    ensures Handler(rt, httpMethod, url, Responded(s1, m1, l1, body))
         == Handler(rt, httpMethod, url, Responded(s2, m2, l2, body))
  {
  }

  /** Every reply, whatever the upstream status, is 200 or none; in
      particular a redirect is followed by nothing and a 404 page's text is
      sent as content. */
  lemma EveryResponseIsOk(rt: Runtime, url: string, status: Option<nat>, location: Option<string>, body: string)
    requires url != "" && rt.parsesAsUrl(url)
    ensures var r := Handler(rt, "GET", Some(url), Responded(status, None, location, body)).0;
      r == NoReply || r.status == 200
  {
  }

  /** No length gate and no clean-up: a conversion too short for the server
      route, which answers 422 for it, is sent here as it is. */
  lemma ShortMarkdownIsSent(rt: Runtime, url: string, html: string, markdown: string)
    requires url != "" && rt.parsesAsUrl(url)
    requires rt.turndown(Content(rt, Prune(rt.load(html), VercelNoise))) == Some(markdown)
    requires Utf16Length(Markdown.Clean(markdown)) < ServerRoutes.MinContentLength
    ensures Handler(rt, "GET", Some(url), Responded(Some(200), None, None, html)).0 == Reply(200, TextBody(None, markdown))
    ensures ServerRoutes.QualityGate(Markdown.Clean(markdown)) == ServerRoutes.NoContentReply
  {
  }

  /** The server's noise list includes this one, so pruning here and then
      with the server's list is the same as the server's pruning alone. */
  lemma ServerPrunesAtLeastAsMuch(doc: seq<Node>)
    ensures Prune(Prune(doc, VercelNoise), ServerRoutes.ServerNoise) == Prune(doc, ServerRoutes.ServerNoise)
  {
    PruneCompose(doc, VercelNoise, ServerRoutes.ServerNoise);
    assert Union(VercelNoise, ServerRoutes.ServerNoise) == ServerRoutes.ServerNoise;
  }

  /** Link, meta, noscript, svg, aside and the advertising, social-share and
      comment classes survive here while the server removes them. */
  lemma NarrowerNoiseList(tag: string, classes: set<string>)
    requires tag !in VercelNoise.tags
    requires tag in ServerRoutes.ServerNoise.tags || classes * ServerRoutes.ServerNoise.classes != {}
    ensures Prune([Element(tag, classes, [])], VercelNoise) == [Element(tag, classes, [])]
    ensures Prune([Element(tag, classes, [])], ServerRoutes.ServerNoise) == []
  {
    var n := Element(tag, classes, []);
    assert [n][1..] == [];
    assert Prune([n], VercelNoise) == PruneNode(n, VercelNoise) + Prune([], VercelNoise);
  }
}
