/** The Express server's CORS middleware and its `GET /api/scrape` handler
    (server/routes.ts): the request gate, the upstream status and transport
    error classification, noise pruning, content selection, post-processing
    and the content-length gate. */
module ServerRoutes {
  import opened Common
  import opened Dom
  import opened Http
  import Markdown

  // ---------------------------------------------------------------------
  // CORS middleware and routing

  datatype Route = Preflight | ScrapeRoute | OtherRoute

  /** The middleware answers every OPTIONS request itself; the scrape route
      is registered with `app.get`, which Express also uses for HEAD. */
  function RouteFor(httpMethod: string): (r: Route)
    ensures r == Preflight <==> httpMethod == "OPTIONS"
    ensures r == ScrapeRoute <==> httpMethod == "GET" || httpMethod == "HEAD"
  {
    if httpMethod == "OPTIONS" then Preflight
    else if httpMethod == "GET" || httpMethod == "HEAD" then ScrapeRoute
    else OtherRoute
  }

  /** `res.sendStatus(200)`: Express writes the status text as a plain-text
      body. */
  const PreflightReply: Reply := Reply(200, TextBody(Some(PlainTextContentType), "OK"))

  // ---------------------------------------------------------------------
  // The request gate

  const MissingUrlReply: Reply :=
    Reply(400, Json("Missing URL parameter", Some("Please provide a 'url' query parameter")))
  const InvalidUrlReply: Reply :=
    Reply(400, Json("Invalid URL", Some("Please provide a valid URL starting with http:// or https://")))

  datatype Gate = Refuse(reply: Reply) | Fetch(target: string)

  /** `!targetUrl` first, then `new URL(targetUrl)`. */
  function CheckUrl(url: Option<string>, parsesAsUrl: string -> bool): (g: Gate)
    ensures g == Refuse(MissingUrlReply) <==> !Truthy(url)
    ensures g == Refuse(InvalidUrlReply) <==> Truthy(url) && !parsesAsUrl(url.value)
    ensures g.Fetch? <==> Truthy(url) && parsesAsUrl(url.value)
    ensures g.Fetch? ==> g.target == url.value
  {
    if !Truthy(url) then Refuse(MissingUrlReply)
    else if !parsesAsUrl(url.value) then Refuse(InvalidUrlReply)
    else Fetch(url.value)
  }

  /** The missing check comes first: an empty parameter is reported missing
      whatever the URL parser would say of it. */
  lemma MissingBeforeInvalid(parsesAsUrl: string -> bool)
    ensures CheckUrl(Some(""), parsesAsUrl) == Refuse(MissingUrlReply)
    ensures CheckUrl(None, parsesAsUrl) == Refuse(MissingUrlReply)
  {
  }

  // ---------------------------------------------------------------------
  // The upstream status

  const RedirectReply: Reply :=
    Reply(400, Json("Redirect detected", Some("Please use the final URL after redirects")))
  const FetchFailedMessage: string := "Failed to fetch the webpage"

  /** `response.statusCode && …`: an absent or zero status is falsy. */
  predicate TruthyStatus(status: Option<nat>) {
    status.Some? && status.value != 0
  }

  predicate IsRedirect(status: Option<nat>, location: Option<string>) {
    TruthyStatus(status) && 300 <= status.value < 400 && Truthy(location)
  }

  datatype StatusVerdict = ReadBody | Reject(reply: Reply)

  /** The two checks on the response before its body is read. An echoed 204,
      or a 304 without Location, goes out without its error object, and an
      echoed 205 with its content type but an empty body. */
  function CheckStatus(status: Option<nat>, statusMessage: Option<string>, location: Option<string>): (v: StatusVerdict)
    ensures v == ReadBody <==> !TruthyStatus(status) || status.value == 200
    ensures IsRedirect(status, location) ==> v == Reject(RedirectReply)
    ensures TruthyStatus(status) && status.value != 200 && !IsRedirect(status, location) ==>
      v == Reject(JsonReply(status.value, "HTTP " + Decimal(status.value), Some(OrElse(statusMessage, FetchFailedMessage))))
    ensures status == Some(204) || (status == Some(304) && !Truthy(location)) ==>
      v == Reject(Reply(status.value, NoBody))
    ensures status == Some(205) ==> v == Reject(Reply(205, Emptied(JsonContentType)))
  {
    if IsRedirect(status, location) then Reject(RedirectReply)
    else if TruthyStatus(status) && status.value != 200 then
      Reject(JsonReply(status.value, "HTTP " + Decimal(status.value), Some(OrElse(statusMessage, FetchFailedMessage))))
    else ReadBody
  }

  /** Any other present status is passed through: the reply carries the
      upstream code; unless the code is 204, 205 or 304, whose body is lost,
      the error text names that code in decimal. */
  lemma RejectionEchoesStatus(code: nat, statusMessage: Option<string>, location: Option<string>)
    requires code != 0 && code != 200 && !IsRedirect(Some(code), location)
    ensures var v := CheckStatus(Some(code), statusMessage, location);
      v.Reject? && v.reply.status == code
      && (v.reply.body.NoBody? <==> code == 204 || code == 304)
      && (v.reply.body.Emptied? <==> code == 205)
      && (v.reply.body.Json? <==> code != 204 && code != 205 && code != 304)
      && (v.reply.body.Json? ==>
        StartsWith(v.reply.body.error, "HTTP ")
        && var digits := v.reply.body.error[5..];
           (forall k :: 0 <= k < |digits| ==> '0' <= digits[k] <= '9') && DigitsValue(digits) == code)
  {
    var v := CheckStatus(Some(code), statusMessage, location);
    if v.reply.body.Json? {
      assert v.reply.body.error[5..] == Decimal(code);
      DecimalRoundTrip(code);
    }
  }

  /** 2xx codes other than 200 are errors too, and 204 and 205 lose their
      body; a 3xx without a Location header is echoed like any other code. */
  lemma OnlyTwoHundredIsRead(location: Option<string>)
    ensures CheckStatus(Some(201), None, location).Reject?
    ensures CheckStatus(Some(204), None, location) == Reject(Reply(204, NoBody))
    ensures CheckStatus(Some(205), None, location) == Reject(Reply(205, Emptied(JsonContentType)))
    ensures CheckStatus(Some(304), None, None) == Reject(Reply(304, NoBody))
    ensures CheckStatus(Some(302), None, None) ==
      Reject(Reply(302, Json("HTTP 302", Some(FetchFailedMessage))))
    ensures CheckStatus(Some(302), None, Some("https://other")) == Reject(RedirectReply)
  {
    DecimalOf302();
    assert "HTTP " + "302" == "HTTP 302";
  }

  lemma DecimalOf302()
    ensures Decimal(302) == "302"
  {
    assert Decimal(3) == "3";
    assert Decimal(30) == "3" + "0";
    assert Decimal(302) == "30" + "2";
  }

  // ---------------------------------------------------------------------
  // Transport errors

  const NetworkErrorTitle: string := "Network error"
  const TimeoutReply: Reply :=
    Reply(408, Json("Request timeout", Some("The request took too long to complete. Please try again.")))

  /** The hint table, in the order the handler tests it: a fragment of the
      error text and the message shown for it. */
  const TransportHints: seq<(string, string)> := [
    ("ENOTFOUND", "Domain not found. Please check the URL is correct."),
    ("ECONNREFUSED", "Connection refused. The server may be down."),
    ("ETIMEDOUT", "Request timed out. The server is taking too long to respond."),
    ("certificate", "SSL certificate error. The site may have security issues.")
  ]

  /** Reference reading of the classification: the first row of the table
      whose fragment occurs in the error text, else the default. */
  function FirstHint(text: string, hints: seq<(string, string)>): string {
    if hints == [] then FetchFailedMessage
    else if Contains(text, hints[0].0) then hints[0].1
    else FirstHint(text, hints[1..])
  }

  /** The row chosen is the first matching one. */
  lemma {:induction false} FirstHintPicksFirstMatch(text: string, hints: seq<(string, string)>, i: nat)
    requires i < |hints| && Contains(text, hints[i].0)
    requires forall j :: 0 <= j < i ==> !Contains(text, hints[j].0)
    ensures FirstHint(text, hints) == hints[i].1
  {
    if i > 0 {
      assert !Contains(text, hints[0].0);
      assert forall j :: 0 <= j < i - 1 ==> hints[1..][j] == hints[j + 1];
      FirstHintPicksFirstMatch(text, hints[1..], i - 1);
    }
  }

  /** With no fragment present the default message is used. */
  lemma {:induction false} FirstHintDefault(text: string, hints: seq<(string, string)>)
    requires forall j :: 0 <= j < |hints| ==> !Contains(text, hints[j].0)
    ensures FirstHint(text, hints) == FetchFailedMessage
  {
    if hints != [] {
      assert !Contains(text, hints[0].0);
      assert forall j :: 0 <= j < |hints| - 1 ==> hints[1..][j] == hints[j + 1];
      FirstHintDefault(text, hints[1..]);
    }
  }

  /** `let errorMessage = …` followed by the if/else chain over
      `error.message.includes(…)`. */
  method TransportErrorMessage(text: string) returns (errorMessage: string)
    ensures errorMessage == FirstHint(text, TransportHints)
  {
    errorMessage := FetchFailedMessage;
    if Contains(text, "ENOTFOUND") {
      errorMessage := "Domain not found. Please check the URL is correct.";
      FirstHintPicksFirstMatch(text, TransportHints, 0);
    } else if Contains(text, "ECONNREFUSED") {
      errorMessage := "Connection refused. The server may be down.";
      FirstHintPicksFirstMatch(text, TransportHints, 1);
    } else if Contains(text, "ETIMEDOUT") {
      errorMessage := "Request timed out. The server is taking too long to respond.";
      FirstHintPicksFirstMatch(text, TransportHints, 2);
    } else if Contains(text, "certificate") {
      errorMessage := "SSL certificate error. The site may have security issues.";
      FirstHintPicksFirstMatch(text, TransportHints, 3);
    } else {
      FirstHintDefault(text, TransportHints);
    }
  }

  /** An error text holding two fragments gets the earlier row's message,
      wherever the fragments stand in the text. */
  lemma EarlierRowWins(text: string)
    requires !Contains(text, "ENOTFOUND")
    requires Contains(text, "certificate") && Contains(text, "ECONNREFUSED")
    ensures FirstHint(text, TransportHints) == "Connection refused. The server may be down."
  {
    FirstHintPicksFirstMatch(text, TransportHints, 1);
  }

  // ---------------------------------------------------------------------
  // Content selection

  const ServerNoise: NoiseList := NoiseList(
    {"script", "style", "link", "meta", "noscript", "iframe", "svg", "nav", "aside", "header", "footer"},
    {"advertisement", "ads", "social-share", "comments"})

  const ContentClasses: Selector := AnyClass({"content", "post-content", "entry-content"})

  /** The selector priority the if/else chain encodes. */
  const ServerPriority: seq<Selector> := [Tag("article"), Tag("main"), ContentClasses]

  /** The first selector of the list that matches anything decides, and its
      first match in document order is taken. */
  function FirstBySelectors(doc: seq<Node>, sels: seq<Selector>): (r: Option<Node>)
    ensures r.Some? ==> r.value.Element?
  {
    if sels == [] then None
    else match FirstMatch(doc, sels[0])
      case Some(e) => Some(e)
      case None => FirstBySelectors(doc, sels[1..])
  }

  lemma ServerPriorityInOrder(doc: seq<Node>)
    ensures FirstBySelectors(doc, ServerPriority) ==
      if FirstMatch(doc, Tag("article")).Some? then FirstMatch(doc, Tag("article"))
      else if FirstMatch(doc, Tag("main")).Some? then FirstMatch(doc, Tag("main"))
      else FirstMatch(doc, ContentClasses)
  {
    assert ServerPriority == [Tag("article")] + [Tag("main"), ContentClasses];
    FirstBySelectorsCons(doc, Tag("article"), [Tag("main"), ContentClasses]);
    assert [Tag("main"), ContentClasses] == [Tag("main")] + [ContentClasses];
    FirstBySelectorsCons(doc, Tag("main"), [ContentClasses]);
    assert [ContentClasses] == [ContentClasses] + [];
    FirstBySelectorsCons(doc, ContentClasses, []);
  }

  lemma FirstBySelectorsCons(doc: seq<Node>, sel: Selector, rest: seq<Selector>)
    ensures FirstBySelectors(doc, [sel] + rest) ==
      if FirstMatch(doc, sel).Some? then FirstMatch(doc, sel) else FirstBySelectors(doc, rest)
  {
    assert ([sel] + rest)[0] == sel && ([sel] + rest)[1..] == rest;
  }

  /** Reference reading of the selection: the priority list, then body's
      inner HTML when it is not empty, then the raw page. */
  function SelectByPriority(rt: Runtime, doc: seq<Node>, raw: string): string {
    match FirstBySelectors(doc, ServerPriority)
    case Some(e) => rt.innerHtml(e.children)
    case None =>
      match InnerHtmlOfFirst(rt, doc, Tag("body"))
      case Some(h) => if h != "" then h else raw
      case None => raw
  }

  /** `let content = ""` followed by the if/else chain over
      `$("article").length > 0`, `$("main")…`, the content classes and
      `$("body").html() || htmlString`. */
  method SelectContent(rt: Runtime, doc: seq<Node>, raw: string) returns (content: string)
    ensures content == SelectByPriority(rt, doc, raw)
  {
    ServerPriorityInOrder(doc);
    content := "";
    var article := FirstMatch(doc, Tag("article"));
    var main := FirstMatch(doc, Tag("main"));
    var classed := FirstMatch(doc, ContentClasses);
    if article.Some? {
      content := rt.innerHtml(article.value.children);
    } else if main.Some? {
      content := rt.innerHtml(main.value.children);
    } else if classed.Some? {
      content := rt.innerHtml(classed.value.children);
    } else {
      content := OrElse(InnerHtmlOfFirst(rt, doc, Tag("body")), raw);
    }
  }

  /** Index of the first element a selector matches, in document order. */
  ghost predicate FirstAt(doc: seq<Node>, sel: Selector, i: nat) {
    i < |Elements(doc)| && Matches(Elements(doc)[i], sel)
    && forall j :: 0 <= j < i ==> !Matches(Elements(doc)[j], sel)
  }

  ghost predicate NoneMatch(doc: seq<Node>, sel: Selector) {
    forall j :: 0 <= j < |Elements(doc)| ==> !Matches(Elements(doc)[j], sel)
  }

  lemma FirstAtIsFirstMatch(doc: seq<Node>, sel: Selector, i: nat)
    requires FirstAt(doc, sel, i)
    ensures FirstMatch(doc, sel) == Some(Elements(doc)[i])
  {
    FirstMatchIsFirstInDocumentOrder(doc, sel);
    var k := FirstIndex(Elements(doc), sel);
    assert k <= i;
    assert k == i;
  }

  lemma NoneMatchIsNone(doc: seq<Node>, sel: Selector)
    requires NoneMatch(doc, sel)
    ensures FirstMatch(doc, sel) == None
  {
    FirstMatchSpec(doc, sel);
  }

  /** Any article wins: the first article in document order, even when a
      main element comes before it; an empty article gives "" without
      falling through. */
  lemma ArticleWins(rt: Runtime, doc: seq<Node>, raw: string, i: nat)
    requires FirstAt(doc, Tag("article"), i)
    ensures SelectByPriority(rt, doc, raw) == rt.innerHtml(Elements(doc)[i].children)
  {
    ServerPriorityInOrder(doc);
    FirstAtIsFirstMatch(doc, Tag("article"), i);
  }

  /** Without an article, the first main element. */
  lemma MainIsSecond(rt: Runtime, doc: seq<Node>, raw: string, i: nat)
    requires NoneMatch(doc, Tag("article")) && FirstAt(doc, Tag("main"), i)
    ensures SelectByPriority(rt, doc, raw) == rt.innerHtml(Elements(doc)[i].children)
  {
    ServerPriorityInOrder(doc);
    NoneMatchIsNone(doc, Tag("article"));
    FirstAtIsFirstMatch(doc, Tag("main"), i);
  }

  /** Without article or main, the first element carrying any of the three
      content classes. */
  lemma ContentClassIsThird(rt: Runtime, doc: seq<Node>, raw: string, i: nat)
    requires NoneMatch(doc, Tag("article")) && NoneMatch(doc, Tag("main"))
    requires FirstAt(doc, ContentClasses, i)
    ensures SelectByPriority(rt, doc, raw) == rt.innerHtml(Elements(doc)[i].children)
  {
    NoneMatchIsNone(doc, Tag("article"));
    NoneMatchIsNone(doc, Tag("main"));
    ServerPriorityInOrder(doc);
    FirstAtIsFirstMatch(doc, ContentClasses, i);
  }

  /** Otherwise body's inner HTML, or the raw page when there is no body or
      its inner HTML is empty. */
  lemma BodyOrRawIsLast(rt: Runtime, doc: seq<Node>, raw: string)
    requires NoneMatch(doc, Tag("article")) && NoneMatch(doc, Tag("main")) && NoneMatch(doc, ContentClasses)
    ensures NoneMatch(doc, Tag("body")) ==> SelectByPriority(rt, doc, raw) == raw
    ensures forall i: nat :: FirstAt(doc, Tag("body"), i) ==>
      SelectByPriority(rt, doc, raw) ==
        (if rt.innerHtml(Elements(doc)[i].children) != "" then rt.innerHtml(Elements(doc)[i].children) else raw)
  {
    NoneMatchIsNone(doc, Tag("article"));
    NoneMatchIsNone(doc, Tag("main"));
    NoneMatchIsNone(doc, ContentClasses);
    ServerPriorityInOrder(doc);
    if NoneMatch(doc, Tag("body")) {
      NoneMatchIsNone(doc, Tag("body"));
    }
    forall i: nat | FirstAt(doc, Tag("body"), i)
      ensures SelectByPriority(rt, doc, raw) ==
        (if rt.innerHtml(Elements(doc)[i].children) != "" then rt.innerHtml(Elements(doc)[i].children) else raw)
    {
      FirstAtIsFirstMatch(doc, Tag("body"), i);
    }
  }

  // ---------------------------------------------------------------------
  // Post-processing and the content gate

  const MinContentLength: nat := 50
  const NoContentReply: Reply := Reply(422, Json("No content extracted",
    Some("The webpage appears to have no readable content or may be behind a paywall/login")))
  const ParseFailedReply: Reply := Reply(500, Json("Content parsing failed",
    Some("Failed to parse the webpage content. The site may use complex JavaScript rendering.")))

  /** `!cleanMarkdown || cleanMarkdown.length < 50` rejects; otherwise the
      text goes out as plain text. */
  function QualityGate(clean: string): (r: Reply)
    ensures r.Reply? && (r.status == 200 <==> Utf16Length(clean) >= MinContentLength)
    ensures r.status == 200 ==> r.body == TextBody(Some(PlainTextContentType), clean)
    ensures r.status != 200 ==> r == NoContentReply
  {
    if clean == [] || Utf16Length(clean) < MinContentLength then NoContentReply
    else Reply(200, TextBody(Some(PlainTextContentType), clean))
  }

  /** The threshold is inclusive: 49 characters fail, 50 pass. */
  lemma GateBoundary(s49: string, s50: string)
    requires |s49| == 49 && |s50| == 50
    requires forall k :: 0 <= k < |s49| ==> (s49[k] as int) < 0x1_0000
    requires forall k :: 0 <= k < |s50| ==> (s50[k] as int) < 0x1_0000
    ensures QualityGate(s49) == NoContentReply
    ensures QualityGate(s50) == Reply(200, TextBody(Some(PlainTextContentType), s50))
  {
  }

  /** What reaches the caller on success: trimmed text, at least 50 code
      units long, obtained from the collapsed markdown by deletions only. */
  lemma SuccessIsCleanMarkdown(markdown: string)
    ensures var r := QualityGate(Markdown.Clean(markdown));
      r.status == 200 ==>
        var t := r.body.text;
        Utf16Length(t) >= MinContentLength && !IsSpace(t[0]) && !IsSpace(t[|t| - 1])
        && Markdown.IsSubsequence(t, Markdown.Collapse(markdown))
  {
    Markdown.CleanSpec(markdown);
    GatePassesTrimmedText(Markdown.Clean(markdown), Markdown.Collapse(markdown));
  }

  lemma GatePassesTrimmedText(clean: string, source: string)
    requires clean == [] || (!IsSpace(clean[0]) && !IsSpace(clean[|clean| - 1]))
    requires Markdown.IsSubsequence(clean, source)
    ensures var r := QualityGate(clean);
      r.status == 200 ==>
        var t := r.body.text;
        Utf16Length(t) >= MinContentLength && !IsSpace(t[0]) && !IsSpace(t[|t| - 1])
        && Markdown.IsSubsequence(t, source)
  {
    var r := QualityGate(clean);
    if r.status == 200 {
      assert r.body.text == clean;
      assert |clean| >= 25;
    }
  }

  // ---------------------------------------------------------------------
  // The handler

  /** Every reply the server sends is 200 plain text, a JSON error object
      with a non-empty error and message under a status that carries a body
      and is not 200, a bodiless 204 or 304, or a 205 whose JSON body was
      emptied. */
  predicate WellFormedReply(r: Reply) {
    r.Reply? &&
    match r.body
    case NoBody => r.status == 204 || r.status == 304
    case Emptied(ct) => r.status == 205 && ct == JsonContentType
    case TextBody(ct, _) => r.status == 200 && ct == Some(PlainTextContentType)
    case Json(e, m) => r.status != 200 && r.status != 204 && r.status != 205 && r.status != 304 && e != "" && Truthy(m)
  }

  /** Reference reading of the `end` listener. */
  function PageReply(rt: Runtime, htmlString: string): (r: Reply)
    ensures WellFormedReply(r)
  {
    match rt.turndown(SelectByPriority(rt, Prune(rt.load(htmlString), ServerNoise), htmlString))
    case None => ParseFailedReply
    case Some(markdown) =>
      GateIsWellFormed(Markdown.Clean(markdown));
      QualityGate(Markdown.Clean(markdown))
  }

  /** Reference reading of the handler: the reply it sends, and the client
      it fetched with (None: no request was made). */
  function ScrapeOutcome(rt: Runtime, url: Option<string>, upstream: Upstream): (o: (Reply, Option<Client>))
    ensures WellFormedReply(o.0)
    ensures o.1.Some? <==> CheckUrl(url, rt.parsesAsUrl).Fetch?
  {
    match CheckUrl(url, rt.parsesAsUrl)
    case Refuse(r) => (r, None)
    case Fetch(target) =>
      var reply :=
        (match upstream
         case Stalled => TimeoutReply
         case Failed(message) =>
           HintsAreNonEmpty(message, TransportHints);
           Reply(500, Json(NetworkErrorTitle, Some(FirstHint(message, TransportHints))))
         case Responded(status, statusMessage, location, htmlString) =>
           match CheckStatus(status, statusMessage, location)
           case Reject(r) => r
           case ReadBody => PageReply(rt, htmlString));
      (reply, Some(ClientFor(target)))
  }

  /** The `/api/scrape` handler with the request and response listeners it
      installs. `fetched` is the client the GET went through, None when no
      request was made. */
  method HandleScrape(rt: Runtime, url: Option<string>, upstream: Upstream)
    returns (reply: Reply, fetched: Option<Client>)
    ensures !Truthy(url) ==> reply == MissingUrlReply && fetched == None
    ensures Truthy(url) && !rt.parsesAsUrl(url.value) ==> reply == InvalidUrlReply && fetched == None
    ensures Truthy(url) && rt.parsesAsUrl(url.value) ==> fetched == Some(ClientFor(url.value))
    ensures fetched.Some? && upstream.Stalled? ==> reply == TimeoutReply
    ensures fetched.Some? && upstream.Failed? ==>
      reply == Reply(500, Json(NetworkErrorTitle, Some(FirstHint(upstream.message, TransportHints))))
    ensures fetched.Some? && upstream.Responded? ==>
      match CheckStatus(upstream.status, upstream.statusMessage, upstream.location)
      case Reject(r) => reply == r
      case ReadBody =>
        var doc := Prune(rt.load(upstream.body), ServerNoise);
        match rt.turndown(SelectByPriority(rt, doc, upstream.body))
        case None => reply == ParseFailedReply
        case Some(markdown) => reply == QualityGate(Markdown.Clean(markdown))
    ensures WellFormedReply(reply)
    ensures (reply, fetched) == ScrapeOutcome(rt, url, upstream)
  {
    fetched := None;
    match CheckUrl(url, rt.parsesAsUrl)
    case Refuse(r) =>
      reply := r;
    case Fetch(targetUrl) =>
      fetched := Some(ClientFor(targetUrl));
      match upstream
      case Stalled =>
        reply := TimeoutReply;
      case Failed(message) =>
        var errorMessage := TransportErrorMessage(message);
        reply := Reply(500, Json(NetworkErrorTitle, Some(errorMessage)));
        HintsAreNonEmpty(message, TransportHints);
      case Responded(status, statusMessage, location, htmlString) =>
        match CheckStatus(status, statusMessage, location)
        case Reject(r) =>
          reply := r;
        case ReadBody =>
          reply := ProcessPage(rt, htmlString);
  }

  /** The `end` listener: everything inside its `try` block, with the
      `catch` for a conversion that throws. */
  method ProcessPage(rt: Runtime, htmlString: string) returns (reply: Reply)
    ensures var doc := Prune(rt.load(htmlString), ServerNoise);
      match rt.turndown(SelectByPriority(rt, doc, htmlString))
      case None => reply == ParseFailedReply
      case Some(markdown) => reply == QualityGate(Markdown.Clean(markdown))
    ensures WellFormedReply(reply)
    ensures reply == PageReply(rt, htmlString)
  {
    var doc := Prune(rt.load(htmlString), ServerNoise);
    var content := SelectContent(rt, doc, htmlString);
    match rt.turndown(content)
    case None =>
      reply := ParseFailedReply;
    case Some(markdown) =>
      var clean := Markdown.Clean(markdown);
      GateIsWellFormed(clean);
      reply := QualityGate(clean);
  }

  lemma GateIsWellFormed(clean: string)
    ensures WellFormedReply(QualityGate(clean))
  {
  }

  lemma {:induction false} HintsAreNonEmpty(text: string, hints: seq<(string, string)>)
    requires forall j :: 0 <= j < |hints| ==> hints[j].1 != ""
    ensures FirstHint(text, hints) != ""
  {
    if hints != [] {
      HintsAreNonEmpty(text, hints[1..]);
    }
  }

  /** The middleware and the route together. The handler of any other route
      is not part of this model (NoReply). */
  method Serve(rt: Runtime, httpMethod: string, url: Option<string>, upstream: Upstream)
    returns (reply: Reply, fetched: Option<Client>)
    ensures httpMethod == "OPTIONS" ==> reply == PreflightReply && fetched == None
    ensures RouteFor(httpMethod) == ScrapeRoute ==> (reply, fetched) == ScrapeOutcome(rt, url, upstream)
    ensures RouteFor(httpMethod) == ScrapeRoute ==> WellFormedReply(reply)
    ensures RouteFor(httpMethod) == ScrapeRoute && !Truthy(url) ==> reply == MissingUrlReply && fetched == None
    ensures RouteFor(httpMethod) == OtherRoute ==> reply == NoReply && fetched == None
  {
    match RouteFor(httpMethod)
    case Preflight =>
      reply, fetched := PreflightReply, None;
    case ScrapeRoute =>
      reply, fetched := HandleScrape(rt, url, upstream);
    case OtherRoute =>
      reply, fetched := NoReply, None;
  }
}
