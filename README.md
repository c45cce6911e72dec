# Web-page-to-markdown scrape pipeline, modelled in Dafny

The application turns a web page into clean markdown. A browser client calls
`GET /api/scrape?url=…`. The server fetches the page, removes noise elements,
picks the main content, converts it to markdown and tidies the text. It then
answers with the markdown as plain text, or with a JSON `{error, message}`
object. The same pipeline exists twice:

- `server/routes.ts` is the Express route. It has a CORS middleware, URL
  checks, status and redirect checks, transport-error hints, a 30-second
  timeout, a selector priority, a post-processing chain and a 50-character
  content gate.
- `api/scrape.ts` is a looser serverless copy. It has a narrower noise list
  and an `||` fallback for the content. It does no status or length checks.

The client (`client/src/lib/api.ts`) reads the `content-type` of the reply.
If it names JSON, the client throws the reply's message; otherwise it returns
the text.

Modules, one file each:

- `Common` (`common.dfy`): an Option type and JavaScript truthiness of optional strings. The
  ECMAScript white-space set, `startsWith` and `includes`, UTF-16 length, and
  the decimal rendering of a status code with its round trip.
- `Dom` (`dom.dfy`): an element tree (tag, class set, children, text) with type and class
  selectors. First match in document order. Noise pruning as a tree filter,
  and an outline of the document (every node with its ancestor chain), which
  is the reference description of what pruning keeps.
- `Http` (`http.dfy`): the client choice and the reply, body and upstream-outcome types. It also
  holds the foreign code the handlers call, bundled as parameters: the `new
  URL` test, `cheerio.load`, `.html()` and `turndown`.
- `Markdown` (`markdown.dfy`): the post-processing chain of `server/routes.ts:104-108`:
  - newline collapse, modelled run by run;
  - trim;
  - the nested-image-link regular expression, modelled as a lazy left-to-right scan;
  - trim again.
- `ServerRoutes` (`server_routes.dfy`): the middleware and the Express handler.
- `VercelScrape` (`vercel_scrape.dfy`): the serverless handler, with lemmas comparing it with the server.
- `ClientApi` (`client_api.dfy`): `scrapeUrl`, and lemmas on how it decodes each kind of reply
  the two handlers produce.

Where the code and its description differ, the model follows the code:

- The OPTIONS branch of the middleware calls `res.sendStatus(200)`, which
  writes the status text `OK` as a `text/plain` body, so the preflight reply
  is not empty.
- `app.get` also serves HEAD.
- A falsy status (absent or 0) skips both status checks.
- An upstream 204, or a 304 without Location, is echoed with its status
  through `res.json`. Express sends such a reply without body or content
  type, so the error object is lost and the client returns `""` as if it
  were the markdown.
- An upstream 205 is echoed the same way. The JSON content type stays, but
  the body is empty, because `res.send` empties it and `fetch` exposes no
  body for a 205. The client then rejects while parsing the empty body, and
  the server's message is lost.

## Model

| member | source | states |
|---|---|---|
| ServerRoutes.RouteFor | server/routes.ts:13-26 | OPTIONS goes to the middleware's own reply, GET and HEAD go to the scrape route, and every other method goes elsewhere, each exactly |
| ServerRoutes.Serve | server/routes.ts:13-26 | OPTIONS gets the `OK` preflight reply before the URL is looked at. On the scrape route the reply and the client are exactly the handler's (`ScrapeOutcome`); that reply is well formed, and a missing URL gets the 400 reply without a fetch |
| ServerRoutes.CheckUrl | server/routes.ts:29-44 | an absent or empty `url` is refused as missing, exactly. A present one that fails to parse is refused as invalid, exactly. Only otherwise is it fetched, and the fetch target is the raw string |
| ServerRoutes.MissingBeforeInvalid | server/routes.ts:29-44 | an empty or absent parameter is reported missing, whatever the URL parser says |
| Http.ClientFor | server/routes.ts:46 | the https client is chosen exactly when the raw string starts with `https`, case-sensitively; every other string gets http |
| Http.ClientForExamples | server/routes.ts:46 | `https://…` gets https; `http://…`, `HTTPS://…` and the empty string get http; `httpsx:` gets https, because only the raw prefix is tested |
| Http.JsonReply | server/routes.ts:64-67 | `res.status(code).json(o)` as the caller receives it, always with that status. A 204 or 304 has no body and no content type. A 205 keeps the JSON content type but has an empty body. Every other code carries the object |
| ServerRoutes.CheckStatus | server/routes.ts:56-68 | the body is read exactly when the status is falsy or 200. A 3xx with a Location header gets 400 "Redirect detected". Any other status is echoed with error `HTTP <code>` and the status message, or "Failed to fetch the webpage" when the status message is absent or empty. An echoed 204, or a 304 without Location, goes out bodiless, and an echoed 205 goes out with only its JSON content type and an empty body |
| ServerRoutes.RejectionEchoesStatus | server/routes.ts:63-68 | for any code other than 0 and 200 that is not a redirect, the reply carries that code. It is bodiless exactly for 204 and 304, emptied exactly for 205, and otherwise carries the error `HTTP ` followed by digits that read back as the code |
| ServerRoutes.OnlyTwoHundredIsRead | server/routes.ts:56-68 | 201, 204 and 205 are rejected. A 204, like a 304 without Location, is echoed bodiless, and a 205 is echoed emptied. A 302 without Location is echoed as `HTTP 302`, and a 302 with one is a redirect rejection |
| Common.DecimalRoundTrip | server/routes.ts:65 | the decimal rendering of the code reads back as the code |
| Common.DecimalInjective | server/routes.ts:65 | distinct codes give distinct error texts |
| ServerRoutes.TransportErrorMessage | server/routes.ts:133-142 | the if/else chain over `includes` yields the message of the first row of the hint table whose fragment occurs in the error text, or the default |
| ServerRoutes.FirstHintPicksFirstMatch | server/routes.ts:133-142 | when row i matches and no earlier row does, row i's message is chosen, wherever the fragments stand |
| ServerRoutes.FirstHintDefault | server/routes.ts:133 | with no fragment present the message is "Failed to fetch the webpage" |
| ServerRoutes.EarlierRowWins | server/routes.ts:134-141 | a text holding both `certificate` and `ECONNREFUSED`, but not `ENOTFOUND`, gets the connection-refused message |
| ServerRoutes.HintsAreNonEmpty | server/routes.ts:144-147 | the network-error message is never empty |
| Dom.Prune | server/routes.ts:84-86 | `$(noise).remove()`: every element that matches the noise list is cut out with its whole subtree, and the rest of the document keeps its order (characterised by the lemmas below) |
| Dom.PruneLeavesNoNoise | server/routes.ts:84-86 | after pruning, no element with a noise tag or a noise class remains anywhere in the tree |
| Dom.PruneKeepsExactlySurvivors | server/routes.ts:84-86 | the pruned document's outline is the original outline with exactly the nodes kept where neither the node nor any ancestor is noise. Order, labels and ancestor chains are unchanged |
| Dom.PruneIdentityIff | server/routes.ts:84-86 | pruning changes nothing if and only if the document holds no noise element |
| Dom.PruneIdempotent | server/routes.ts:84-86 | pruning twice is pruning once |
| Dom.PruneCompose | server/routes.ts:84-86 | pruning with one list and then another is pruning with their union |
| Dom.FirstMatch | server/routes.ts:90-95 | `$(sel).first()`: a result found matches the selector (its place in document order is the next two rows) |
| Http.InnerHtmlOfFirst | server/routes.ts:90-97 | `$(sel).first().html()`: nothing when no element matches, otherwise the serialisation of the first match's children |
| Dom.FirstMatchIsFirstInDocumentOrder | server/routes.ts:90-95 | the tree search `.first()` stands for returns the first matching element of the preorder element list |
| Dom.FirstMatchSpec | server/routes.ts:90-95 | there is no match exactly when no element of the document matches; a match is an element of the document that matches |
| ServerRoutes.SelectContent | server/routes.ts:89-98 | the `let content` if/else chain computes the priority reading: article, then main, then the content classes, then body's inner HTML when non-empty, then the raw page |
| ServerRoutes.ServerPriorityInOrder | server/routes.ts:89-95 | the priority list is tried in the order article, main, content classes |
| ServerRoutes.ArticleWins | server/routes.ts:90-91 | when the first article in document order is at index i, its inner HTML is the content, even when it is empty and even when a main element comes first |
| ServerRoutes.MainIsSecond | server/routes.ts:92-93 | without any article, the first main element's inner HTML is the content |
| ServerRoutes.ContentClassIsThird | server/routes.ts:94-95 | without article and main, the inner HTML of the first element with any of the three content classes is the content |
| ServerRoutes.BodyOrRawIsLast | server/routes.ts:96-97 | otherwise the content is body's inner HTML when it is non-empty; it is the raw page when body is missing or its inner HTML is empty |
| Markdown.Collapse | server/routes.ts:105 | `.replace(/\n\s*\n\s*\n/g, '\n\n')` read run by run: characters outside white space are copied, each maximal white-space run goes through `CollapseRun` (characterised by the lemmas below) |
| Markdown.CollapseExample | server/routes.ts:105 | four line feeds between two letters become two |
| Markdown.CollapseRun | server/routes.ts:105 | a white-space run with at most two line feeds is kept as it is. One with three or more keeps exactly two, and it stays white space |
| Markdown.CollapseBreaks | server/routes.ts:105 | after the collapse, no stretch of white space holds more than two line feeds |
| Markdown.CollapseIdentityIff | server/routes.ts:105 | the collapse changes nothing if and only if no white-space stretch holds three line feeds; collapsing twice is collapsing once |
| Markdown.CollapseKeepsVisible | server/routes.ts:105 | the collapse never changes, adds or removes a non-space character |
| Markdown.Trim | server/routes.ts:106 | the result has no white space at either end |
| Markdown.TrimIsSlice | server/routes.ts:106-108 | the trimmed text is a slice of the input with only white space cut off on each side |
| Markdown.TrimIdempotent | server/routes.ts:106-108 | the second trim of an already trimmed string changes nothing |
| Markdown.ImageLinkAt | server/routes.ts:107 | a match found at a position starts with `[![` there and ends with `)` inside the string |
| Markdown.StripNestedImages | server/routes.ts:107 | the global replacement: from left to right, each match that `ImageLinkAt` finds is deleted and the scan resumes after it; other characters are kept |
| Markdown.StripExample | server/routes.ts:107 | `x[![a](b)](c)y` becomes `xy` |
| Markdown.StripDeletesOnly | server/routes.ts:107 | removing nested image links only deletes: the output is a subsequence of the input |
| Markdown.StripWithoutPattern | server/routes.ts:107 | a text without `[![` is left unchanged |
| Markdown.Clean | server/routes.ts:104-108 | the chain in its order: collapse, trim, strip nested image links, trim |
| Markdown.CleanSpec | server/routes.ts:104-108 | the cleaned markdown has no white space at either end. It is a subsequence of the collapsed markdown |
| Common.Utf16Length | server/routes.ts:110 | the length JavaScript reports lies between the character count and twice it, and equals it for text within the Basic Multilingual Plane |
| ServerRoutes.QualityGate | server/routes.ts:110-118 | the reply is 200 exactly when the UTF-16 length is at least 50. It is then the clean text as `text/plain; charset=utf-8`; otherwise it is 422 "No content extracted" |
| ServerRoutes.GateBoundary | server/routes.ts:110 | 49 characters are rejected and 50 pass |
| ServerRoutes.SuccessIsCleanMarkdown | server/routes.ts:104-118 | a 200 reply carries trimmed text of at least 50 code units, obtained from the collapsed markdown by deletions only |
| ServerRoutes.ScrapeOutcome | server/routes.ts:26-156 | reference reading of the handler: the reply and the client it fetched with. The reply is always well formed, and a client is used exactly when the URL passes the gate |
| ServerRoutes.PageReply | server/routes.ts:76-127 | reference reading of the `end` listener; its reply is always well formed |
| ServerRoutes.HandleScrape | server/routes.ts:26-156 | equals `ScrapeOutcome`, and covers every outcome of the handler. Missing and invalid URL replies come without any fetch. A fetch goes through the prefix-chosen client. The timeout gives 408. A transport error gives 500 "Network error" with the first hint. A status rejection gives its reply. A turndown failure gives 500 "Content parsing failed". Otherwise the reply is the gate applied to the cleaned markdown of the selected content of the pruned page. Every reply is well formed: 200 plain text, a JSON error with a non-empty error and message, a bodiless 204 or 304, or a 205 with only its JSON content type and an empty body |
| ServerRoutes.ProcessPage | server/routes.ts:76-127 | the `end` listener prunes the loaded page, selects content by priority and converts it. A conversion that throws gives the 500 parsing reply; otherwise the reply is the gate on the cleaned markdown. The reply is always well formed and is `PageReply`'s |
| VercelScrape.ClientUsed | api/scrape.ts:28 | a fetch happens exactly for a non-OPTIONS request with a truthy, parseable URL. It goes through https exactly when the string starts with `https`. `Handler` returns this client |
| VercelScrape.Handler | api/scrape.ts:9-53 | the client it fetches with is `ClientUsed`'s. OPTIONS gets 200 with no body before anything else. Then come missing `{error:"Missing URL"}` and invalid `{error:"Invalid URL"}`. A transport error gives 500 "Fetch failed" with the message passed through unchanged. A response gives 200 with turndown's output, and when turndown throws the handler writes no reply |
| VercelScrape.Content | api/scrape.ts:42 | the chain of logical ors over `$("article").html()`, `$("main").html()` and `$("body").html()`, ending in `""` (characterised by the lemmas below) |
| VercelScrape.FirstNonEmpty | api/scrape.ts:42 | the chain's result is "" or one of the candidates |
| VercelScrape.FirstNonEmptyPicksFirst | api/scrape.ts:42 | when candidate i is truthy and no earlier one is, candidate i's text is the result |
| VercelScrape.FirstNonEmptyNone | api/scrape.ts:42 | with no truthy candidate the result is "" |
| VercelScrape.ContentIsFirstNonEmpty | api/scrape.ts:42 | the content is the first of article, main, body whose first match has non-empty inner HTML, else "" |
| VercelScrape.NoRawFallback | api/scrape.ts:42 | with no non-empty candidate the content is "", never the raw page |
| VercelScrape.EmptyArticleFallsThrough | api/scrape.ts:42 | an empty article does not stop the chain: main's text is used, where the server route yields "" |
| VercelScrape.StatusIsIgnored | api/scrape.ts:33-47 | the reply to a completed fetch does not depend on status, status message or Location |
| VercelScrape.EveryResponseIsOk | api/scrape.ts:33-47 | every completed fetch gets 200 or no reply, whatever the upstream status |
| VercelScrape.ShortMarkdownIsSent | api/scrape.ts:43-46 | a conversion whose cleaned text is under 50 code units is sent unchanged with 200, where the server route answers 422 |
| VercelScrape.ServerPrunesAtLeastAsMuch | api/scrape.ts:40 | pruning with this list and then the server's is the server's pruning alone |
| VercelScrape.NarrowerNoiseList | api/scrape.ts:40 | an element that the server's noise list catches, by one of the tags link, meta, noscript, svg or aside or by one of its four classes, but whose tag is not on this list, survives here and is removed by the server |
| ClientApi.RequestPath | client/src/lib/api.ts:10-13 | the path is `/api/scrape?url=` followed by exactly the encoded URL |
| ClientApi.ScrapeUrl | client/src/lib/api.ts:9-25 | the outcome is the decision applied to the answer to that one GET path |
| ClientApi.ErrorMessage | client/src/lib/api.ts:20 | the message is `message` if truthy, else `error` if truthy, else "Unknown error occurred"; it is never empty |
| ClientApi.IsJsonReply | client/src/lib/api.ts:17 | `contentType && contentType.includes('application/json')`: a present, non-empty header holding the marker anywhere |
| ClientApi.Decode | client/src/lib/api.ts:15-24 | it returns exactly when the content type is absent, empty or lacks `application/json`, and it returns the body text unchanged. Otherwise it throws the error message. A JSON value that is not an object, such as a number, a string or an array, has neither field, so "Unknown error occurred" is thrown. Only unparsable text or `null` makes the read itself reject |
| ClientApi.JsonWithCharsetIsJson | client/src/lib/api.ts:17 | `application/json; charset=utf-8` counts as JSON. `text/plain; charset=utf-8` and an absent header do not |
| ClientApi.ServerRepliesDecode | client/src/lib/api.ts:15-24 | for any well-formed server reply, the client returns exactly on 200, 204 and 304: the markdown on 200, "" on the bodiless ones. On a 205 `response.json()` rejects on the empty body. Otherwise it throws the server's message |
| ClientApi.UpstreamNoContentReadsAsEmpty | client/src/lib/api.ts:15-24 | for an upstream 204, or a 304 without Location, the server's reply is bodiless with that status, and the client resolves with "" |
| ClientApi.UpstreamResetContentRejects | client/src/lib/api.ts:15-19 | for an upstream 205 the server's reply keeps only the JSON content type, and the client rejects while reading the empty body as JSON |
| ClientApi.VercelErrorsDecode | client/src/lib/api.ts:17-20 | the serverless handler's message-less errors make the client throw "Missing URL" or "Invalid URL". A fetch error throws its text, or "Fetch failed" when that text is empty |
| ClientApi.VercelRepliesDecode | client/src/lib/api.ts:15-24 | for every reply of the serverless handler, a 200 resolves with its markdown ("" for the bodiless preflight). Every other status throws the message, or the error title when the message is absent or empty |

## Left out

- Network I/O is not modelled: `http.get`, `https.get`, the `data` and `end` listeners, `request.destroy()` and the 30-second timer. The upstream outcome is an input value: a response, a transport error or a stalled socket.
- The `error` event that `request.destroy()` may raise after the 408 is left out. Its listener's `res.status(500).json(…)` throws `ERR_HTTP_HEADERS_SENT` when it sets the content type. Nothing catches that exception, so it escapes the listener uncaught and nothing more is written. The model shows the 408 as the reply.
- Chunk concatenation and UTF-8 decoding are not modelled. The response body is an already-decoded string.
- `cheerio.load` and `.html()` are parameters. `load` maps a string to a tree and never fails, and `.html()` serialises an element's children. The implicit `html`/`head`/`body` wrapper cheerio adds is not modelled.
- `turndown` is a parameter that may fail. Its HTML-to-markdown conversion is not modelled.
- `new URL` and `encodeURIComponent` stand as abstract functions. The protocol check inside `http.get`, which throws on a URL whose scheme does not fit the client chosen by prefix, is not part of this model.
- The header strings are not modelled: the CORS headers of both handlers, the User-Agent, and the `Access-Control-Allow-Origin` repeated in the serverless `end` listener. An absent header is not a decision, so leaving them out changes no decision.
- A `url` parameter given several times (an array value of `req.query.url`) is not modelled. The parameter is an optional string.
- Only the `GET /api/scrape` route and the middleware are modelled. The handlers of other routes and Express's default 404 are not part of this model, so a request on another route is shown as no reply.
- Express's validation of the status code it echoes (valid range 100-999) is not modelled. Statuses parsed by the HTTP client are always three digits.
- A HEAD reply means the body is not sent. HEAD is otherwise handled like GET.
- A 'character' in the model is a Unicode scalar value. Strings holding lone surrogates are not modelled, and UTF-16 length counts every character outside the Basic Multilingual Plane as two units.
- `console.error` logging is not modelled.
- The serverless runtime's default content type for `res.send(string)` is not modelled. `VercelScrape.Handler` leaves it absent, and `ClientApi.VercelRepliesDecode` reads it so; a default that named JSON would turn the result into a thrown error.
- The response handed to the decoder is whatever `apiRequest` returns. `apiRequest` in `client/src/lib/queryClient` is not part of this model, including any check of its own on non-2xx statuses.
- `client/src/pages/home.tsx`, the user interface, is not part of this model.
- The `storage` import of `server/routes.ts` is not modelled, because it is unused.
- `ClientApi.ErrorMessage` does not model non-string JSON members. It reads `message` and `error` as optional strings, while the code would also accept numbers or objects and convert them to strings.
- `VercelScrape.Handler` does not model the stalled socket beyond the handler itself. It has no timer, so the handler never replies, and the platform's own time limit is not modelled.
