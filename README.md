# Cloaking gate: a Dafny model

This project models the core of an ad-cloaking gate. The server lists search-engine and
ad-review crawlers (`facebookexternalhit`, `adsbot-google`, `mediapartners-google` and
others) and classifies any user agent that contains one of them as a bot. It keys on
`fbcli`, a Facebook click-ID marker in the visited URL. Crawlers, reviewers and any IP
already blacklisted are sent to a blog of copied third-party posts ("/blog"). A
click-through visitor carrying the marker is sent to `https://binance.com`. Any other
visitor gets "/404" once, and their IP is blacklisted, so every later visit from that IP
gets the blog. The browser keeps its own blacklist flag in local storage. It sets the
flag on a direct visit, before asking the server, and sends it with the request. It lets
the flag override the server, and it keeps a flagged visitor on "/blog" or "/404".

Modules, one per source file, plus three helpers:

- `Wrappers`: `Option` and `Result`. `Text`: `includes`, `startsWith` and `toLowerCase` over `seq<char>`.
- `VisitorCheck`: the verdict record `{isBot, isBlacklisted, hasParameter, redirectTo}` and the two in-site routes.
- `Storage` (server/storage.ts): `MemStorage` as a class with the `blacklist` and `logs` maps and their two id counters. Its invariant `Valid()` says four things. Both counters are at least 1. Every blacklist entry sits under its own IP. Every blacklist id is below the counter. The log holds exactly the ids `1 .. logsCurrentId-1`, and every log entry's `id` equals its key.
- `Routes` (server/routes.ts): `IsBot` with its two token lists, and the `/api/check-visitor` decision body as the method `CheckVisitor` over a store. `Verdict` is the reference definition of its reply.
- `UserAgent` (client/src/lib/userAgent.ts): `DetectVisitorType`, a function of the local flag, the current path and the server's answer or failure.
- `RedirectService` (client/src/lib/redirectService.ts): the flag store as a class with one storage slot, `AllowNavigation` and `RedirectUser`.
- `App` (client/src/App.tsx): the `Router` state `(flags, location, search, isLoading, shouldRender)`. Its methods are `CheckVisitor` (the visitor-check effect) and `EnforceGuard` (the navigation guard).

Behaviour the model keeps exactly as the code has it:

- An empty user agent is not a bot. The early return at server/routes.ts:36 comes before the length test.
- The reply to a first direct visit already says `isBlacklisted: true`, because the flag is set at server/routes.ts:131 before the reply.
- The redirect target is fixed before either store write, so the log entry of a first direct visit records "/404", like the reply. `CheckVisitor` writes the log before the direct-visit blacklist entry, as the source does; that order has no effect the model can observe, because both writes take the same `now`.
- The client override changes `redirectTo` only when the current path is neither "/blog" nor "/404".
- After an external redirect the router leaves `shouldRender` false but still clears `isLoading` (the `finally` block). So the route switch is shown until the browser leaves.

Inputs the model takes as parameters:

- The server clock is the `now` argument. The serialized query is the opaque `parameters` field of `Request`.
- The client's network call is `answerFor`. It gives the server's answer, or a failure, for the `clientBlacklisted` value sent.
- Whether the browser's local storage works is the constant `available`.

## Model

| member | source | states |
|---|---|---|
| Text.ToLower | server/routes.ts:38 | lower-casing keeps the length, folds each ASCII letter and leaves no upper-case ASCII letter |
| Text.StartsWith | client/src/lib/redirectService.ts:6 | `startsWith`: the prefix occurs at index 0, so it is also contained |
| Text.Contains | server/routes.ts:86 | `includes`: true exactly when the token occurs at some index of the string |
| Routes.MatchesAny | server/routes.ts:41-43 | `some(... includes ...)`: true exactly when some token of the list occurs in the string |
| Routes.IsBot | server/routes.ts:35-74 | the empty agent is never a bot; a non-empty agent under 20 characters always is; an agent of 20 or more characters is a bot only if it contains a token |
| Routes.IsBotCharacterized | server/routes.ts:35-74 | a user agent is a bot iff it is non-empty and either contains a pattern or indicator token after lower-casing, or is shorter than 20 characters |
| Routes.TokenMakesBot | server/routes.ts:8-65 | any user agent whose lower-case form contains a token of either list is a bot |
| Routes.LongTokenFreeUserAgentIsNotBot | server/routes.ts:69-73 | a user agent of 20 or more characters that contains no token is not a bot |
| Routes.GooglebotIsBot | server/routes.ts:10 | "googlebot/2.1", lower-cased, matches the pattern list (through "bot"), and so is a bot |
| Routes.NoEmptyToken | server/routes.ts:8-61 | neither list holds the empty token, which every agent would contain |
| Routes.ClientIp | server/routes.ts:80-82 | the IP key is the forwarded-for header verbatim if non-empty; else the socket address if non-empty; else "0.0.0.0"; it is never empty |
| Routes.UserAgentOf | server/routes.ts:83 | the user-agent header verbatim, or "" when it is missing |
| Routes.UrlOf | server/routes.ts:84 | the `url` query value verbatim, or "" when it is missing |
| Routes.ClientBlacklistedOf | server/routes.ts:85 | the client flag is read as set only for the exact value "true"; any other value or none reads as unset |
| Routes.HasParameter | server/routes.ts:86 | the marker test is true iff "fbcli" occurs anywhere in the URL |
| Routes.RedirectTarget | server/routes.ts:107-109 | "/blog" iff bot or blacklisted; "/404" iff neither and no marker; the offer URL iff neither and the marker; the three are exclusive and exhaustive |
| Routes.Verdict | server/routes.ts:85-139 | the reply: bot verdict, marker test, listed iff listed before, flagged by the client, or a direct visit, and the target chosen with the listing as it stood after the client step |
| Routes.ClientFlagForcesBlog | server/routes.ts:92-109 | a request whose client flag is set is answered as listed and sent to "/blog" |
| Routes.BotGetsBlog | server/routes.ts:104-109 | a bot always gets "/blog" and is reported listed only if it was listed or the client said so |
| Routes.GooglebotScenario | server/routes.ts:104-139 | a Google crawler from an unlisted IP, without the marker, gets `{isBot: true, isBlacklisted: false, hasParameter: false, redirectTo: "/blog"}` |
| Routes.CheckVisitor | server/routes.ts:80-139 | the reply is `Verdict` of the IP's listing on entry; exactly one log entry with the bot verdict, query and final target is appended under the next id; a blacklist entry is written iff the client forced one or the visit is direct, and nothing else changes; afterwards the IP is listed iff the reply says so |
| Routes.RepeatedDirectVisit | server/routes.ts:107-132 | a direct visit from an unlisted IP gets "/404" and is reported listed; the next call from the same IP gets "/blog"; two log entries are added |
| Storage.ValueScanIsKeyLookup | server/storage.ts:78-92 | with entries stored under their own IP, scanning values for an IP agrees with key membership |
| Storage.DenseLogSize | server/storage.ts:96-105 | a log holding the ids 1 .. n-1 has n-1 entries |
| Storage.MemStorage.constructor | server/storage.ts:47-56 | both maps start empty and both counters start at 1 |
| Storage.MemStorage.LogCount | server/storage.ts:96-105 | the number of log entries is the number of appends so far |
| Storage.MemStorage.IsIpBlacklisted | server/storage.ts:78-82 | the value scan finds the IP iff the IP is a key of the blacklist |
| Storage.MemStorage.BlacklistIp | server/storage.ts:84-94 | the entry gets the old counter as id and is stored under its IP, overwriting; the counter rises by one; other IPs and the log are unchanged; keys only grow |
| Storage.MemStorage.LogVisitor | server/storage.ts:96-105 | the entry keeps the inserted fields, gets the old counter as id (fresh and above every earlier id) and is added; the counter and the entry count rise by one; the blacklist is unchanged |
| Storage.BlacklistTwice | server/storage.ts:84-94 | blacklisting one IP twice leaves one entry for it, the second, and the scan finds the IP |
| UserAgent.ClientBlacklistedParam | client/src/lib/userAgent.ts:23 | the query value is "true" iff the local flag is set, and "false" otherwise |
| UserAgent.ClientFlagRoundTrip | client/src/lib/userAgent.ts:17-24 | the server's `=== 'true'` reads back exactly the flag the client wrote into the query |
| UserAgent.DetectVisitorType | client/src/lib/userAgent.ts:15-55 | without the flag the answer is returned unchanged; with it an unlisted answer is forced listed and sent to "/blog" unless the path is "/blog" or "/404"; on failure a flagged client gets the fixed blog verdict and an unflagged one an error |
| UserAgent.FlaggedClientIsListed | client/src/lib/userAgent.ts:28-51 | a flagged client always gets a listed verdict, whatever the server answers |
| RedirectService.RedirectUser | client/src/lib/redirectService.ts:5-13 | an external navigation iff the destination starts with "http"; otherwise nothing |
| RedirectService.VisitorStatusStore.IsBlacklistedInSession | client/src/lib/redirectService.ts:20-27 | unavailable storage reads as not flagged |
| RedirectService.VisitorStatusStore.MarkAsBlacklisted | client/src/lib/redirectService.ts:33-40 | with storage available the flag is set afterwards; without it nothing changes; a set flag stays as it was |
| RedirectService.VisitorStatusStore.AllowNavigation | client/src/lib/redirectService.ts:47-61 | "/blog" and "/404" are always allowed; any other path iff the flag is not set |
| App.IsDirect | client/src/App.tsx:24-26 | a visit is direct iff the query string is empty and the location is neither "/blog" nor "/404" |
| App.ActionFor | client/src/App.tsx:49-62 | a non-empty target other than the location is an external navigation iff it starts with "http", else an in-site route change; otherwise the page renders in place |
| App.Decide | client/src/App.tsx:35-68 | the check falls back to "/404" exactly when the request failed and the flag was not sent |
| App.LocationAfter | client/src/App.tsx:54-68 | a route change moves to its path; a failed check moves to "/404"; rendering in place or leaving the site keeps the location |
| App.Router.constructor | client/src/App.tsx:13-15 | the router starts loading and not rendering |
| App.Router.CheckVisitor | client/src/App.tsx:17-75 | the flag sent is the flag before, or set by a direct visit; the action is `Decide` on the answer to that flag; an in-site route change moves to its target and clears the query string; an unflagged failure moves to "/404", clears the query string and renders; leaving the site renders nothing; loading ends; the flag ends set iff it was sent or the verdict says listed, and it is never cleared |
| App.Router.EnforceGuard | client/src/App.tsx:78-86 | a flagged visitor anywhere but "/blog" or "/404" is moved to "/blog" and loses the query string; otherwise nothing changes; it moves exactly when navigation is not allowed |
| App.FlaggedVisitLandsOnBlog | client/src/App.tsx:24-62 | a flagged client facing this server is moved to "/blog" from any other page |
| App.FlaggedVisitNeverLeaves | client/src/App.tsx:49-53 | a flagged client facing this server is never sent off-site |
| App.ClickThroughLeavesForOffer | client/src/App.tsx:49-53 | an unflagged click-through with the marker, a browser-like agent and an unlisted IP is sent to the offer site |

## Left out

- Express and HTTP wiring is not modelled: route registration, server creation, status codes, JSON replies, console logging and the `/api/blog-posts` route. The handler body returns a record instead.
- Schema parsing is the identity: the fields are always well-typed here, and the 400/500 error replies are not modelled.
- `JSON.stringify(req.query)` is the opaque `parameters` string.
- The clock reads in one request are one `now` value.
- Async execution is not modelled: the model is sequential. This leaves out the check-then-write race between the blacklist lookup and its writes, and the un-awaited blog-post initialisation.
- The users and blog-post parts of `MemStorage`, including the hard-coded posts, are not modelled. They do not take part in the decision.
- Text.ToLower, Routes.IsBot: lower-casing folds only ASCII letters (JavaScript also folds, for example, the Kelvin sign to "k"), and length counts Dafny characters rather than UTF-16 code units. So non-ASCII agents can differ from JavaScript's `toLowerCase` and `length`.
- Routes.UrlOf: query values are single strings. A repeated `url` key (an array, where `includes` tests for an element equal to "fbcli") and a nested `url` key (an object, where `includes` throws and the request fails) are not modelled.
- UserAgent.DetectVisitorType: the request helper `apiRequest` (client/src/lib/queryClient.ts) is not part of this model. Every way the request can fail is one `RequestFailed` answer.
- App.Router.CheckVisitor: React effect scheduling is collapsed. Effects re-run on location change, and the one-tick `setTimeout` before rendering after a route change is not modelled; `shouldRender` is set together with the route change. Stale answers arriving after a newer navigation are not modelled either.
- Browser navigation (`window.location.href`) is the `ExternalRedirect` action, and the real local storage is one slot.
- The router's `<Switch>`, which picks the page to show for a location, is not modelled: it is rendering, and its path matching belongs to the router library.
- The blog, home and not-found pages and the post and loading components are not modelled: they only render. The home page is not routed.
