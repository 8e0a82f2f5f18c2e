/** The server side of the cloaking gate: the user-agent crawler classifier
    `isBot` and the decision body of the `/api/check-visitor` handler. Crawlers
    and ad reviewers, and any IP already burned, are shown the blog; a
    click-through visitor whose URL carries the Facebook click-ID marker is sent
    to the offer site; anyone else gets the not-found page once and has the IP
    burned for every later visit. */
module Routes {
  import opened Wrappers
  import opened Text
  import opened Storage
  import opened VisitorCheck

  /** Crawler and ad-review tokens, in source order (duplicates included). */
  const BOT_PATTERNS: seq<string> := [
    "bot", "crawler", "spider", "slurp", "googlebot", "bingbot", "yahoo",
    "baidu", "yandex", "duckduckbot", "facebookexternalhit", "semrushbot",
    "ahrefsbot", "mj12bot", "baiduspider", "ia_archiver",
    "googlebot-", "adsbot-google", "mediapartners-google", "apis-google", "feedfetcher-google",
    "adidxbot", "msnbot", "bingbot",
    "slurp", "yahoo",
    "wget", "curl", "python-urllib", "python-requests", "libwww",
    "httpunit", "nutch", "go-http-client", "phpcrawl",
    "linkedinbot",
    "fast-webcrawler", "fast enterprise crawler", "biglotron", "teoma", "convera"
  ]

  /** Secondary indicators: crawler info URLs and automation markers. */
  const BOT_INDICATORS: seq<string> := [
    "http://www.google.com/bot.html",
    "http://help.yahoo.com/help/us/ysearch/slurp",
    "http://www.bing.com/bingbot.htm",
    "http://search.msn.com/msnbot.htm",
    "headlesschrome", "phantomjs", "selenium", "webdriver", "scraper", "crawler", "archiver"
  ]

  /** User agents shorter than this are classified as bots. */
  const MIN_BROWSER_UA_LENGTH := 20

  /** The Facebook click-ID marker a paid click-through carries in its URL. */
  const FB_CLICK_MARKER := "fbcli"

  /** Where a qualified click-through visitor is sent. */
  const OFFER_URL := "https://binance.com"

  /** `tokens.some(t => s.includes(t))`. */
  function MatchesAny(s: string, tokens: seq<string>): (r: bool)
    ensures r <==> exists t :: t in tokens && Contains(s, t)
  {
    if tokens == [] then false
    else
      var rest := MatchesAny(s, tokens[1..]);
      assert forall t :: t in tokens <==> t == tokens[0] || t in tokens[1..];
      assert Contains(s, tokens[0]) ==> tokens[0] in tokens;
      Contains(s, tokens[0]) || rest
  }

  /** `isBot`: no verdict for the empty agent; a token match or a short agent
      is a bot; a long agent is a bot only through a token. */
  function IsBot(userAgent: string): (bot: bool)
    ensures bot ==> userAgent != ""
    ensures 0 < |userAgent| < MIN_BROWSER_UA_LENGTH ==> bot
    ensures bot && |userAgent| >= MIN_BROWSER_UA_LENGTH ==> HasBotToken(userAgent)
  {
    if userAgent == "" then false
    else
      var lower := ToLower(userAgent);
      if MatchesAny(lower, BOT_PATTERNS) then true
      else if MatchesAny(lower, BOT_INDICATORS) then true
      else |userAgent| < MIN_BROWSER_UA_LENGTH
  }

  /** A token of either list occurs in the lower-cased user agent. */
  ghost predicate HasBotToken(userAgent: string)
  {
    exists t :: (t in BOT_PATTERNS || t in BOT_INDICATORS) && Contains(ToLower(userAgent), t)
  }

  /** No token is the empty string, which every agent would contain. */
  lemma NoEmptyToken()
    ensures "" !in BOT_PATTERNS && "" !in BOT_INDICATORS
  {
  }

  /** The classifier is: non-empty, and either some token occurs
      case-insensitively or the agent is shorter than 20 characters. */
  lemma IsBotCharacterized(userAgent: string)
    ensures IsBot(userAgent) <==> userAgent != "" && (HasBotToken(userAgent) || |userAgent| < MIN_BROWSER_UA_LENGTH)
  {
  }

  /** Any agent whose lower-case form contains a token of either list is a bot. */
  lemma TokenMakesBot(userAgent: string, token: string)
    requires token in BOT_PATTERNS || token in BOT_INDICATORS
    requires Contains(ToLower(userAgent), token)
    ensures IsBot(userAgent)
  {
    NoEmptyToken();
    assert token != "";
    var i :| OccursAt(ToLower(userAgent), token, i);
    assert userAgent != "";
    assert MatchesAny(ToLower(userAgent), BOT_PATTERNS) || MatchesAny(ToLower(userAgent), BOT_INDICATORS);
  }

  /** An agent of 20 or more characters that contains no token is not a bot. */
  lemma LongTokenFreeUserAgentIsNotBot(userAgent: string)
    requires |userAgent| >= MIN_BROWSER_UA_LENGTH
    requires forall t :: t in BOT_PATTERNS || t in BOT_INDICATORS ==> !Contains(ToLower(userAgent), t)
    ensures !IsBot(userAgent)
  {
    IsBotCharacterized(userAgent);
  }

  /** Google's crawler agent is caught by the "bot" token. */
  lemma GooglebotIsBot()
    ensures MatchesAny(ToLower("googlebot/2.1"), BOT_PATTERNS)
    ensures IsBot("googlebot/2.1")
  {
    assert OccursAt(ToLower("googlebot/2.1"), "bot", 6);
  }

  /** The request fields the handler reads. `parameters` is the serialized query,
      kept opaque. */
  datatype Request = Request(
    forwardedFor: Option<string>,
    remoteAddress: Option<string>,
    userAgent: Option<string>,
    url: Option<string>,
    clientBlacklisted: Option<string>,
    parameters: string)

  /** JavaScript's `value || fallback` on a possibly missing string: the empty
      string is falsy. */
  function OrElse(value: Option<string>, fallback: string): (r: string)
    ensures value.Some? && value.value != "" ==> r == value.value
    ensures (value.None? || value.value == "") ==> r == fallback
  {
    if value.Some? && value.value != "" then value.value else fallback
  }

  /** The IP key: the forwarded-for header verbatim, else the socket address,
      else "0.0.0.0". */
  function ClientIp(req: Request): (ip: string)
    ensures ip != ""
    ensures req.forwardedFor.Some? && req.forwardedFor.value != "" ==> ip == req.forwardedFor.value
    ensures OrElse(req.forwardedFor, "") == "" && OrElse(req.remoteAddress, "") != "" ==> ip == req.remoteAddress.value
    ensures OrElse(req.forwardedFor, "") == "" && OrElse(req.remoteAddress, "") == "" ==> ip == "0.0.0.0"
  {
    OrElse(req.forwardedFor, OrElse(req.remoteAddress, "0.0.0.0"))
  }

  /** The user-agent header verbatim; a missing header reads as "". */
  function UserAgentOf(req: Request): (ua: string)
    ensures req.userAgent.Some? ==> ua == req.userAgent.value
    ensures req.userAgent.None? ==> ua == ""
  {
    OrElse(req.userAgent, "")
  }

  /** The `url` query value verbatim; a missing value reads as "". */
  function UrlOf(req: Request): (url: string)
    ensures req.url.Some? ==> url == req.url.value
    ensures req.url.None? ==> url == ""
  {
    OrElse(req.url, "")
  }

  /** `clientBlacklisted === 'true'`: any other value, or none, reads as false. */
  function ClientBlacklistedOf(req: Request): (flagged: bool)
    ensures flagged ==> req.clientBlacklisted.Some? && req.clientBlacklisted.value == "true"
    ensures req.clientBlacklisted.None? || req.clientBlacklisted.value != "true" ==> !flagged
  {
    req.clientBlacklisted == Some("true")
  }

  /** The click marker occurs anywhere in the URL, path included. */
  function HasParameter(url: string): (marked: bool)
    ensures marked <==> exists i :: OccursAt(url, FB_CLICK_MARKER, i)
  {
    Contains(url, FB_CLICK_MARKER)
  }

  /** The three-way redirect choice; exactly one case applies. */
  function RedirectTarget(bot: bool, blacklisted: bool, hasParameter: bool): (target: string)
    ensures target == BLOG <==> bot || blacklisted
    ensures target == NOT_FOUND <==> !bot && !blacklisted && !hasParameter
    ensures target == OFFER_URL <==> !bot && !blacklisted && hasParameter
  {
    if bot || blacklisted || !hasParameter then
      (if bot || blacklisted then BLOG else NOT_FOUND)
    else OFFER_URL
  }

  /** The client's flag creates a server entry for an IP not yet listed. */
  predicate ClientForcesEntry(wasBlacklisted: bool, clientBlacklisted: bool)
  {
    clientBlacklisted && !wasBlacklisted
  }

  /** A direct visit: human-looking agent, no click marker, not listed by
      either side. Such a visit burns the IP. */
  predicate BurnsDirectVisit(wasBlacklisted: bool, userAgent: string, url: string, clientBlacklisted: bool)
  {
    !IsBot(userAgent) && !HasParameter(url) && !wasBlacklisted && !clientBlacklisted
  }

  /** The handler's reply, given whether the IP was listed on entry. */
  function Verdict(wasBlacklisted: bool, userAgent: string, url: string, clientBlacklisted: bool): (r: VisitorCheckResult)
    ensures r.isBot == IsBot(userAgent) && r.hasParameter == HasParameter(url)
    ensures r.redirectTo == BLOG <==> IsBot(userAgent) || wasBlacklisted || clientBlacklisted
    ensures r.redirectTo == NOT_FOUND <==> BurnsDirectVisit(wasBlacklisted, userAgent, url, clientBlacklisted)
    ensures r.redirectTo == OFFER_URL <==>
              !IsBot(userAgent) && !wasBlacklisted && !clientBlacklisted && HasParameter(url)
    ensures r.isBlacklisted <==>
              wasBlacklisted || clientBlacklisted || BurnsDirectVisit(wasBlacklisted, userAgent, url, clientBlacklisted)
  {
    var bot := IsBot(userAgent);
    var hasParameter := HasParameter(url);
    var listed := wasBlacklisted || clientBlacklisted;
    VisitorCheckResult(bot, listed || (!bot && !hasParameter), hasParameter,
                       RedirectTarget(bot, listed, hasParameter))
  }

  /** Client-asserted blacklisting always wins: the reply is listed and the blog. */
  lemma ClientFlagForcesBlog(wasBlacklisted: bool, userAgent: string, url: string)
    ensures Verdict(wasBlacklisted, userAgent, url, true).isBlacklisted
    ensures Verdict(wasBlacklisted, userAgent, url, true).redirectTo == BLOG
  {
  }

  /** A bot always gets the blog, and is only listed if it already was or the
      client said so. */
  lemma BotGetsBlog(wasBlacklisted: bool, userAgent: string, url: string, clientBlacklisted: bool)
    requires IsBot(userAgent)
    ensures Verdict(wasBlacklisted, userAgent, url, clientBlacklisted).redirectTo == BLOG
    ensures Verdict(wasBlacklisted, userAgent, url, clientBlacklisted).isBlacklisted <==> wasBlacklisted || clientBlacklisted
  {
  }

  /** The scenario of a Google crawler without the marker. */
  lemma GooglebotScenario(url: string)
    requires !HasParameter(url)
    ensures Verdict(false, "googlebot/2.1", url, false) == VisitorCheckResult(true, false, false, BLOG)
  {
  }

  /** The blacklist entry a request writes, if it writes one. */
  function EntryFor(req: Request, id: nat, now: Timestamp): BlacklistedIp
  {
    BlacklistedIp(id, ClientIp(req), Some(UserAgentOf(req)), now)
  }

  /** The log entry a request writes. */
  function LogFor(req: Request, resp: VisitorCheckResult, id: nat, now: Timestamp): VisitorLog
  {
    VisitorLog(id, ClientIp(req), Some(UserAgentOf(req)), resp.isBot, Some(req.parameters), Some(resp.redirectTo), now)
  }

  /** Whether the request writes a blacklist entry (at most one of the two steps does). */
  predicate WritesEntry(wasBlacklisted: bool, req: Request)
  {
    ClientForcesEntry(wasBlacklisted, ClientBlacklistedOf(req))
    || BurnsDirectVisit(wasBlacklisted, UserAgentOf(req), UrlOf(req), ClientBlacklistedOf(req))
  }

  /** The `/api/check-visitor` decision body. `now` is the server clock. */
  method CheckVisitor(store: MemStorage, req: Request, now: Timestamp) returns (resp: VisitorCheckResult)
    requires store.Valid()
    modifies store
    ensures store.Valid()
    ensures resp == Verdict(old(ClientIp(req) in store.blacklist), UserAgentOf(req), UrlOf(req), ClientBlacklistedOf(req))
    ensures store.logs == old(store.logs)[old(store.logsCurrentId) := LogFor(req, resp, old(store.logsCurrentId), now)]
    ensures store.logsCurrentId == old(store.logsCurrentId) + 1
    ensures WritesEntry(old(ClientIp(req) in store.blacklist), req) ==>
              && store.blacklist == old(store.blacklist)[ClientIp(req) := EntryFor(req, old(store.blacklistCurrentId), now)]
              && store.blacklistCurrentId == old(store.blacklistCurrentId) + 1
    ensures !WritesEntry(old(ClientIp(req) in store.blacklist), req) ==>
              store.blacklist == old(store.blacklist) && store.blacklistCurrentId == old(store.blacklistCurrentId)
    ensures ClientIp(req) in store.blacklist <==> resp.isBlacklisted
  {
    var ipAddress := ClientIp(req);
    var userAgent := UserAgentOf(req);
    var url := UrlOf(req);
    var clientBlacklisted := ClientBlacklistedOf(req);
    var hasParameter := HasParameter(url);

    var isBlacklisted := store.IsIpBlacklisted(ipAddress);
    if clientBlacklisted && !isBlacklisted {
      var _ := store.BlacklistIp(InsertBlacklistedIp(ipAddress, Some(userAgent)), now);
      isBlacklisted := true;
    }

    var botStatus := IsBot(userAgent);
    var redirectTarget := RedirectTarget(botStatus, isBlacklisted, hasParameter);

    var _ := store.LogVisitor(
      InsertVisitorLog(ipAddress, Some(userAgent), botStatus, Some(req.parameters), Some(redirectTarget)), now);

    if !botStatus && !hasParameter && !isBlacklisted {
      var _ := store.BlacklistIp(InsertBlacklistedIp(ipAddress, Some(userAgent)), now);
      isBlacklisted := true;
    }

    resp := VisitorCheckResult(botStatus, isBlacklisted, hasParameter, redirectTarget);
  }

  /** A direct visit gets the not-found page and burns the IP; the next visit
      from the same IP, whatever it carries, gets the blog. */
  method RepeatedDirectVisit(store: MemStorage, first: Request, second: Request, t1: Timestamp, t2: Timestamp)
    returns (r1: VisitorCheckResult, r2: VisitorCheckResult)
    requires store.Valid()
    requires ClientIp(first) == ClientIp(second)
    requires ClientIp(first) !in store.blacklist
    requires BurnsDirectVisit(false, UserAgentOf(first), UrlOf(first), ClientBlacklistedOf(first))
    modifies store
    ensures r1.redirectTo == NOT_FOUND && r1.isBlacklisted && !r1.isBot && !r1.hasParameter
    ensures r2.redirectTo == BLOG && r2.isBlacklisted
    ensures store.Valid() && ClientIp(first) in store.blacklist
    ensures store.LogCount() == old(store.LogCount()) + 2
  {
    r1 := CheckVisitor(store, first, t1);
    r2 := CheckVisitor(store, second, t2);
  }
}
