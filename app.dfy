/** The client `Router`: before showing any route it flags direct visits,
    asks the server for a verdict and acts on it; a guard keeps a flagged
    visitor on the blog or the not-found page. */
module App {
  import opened Wrappers
  import opened Text
  import opened VisitorCheck
  import opened RedirectService
  import opened UserAgent
  import Routes

  /** What the check does once the verdict (or the failure) is in. */
  datatype Action =
    | ExternalRedirect(href: string)   // leave the site, render nothing
    | RouteChange(path: string)        // move to another in-site route
    | RenderInPlace                    // show the current route
    | FallbackNotFound                 // the check failed: show the not-found page

  /** A direct visit: no query string, and not on one of the two routes a
      flagged visitor may see. */
  predicate IsDirect(search: string, location: string): (direct: bool)
    ensures direct ==> |search| == 0 && location != BLOG && location != NOT_FOUND
    ensures !direct ==> |search| > 0 || location == BLOG || location == NOT_FOUND
  {
    |search| == 0 && location != BLOG && location != NOT_FOUND
  }

  /** The redirect handling applied to a verdict at `location`. */
  function ActionFor(result: VisitorCheckResult, location: string): (a: Action)
    ensures a.ExternalRedirect? <==>
              result.redirectTo != "" && result.redirectTo != location && StartsWith(result.redirectTo, "http")
    ensures a.RouteChange? <==>
              result.redirectTo != "" && result.redirectTo != location && !StartsWith(result.redirectTo, "http")
    ensures a.RenderInPlace? <==> result.redirectTo == "" || result.redirectTo == location
    ensures a.ExternalRedirect? ==> a.href == result.redirectTo && RedirectUser(a.href) == External(a.href)
    ensures a.RouteChange? ==> a.path == result.redirectTo && RedirectUser(a.path) == LeaveToRouter
  {
    if result.redirectTo != "" && result.redirectTo != location then
      if StartsWith(result.redirectTo, "http") then ExternalRedirect(result.redirectTo)
      else RouteChange(result.redirectTo)
    else RenderInPlace
  }

  /** The check's outcome given the flag sent and the server's answer. */
  function Decide(sent: bool, location: string, answer: Answer): (a: Action)
    ensures a.FallbackNotFound? <==> !sent && answer.RequestFailed?
  {
    match DetectVisitorType(sent, location, answer)
    case Ok(result) => ActionFor(result, location)
    case Failure(_) => FallbackNotFound
  }

  /** The verdict carries the listed flag, so the client stores it. */
  predicate ReportsListed(sent: bool, location: string, answer: Answer)
  {
    var r := DetectVisitorType(sent, location, answer);
    r.Ok? && r.value.isBlacklisted
  }

  /** Where the router stands after an action. */
  function LocationAfter(action: Action, location: string): (next: string)
    ensures action.RenderInPlace? || action.ExternalRedirect? ==> next == location
    ensures action.RouteChange? ==> next == action.path
    ensures action.FallbackNotFound? ==> next == NOT_FOUND
  {
    match action
    case RouteChange(path) => path
    case FallbackNotFound => NOT_FOUND
    case _ => location
  }

  class Router {
    const flags: VisitorStatusStore
    var location: string
    /** The query string of the browser's URL; an in-site route change clears it. */
    var search: string
    var isLoading: bool
    var shouldRender: bool

    constructor (flags: VisitorStatusStore, location: string, search: string)
      ensures this.flags == flags && this.location == location && this.search == search
      ensures isLoading && !shouldRender
    {
      this.flags := flags;
      this.location := location;
      this.search := search;
      isLoading := true;
      shouldRender := false;
    }

    /** `checkVisitor`, run when the location changes. `answerFor(b)` is the
        server's answer to a request whose `clientBlacklisted` is `b`. */
    method CheckVisitor(answerFor: bool -> Answer) returns (sent: bool, action: Action)
      modifies this, flags
      ensures sent <==> old(flags.IsBlacklistedInSession())
                        || (flags.available && IsDirect(old(search), old(location)))
      ensures action == Decide(sent, old(location), answerFor(sent))
      ensures location == LocationAfter(action, old(location))
      ensures action.RouteChange? ==> location == action.path
      ensures !sent && answerFor(sent).RequestFailed? ==> location == NOT_FOUND && search == "" && shouldRender
      ensures search == if action.RouteChange? || action.FallbackNotFound? then "" else old(search)
      ensures !isLoading
      ensures shouldRender <==> !action.ExternalRedirect?
      ensures flags.IsBlacklistedInSession() <==>
                sent || (flags.available && ReportsListed(sent, old(location), answerFor(sent)))
      ensures old(flags.IsBlacklistedInSession()) ==> flags.IsBlacklistedInSession()
    {
      isLoading := true;
      shouldRender := false;

      if IsDirect(search, location) {
        flags.MarkAsBlacklisted();
      }

      sent := flags.IsBlacklistedInSession();
      var answer := answerFor(sent);
      var outcome := DetectVisitorType(sent, location, answer);
      match outcome {
        case Ok(result) =>
          if result.isBlacklisted {
            flags.MarkAsBlacklisted();
          }
          action := ActionFor(result, location);
          match action {
            case ExternalRedirect(_) =>
            case RouteChange(path) =>
              location := path;
              search := "";
              shouldRender := true;
            case RenderInPlace =>
              shouldRender := true;
          }
        case Failure(_) =>
          action := FallbackNotFound;
          location := NOT_FOUND;
          search := "";
          shouldRender := true;
      }
      isLoading := false;
    }

    /** The navigation guard: a flagged visitor anywhere but the blog or the
        not-found page is moved to the blog. */
    method EnforceGuard()
      modifies this
      ensures location == if flags.IsBlacklistedInSession() && old(location) != BLOG && old(location) != NOT_FOUND
                          then BLOG else old(location)
      ensures location != old(location) <==> !flags.AllowNavigation(old(location))
      ensures search == if location != old(location) then "" else old(search)
      ensures isLoading == old(isLoading) && shouldRender == old(shouldRender)
    {
      if flags.IsBlacklistedInSession() {
        if location != BLOG && location != NOT_FOUND {
          location := BLOG;
          search := "";
        }
      }
    }
  }

  /** A flagged client talking to the real server is routed to the blog from
      any other page: the flag it sends makes the server answer "/blog". */
  lemma FlaggedVisitLandsOnBlog(wasBlacklisted: bool, userAgent: string, href: string, location: string)
    requires location != BLOG && location != NOT_FOUND
    ensures Decide(true, location, Answered(Routes.Verdict(wasBlacklisted, userAgent, href, true))) == RouteChange(BLOG)
  {
  }

  /** A flagged client talking to the real server never leaves the site. */
  lemma FlaggedVisitNeverLeaves(wasBlacklisted: bool, userAgent: string, href: string, location: string)
    ensures !Decide(true, location, Answered(Routes.Verdict(wasBlacklisted, userAgent, href, true))).ExternalRedirect?
  {
    var v := Routes.Verdict(wasBlacklisted, userAgent, href, true);
    assert v.redirectTo == BLOG && v.isBlacklisted;
    assert BLOG[0] == '/' && "http"[0] == 'h';
  }

  /** An unflagged click-through with the marker and a browser-like agent, from
      an IP the server has not listed, is sent to the offer site. */
  lemma ClickThroughLeavesForOffer(userAgent: string, href: string, location: string)
    requires !Routes.IsBot(userAgent) && Routes.HasParameter(href)
    requires |location| > 0 && location[0] == '/'
    ensures Decide(false, location, Answered(Routes.Verdict(false, userAgent, href, false)))
              == ExternalRedirect(Routes.OFFER_URL)
  {
  }
}
