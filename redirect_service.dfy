/** Client helpers: the blacklist flag kept in the browser's local storage, the
    navigation filter for flagged visitors, and the external-redirect choice. */
module RedirectService {
  import opened Wrappers
  import opened Text
  import opened VisitorCheck

  /** The one value the client ever writes under the "visitor_status" key. */
  const BLACKLISTED := "blacklisted"

  /** What `redirectUser` does with a destination. */
  datatype Navigation = External(href: string) | LeaveToRouter

  /** `redirectUser`: absolute `http…` destinations are loaded by the browser;
      anything else is left to the router. */
  function RedirectUser(destination: string): (nav: Navigation)
    ensures nav.External? <==> StartsWith(destination, "http")
    ensures nav.External? ==> nav.href == destination
  {
    if StartsWith(destination, "http") then External(destination) else LeaveToRouter
  }

  /** The browser's local storage as the client sees it: `available` is false in
      private-browsing modes where every access throws; `status` is the value
      under the "visitor_status" key, if any. */
  class VisitorStatusStore {
    const available: bool
    var status: Option<string>

    constructor (available: bool, status: Option<string>)
      ensures this.available == available && this.status == status
    {
      this.available := available;
      this.status := status;
    }

    /** `isBlacklistedInSession`: the stored value is exactly "blacklisted";
        an unavailable storage reads as not flagged. */
    predicate IsBlacklistedInSession(): (flagged: bool)
      reads this
      ensures flagged ==> available && status.Some?
    {
      available && status == Some(BLACKLISTED)
    }

    /** `markAsBlacklisted`: writes the flag; a silent no-op when storage is
        unavailable. The flag is never cleared and a second call changes nothing. */
    method MarkAsBlacklisted()
      modifies this
      ensures status == if available then Some(BLACKLISTED) else old(status)
      ensures available ==> IsBlacklistedInSession()
      ensures !available ==> !IsBlacklistedInSession()
      ensures old(IsBlacklistedInSession()) ==> status == old(status)
    {
      if available {
        status := Some(BLACKLISTED);
      }
    }

    /** `allowNavigation`: the blog and the not-found page are always allowed;
        any other path only while the flag is unset. */
    function AllowNavigation(currentPath: string): (ok: bool)
      reads this
      ensures currentPath == BLOG || currentPath == NOT_FOUND ==> ok
      ensures currentPath != BLOG && currentPath != NOT_FOUND ==> (ok <==> !IsBlacklistedInSession())
    {
      if currentPath == BLOG || currentPath == NOT_FOUND then true
      else if IsBlacklistedInSession() then false
      else true
    }
  }
}
