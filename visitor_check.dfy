/** The verdict `/api/check-visitor` returns and the client consumes, and the
    two in-site routes it can name. */
module VisitorCheck {

  /** The blog of copied posts shown to crawlers, reviewers and burned IPs. */
  const BLOG := "/blog"
  /** The not-found page a first direct visitor is shown. */
  const NOT_FOUND := "/404"

  datatype VisitorCheckResult = VisitorCheckResult(
    isBot: bool,
    isBlacklisted: bool,
    hasParameter: bool,
    redirectTo: string)
}
