/** `detectVisitorType`: asks the server for a verdict, passing the local flag,
    and lets the local flag override a server that has not listed the visitor
    or cannot be reached. */
module UserAgent {
  import opened Wrappers
  import opened VisitorCheck
  import Routes

  /** What the request to `/api/check-visitor` produced: a parsed verdict, or a
      failure (network error, error status, unreadable body). */
  datatype Answer = Answered(result: VisitorCheckResult) | RequestFailed

  const DETECT_FAILED := "Failed to detect visitor type"

  /** The `clientBlacklisted` query value: the flag written as a template literal. */
  function ClientBlacklistedParam(locallyBlacklisted: bool): (param: string)
    ensures param == "true" <==> locallyBlacklisted
    ensures param == "true" || param == "false"
  {
    if locallyBlacklisted then "true" else "false"
  }

  /** The server reads back exactly the flag the client wrote into the query. */
  lemma ClientFlagRoundTrip(locallyBlacklisted: bool, req: Routes.Request)
    requires req.clientBlacklisted == Some(ClientBlacklistedParam(locallyBlacklisted))
    ensures Routes.ClientBlacklistedOf(req) == locallyBlacklisted
  {
  }

  /** `detectVisitorType(currentPath)` with the flag read at entry and the
      server's answer to the request that carried it. */
  function DetectVisitorType(locallyBlacklisted: bool, currentPath: string, answer: Answer)
    : (r: Result<VisitorCheckResult, string>)
    ensures answer.Answered? && !locallyBlacklisted ==> r == Ok(answer.result)
    ensures answer.Answered? && answer.result.isBlacklisted ==> r == Ok(answer.result)
    ensures answer.Answered? ==>
              && r.Ok?
              && r.value.isBot == answer.result.isBot
              && r.value.hasParameter == answer.result.hasParameter
              && (r.value.isBlacklisted <==> answer.result.isBlacklisted || locallyBlacklisted)
    ensures answer.Answered? && locallyBlacklisted && !answer.result.isBlacklisted ==>
              r.value.redirectTo ==
                if currentPath != BLOG && currentPath != NOT_FOUND then BLOG else answer.result.redirectTo
    ensures answer.RequestFailed? ==> (r.Ok? <==> locallyBlacklisted)
    ensures answer.RequestFailed? && locallyBlacklisted ==>
              r.value == VisitorCheckResult(false, true, false, BLOG)
    ensures r.Failure? ==> r.error == DETECT_FAILED
  {
    match answer
    case Answered(result) =>
      if locallyBlacklisted && !result.isBlacklisted then
        var overridden := result.(isBlacklisted := true);
        if currentPath != BLOG && currentPath != NOT_FOUND then Ok(overridden.(redirectTo := BLOG))
        else Ok(overridden)
      else Ok(result)
    case RequestFailed =>
      if locallyBlacklisted then Ok(VisitorCheckResult(false, true, false, BLOG))
      else Failure(DETECT_FAILED)
  }

  /** A flagged client always ends up with a listed verdict, whatever the server says. */
  lemma FlaggedClientIsListed(currentPath: string, answer: Answer)
    ensures DetectVisitorType(true, currentPath, answer).Ok?
    ensures DetectVisitorType(true, currentPath, answer).value.isBlacklisted
  {
  }
}
