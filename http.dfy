/** Status codes the handlers reply with, and the presence test they apply to request fields. */
module Http {
  import opened Wrappers

  const Ok := 200
  const Unauthorized := 401
  const Forbidden := 403
  const NotFound := 404

  /** A string field passes `!field` iff it is present and non-empty (JavaScript truthiness). */
  predicate Given(field: Option<string>)
  {
    field.Some? && field.value != ""
  }

  /**
   * The status a client sees when a handler may send twice: the first reply wins,
   * and a later `sendStatus` raises, which ends the handler.
   */
  function Reply(sent: Option<int>, code: int): int
  {
    match sent
    case Some(first) => first
    case None => code
  }
}
