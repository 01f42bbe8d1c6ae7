/** What the error-handling middleware makes of the error thrown by
    `validateTokenHelper` when validation rejects: what it logs and the object
    it hands to `res.json`, both with factories that return their error and as
    the exports are written. */
module TokenResponses {
  import opened Values
  import opened RequestErrors
  import opened Errors
  import opened ErrorHandler
  import opened TokenData
  import opened Token

  /** A missing token is not a `RequestError`, so it surfaces as a 500 carrying
      the message as `exception`; an expired token or a wrong code is a 401
      whose context `code` names the reason and whose logged message says it.
      Every rejection is logged at `info`. */
  lemma RejectionResponse(records: seq<TokenRecord>, q: Query, candidate: string, now: int)
    requires ValidateSpec(records, q, candidate, now).1.Rejected?
    ensures var t := ValidateSpec(records, q, candidate, now).1.error;
      var r := Handle(t, false);
      && r.Responded? && r.logMethod == "info"
      && (r.status == 500 <==> t == NotFoundError)
      && (r.status != 500 ==> r.status == 401 && r.body.errType == "unauthorized")
      && (t == NotFoundError ==>
            r.body.errType == "internal_server_error"
            && r.body.context == map["exception" := Str(NotFoundMessage)])
      && (t == ExpiredError ==>
            r.logged.message == ExpiredMessage && r.body.context == map["code" := Str("mfa_expired")])
      && (t != NotFoundError && t != ExpiredError ==>
            r.logged.message == InvalidMessage && r.body.context["code"] == Str("mfa_invalid"))
  {
    var found := FindFirst(records, Filter(q, None));
    var t := ValidateSpec(records, q, candidate, now).1.error;
    if found.Some? && records[found.value].expiresAt >= now {
      var rec := records[found.value];
      assert t == InvalidCodeError(if rec.triesLeft.Some? then Some(rec.triesLeft.value - 1) else None);
    }
  }

  /** What `validateTokenHelper` throws through the exports: the not-found
      `Error` as it is, and the `TypeError` of the unbound factory call in place
      of each `UnauthorizedRequestError`. */
  function ThrownAsWritten(t: Thrown): (u: Thrown)
    ensures !u.Raised?
    ensures t.Raised? ==> u.PlainError? && u.name == "TypeError"
    ensures !t.Raised? ==> u == t
  {
    if t.Raised? then UnboundFactoryCall(Unauthorized, NoOverrides) else t
  }

  /** As written, every rejection, expired and wrong codes included, ends in
      Express's 500 page, without reaching the handler's logger. */
  lemma RejectionAsWritten(records: seq<TokenRecord>, q: Query, candidate: string, now: int)
    requires ValidateSpec(records, q, candidate, now).1.Rejected?
    ensures var t := ThrownAsWritten(ValidateSpec(records, q, candidate, now).1.error);
      var a := HandleAsWritten(t, false);
      ClientSees(a) == FinalHandlerPage(500) && LogMethod(a) == None
  {
    var t := ThrownAsWritten(ValidateSpec(records, q, candidate, now).1.error);
    UnraisedReachesFinalHandler(t);
  }
}
