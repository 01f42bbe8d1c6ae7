/** The token helper: issuing a typed, expiring secret (`createToken`) and
    validating and consuming it (`validateTokenHelper`), over a `TokenStore`
    that holds the persisted records. The clock, the random draw and the hash
    are inputs: `now` in milliseconds, the drawn code and bytes, `Secrets.Hash`. */
module Token {
  import opened Values
  import opened RequestErrors
  import opened Errors
  import opened Secrets
  import opened TokenData

  // ---------------------------------------------------------------------------
  // Issuance policy

  const EMAIL_CONFIRMATION := "emailConfirmation"
  const EMAIL_MFA := "emailMfa"
  const ENTERPRISE_INVITATION := "enterpriseInvitation"
  const PASSWORD_RESET := "passwordReset"

  datatype SecretFormat = NumericCode | HexCode

  /** The secret's format, its time to live in milliseconds and its tries budget. */
  datatype Policy = Policy(format: SecretFormat, ttl: int, tries: Option<int>)

  /** The `switch (type)` of `createToken`; any other type falls to the default
      branch, whose `expiresAt` is the current time. */
  function PolicyFor(tokenType: string): (p: Policy)
    ensures p.ttl >= 0
    ensures p.ttl == 0 <==>
      tokenType !in {EMAIL_CONFIRMATION, EMAIL_MFA, ENTERPRISE_INVITATION, PASSWORD_RESET}
    ensures p.format == NumericCode <==> tokenType == EMAIL_CONFIRMATION || tokenType == EMAIL_MFA
    ensures p.tries.Some? <==> tokenType == EMAIL_MFA
    ensures p.tries.Some? ==> p.tries.value == 5 && p.ttl == 300000
  {
    if tokenType == EMAIL_CONFIRMATION then Policy(NumericCode, 86400000, None)
    else if tokenType == EMAIL_MFA then Policy(NumericCode, 300000, Some(5))
    else if tokenType == ENTERPRISE_INVITATION then Policy(HexCode, 259200000, None)
    else if tokenType == PASSWORD_RESET then Policy(HexCode, 86400000, None)
    else Policy(HexCode, 0, None)
  }

  /** The plaintext secret: `String(code)` for numeric types, the hex text of
      the random bytes otherwise. */
  function IssuedSecret(tokenType: string, code: int, bytes: seq<byte>): (s: string)
    requires CodeMin <= code < CodeBound && |bytes| == 16
    ensures PolicyFor(tokenType).format == NumericCode ==> IsSixDigitCode(s) && ParseDecimal(s) == code
    ensures PolicyFor(tokenType).format == HexCode ==> IsHexSecret(s) && HexDecode(s) == bytes
  {
    if PolicyFor(tokenType).format == NumericCode then
      SixDigitCode(code);
      DecimalString(code)
    else
      HexSecret(bytes);
      HexRoundTrip(bytes);
      HexString(bytes)
  }

  /** `if (field)`: a string field takes part only when it is present and not empty. */
  function IfTruthy(s: Option<string>): Option<string> {
    if s.Some? && s.value != "" then s else None
  }

  /** The query both operations build: the type, plus each truthy subject field
      (an ObjectId is always truthy). */
  function BuildQuery(tokenType: string, email: Option<string>, phoneNumber: Option<string>,
                      enterpriseId: Option<string>): (q: Query)
    ensures q.tokenType == tokenType && q.enterprise == enterpriseId
    ensures q.email.Some? <==> email.Some? && email.value != ""
    ensures q.email.Some? ==> q.email == email
    ensures q.phoneNumber.Some? <==> phoneNumber.Some? && phoneNumber.value != ""
    ensures q.phoneNumber.Some? ==> q.phoneNumber == phoneNumber
  {
    Query(tokenType, IfTruthy(email), IfTruthy(phoneNumber), enterpriseId)
  }

  /** The update `createToken` writes: the query's fields, the hash, the expiry,
      and the tries budget when it is truthy. */
  function BuildUpdate(q: Query, tokenHash: string, p: Policy, now: int): (u: Update)
    ensures forall r :: Matches(q, Apply(u, r))
    ensures forall id :: Key(Inserted(id, u)) == q
    ensures u.tokenHash == tokenHash && u.expiresAt == now + p.ttl
    ensures u.triesLeft.Some? <==> p.tries.Some? && p.tries.value != 0
    ensures u.triesLeft.Some? ==> u.triesLeft == p.tries
  {
    Update(q.tokenType, q.email, q.phoneNumber, q.enterprise, tokenHash,
           if p.tries.Some? && p.tries.value != 0 then p.tries else None,
           now + p.ttl)
  }

  // ---------------------------------------------------------------------------
  // Validation outcomes

  const NotFoundMessage := "Sorry, we couldn't validate your token. Please double-check it for accuracy."
  const ExpiredMessage := "Sorry, your session has expired. Please log in again."
  const InvalidMessage := "Oops! The MFA code you entered is not valid. Please double-check the code and try again."

  /** No record matched: a plain `Error`, not a `RequestError`. */
  const NotFoundError: Thrown := PlainError("Error", NotFoundMessage, Captured)

  /** The record has expired. */
  const ExpiredError: Thrown := Raised(Make(Unauthorized, NoOverrides.(
    message := Some(ExpiredMessage),
    context := Some(map["code" := Str("mfa_expired")]))))

  /** A wrong code, reporting the remaining tries when the record has a budget. */
  function InvalidCodeError(triesLeft: Option<int>): (t: Thrown)
    ensures t.Raised? && t.error.statusCode == 401 && t.error.errType == "unauthorized"
    ensures t.error.message == InvalidMessage
    ensures "code" in t.error.context && t.error.context["code"] == Str("mfa_invalid")
    ensures "triesLeft" in t.error.context <==> triesLeft.Some?
    ensures triesLeft.Some? ==> t.error.context["triesLeft"] == Num(triesLeft.value)
  {
    Raised(Make(Unauthorized, NoOverrides.(
      message := Some(InvalidMessage),
      context := Some(if triesLeft.Some?
                      then map["code" := Str("mfa_invalid"), "triesLeft" := Num(triesLeft.value)]
                      else map["code" := Str("mfa_invalid")]))))
  }

  datatype Outcome = Accepted | Rejected(error: Thrown)

  /** The checks `validateTokenHelper` runs once the lookup has found the record
      at `found` (or nothing), and the store they leave. */
  function Attempt(records: seq<TokenRecord>, found: Option<nat>, candidate: string, now: int)
    : (seq<TokenRecord>, Outcome)
    requires found.Some? ==> found.value < |records|
  {
    if found.None? then (records, Rejected(NotFoundError))
    else
      var rec := records[found.value];
      if rec.expiresAt < now then (records, Rejected(ExpiredError))
      else if !Compare(candidate, rec.tokenHash) then
        if rec.triesLeft.Some? then
          if rec.triesLeft.value == 1 then
            (RemoveId(records, rec.id), Rejected(InvalidCodeError(Some(rec.triesLeft.value - 1))))
          else
            (SetTries(records, rec.id, rec.triesLeft.value - 1),
             Rejected(InvalidCodeError(Some(rec.triesLeft.value - 1))))
        else (records, Rejected(InvalidCodeError(None)))
      else (RemoveId(records, rec.id), Accepted)
  }

  /** What each check decides, for whatever the lookup found: a missing
      record, an expired one, a wrong code and an accepted code are told apart,
      and a wrong code reports the budget left after it. */
  lemma AttemptOutcomes(records: seq<TokenRecord>, found: Option<nat>, candidate: string, now: int)
    requires found.Some? ==> found.value < |records|
    ensures Attempt(records, found, candidate, now).1 == Rejected(NotFoundError) <==> found.None?
    ensures found.Some? ==>
      var rec := records[found.value];
      var o := Attempt(records, found, candidate, now).1;
      && (o == Rejected(ExpiredError) <==> rec.expiresAt < now)
      && (o == Accepted <==> rec.expiresAt >= now && Compare(candidate, rec.tokenHash))
      && (rec.expiresAt >= now && !Compare(candidate, rec.tokenHash) ==>
            o == Rejected(InvalidCodeError(
                   if rec.triesLeft.Some? then Some(rec.triesLeft.value - 1) else None)))
  {
    assert ExpiredError != NotFoundError;
    if found.Some? {
      var rec := records[found.value];
      if rec.expiresAt >= now && !Compare(candidate, rec.tokenHash) {
        var n := if rec.triesLeft.Some? then Some(rec.triesLeft.value - 1) else None;
        assert InvalidCodeError(n) != ExpiredError && InvalidCodeError(n) != NotFoundError;
      }
    }
  }

  /** The store each check leaves: untouched by a missing or expired record and
      by a wrong code without a budget, the record deleted on acceptance and on
      the last try, and its budget decremented on any other wrong code. */
  lemma AttemptStore(records: seq<TokenRecord>, found: Option<nat>, candidate: string, now: int)
    requires found.Some? ==> found.value < |records|
    ensures found.None? ==> Attempt(records, found, candidate, now).0 == records
    ensures found.Some? ==>
      var rec := records[found.value];
      var after := Attempt(records, found, candidate, now).0;
      && (rec.expiresAt < now ==> after == records)
      && (rec.expiresAt >= now && Compare(candidate, rec.tokenHash) ==> after == RemoveId(records, rec.id))
      && (rec.expiresAt >= now && !Compare(candidate, rec.tokenHash) && rec.triesLeft.None? ==>
            after == records)
      && (rec.expiresAt >= now && !Compare(candidate, rec.tokenHash) && rec.triesLeft == Some(1) ==>
            after == RemoveId(records, rec.id))
      && (rec.expiresAt >= now && !Compare(candidate, rec.tokenHash) && rec.triesLeft.Some?
          && rec.triesLeft.value != 1 ==>
            after == SetTries(records, rec.id, rec.triesLeft.value - 1))
  {
  }

  /** `validateTokenHelper` on the store's records: the lookup is the plain
      query, with no expiry condition. It accepts exactly when the first
      matching record has not expired and holds the candidate's hash; it never
      adds records, and leaves the store as it was unless it accepted or the
      record has a tries budget. */
  function ValidateSpec(records: seq<TokenRecord>, q: Query, candidate: string, now: int)
    : (r: (seq<TokenRecord>, Outcome))
    ensures var found := FindFirst(records, Filter(q, None));
      && (r.1 == Accepted <==>
            found.Some? && records[found.value].expiresAt >= now
              && Compare(candidate, records[found.value].tokenHash))
      && (r.1 == Rejected(NotFoundError) <==> found.None?)
      && (r.1 == Rejected(ExpiredError) <==> found.Some? && records[found.value].expiresAt < now)
      && (r.1 != Accepted && (found.None? || records[found.value].triesLeft.None?) ==> r.0 == records)
  {
    var found := FindFirst(records, Filter(q, None));
    assert ExpiredError != NotFoundError;
    assert forall n :: InvalidCodeError(n) != ExpiredError && InvalidCodeError(n) != NotFoundError;
    Attempt(records, found, candidate, now)
  }

  /** Validation only deletes or edits records: it never adds one, and every
      record after it has the id of one before it. */
  lemma ValidateKeepsIds(records: seq<TokenRecord>, q: Query, candidate: string, now: int)
    ensures var r := ValidateSpec(records, q, candidate, now);
      && |r.0| <= |records|
      && forall x :: x in r.0 ==> exists y :: y in records && y.id == x.id
  {
    AttemptKeepsIds(records, FindFirst(records, Filter(q, None)), candidate, now);
  }

  /** Validation only deletes or edits records: every record after it has the
      id of one before it. */
  lemma AttemptKeepsIds(records: seq<TokenRecord>, found: Option<nat>, candidate: string, now: int)
    requires found.Some? ==> found.value < |records|
    ensures var r := Attempt(records, found, candidate, now);
      forall x :: x in r.0 ==> exists y :: y in records && y.id == x.id
  {
    if found.Some? {
      var rec := records[found.value];
      var r := Attempt(records, found, candidate, now);
      RemoveIdMembers(records, rec.id);
      if !(rec.expiresAt < now) && !Compare(candidate, rec.tokenHash) && rec.triesLeft.Some?
         && rec.triesLeft.value != 1 {
        forall x | x in r.0 ensures exists y :: y in records && y.id == x.id {
          var j :| 0 <= j < |r.0| && r.0[j] == x;
          assert records[j] in records && records[j].id == x.id;
        }
      }
    }
  }

  // ---------------------------------------------------------------------------
  // The store

  class TokenStore {
    /** The token documents, in natural order. */
    var records: seq<TokenRecord>
    /** The id the next inserted document receives. */
    var nextId: nat

    ghost predicate Valid()
      reads this
    {
      UniqueIds(records) && IdsBelow(records, nextId)
    }

    constructor ()
      ensures Valid() && records == [] && nextId == 0
    {
      records := [];
      nextId := 0;
    }

    /** `TokenDataModel.updateOne(filter, update, {upsert: true})`. */
    method UpdateOneUpsert(f: Filter, u: Update)
      requires Valid()
      modifies this
      ensures Valid()
      ensures (records, nextId) == Upsert(old(records), old(nextId), f, u)
    {
      UpsertKeepsIds(records, nextId, f, u);
      var r := Upsert(records, nextId, f, u);
      records, nextId := r.0, r.1;
    }

    /** `TokenDataModel.findByIdAndDelete(id)`. */
    method FindByIdAndDelete(id: nat)
      requires Valid()
      modifies this
      ensures Valid()
      ensures records == RemoveId(old(records), id) && nextId == old(nextId)
    {
      RemoveIdKeepsIds(records, id, nextId);
      records := RemoveId(records, id);
    }

    /** `TokenDataModel.findByIdAndUpdate(id, {triesLeft: n})`. */
    method FindByIdAndUpdateTries(id: nat, n: int)
      requires Valid()
      modifies this
      ensures Valid()
      ensures records == SetTries(old(records), id, n) && nextId == old(nextId)
    {
      SetTriesKeepsIds(records, id, n, nextId);
      records := SetTries(records, id, n);
    }

    /** The background work of the TTL index on `expiresAt`. */
    method Reap(now: int)
      requires Valid()
      modifies this
      ensures Valid()
      ensures records == Reaped(old(records), now) && nextId == old(nextId)
    {
      ReapedKeepsIds(records, now, nextId);
      records := Reaped(records, now);
    }

    /** `createToken`: draws the secret by the type's policy (`code` and `bytes`
        are what `randomInt` and `randomBytes` returned), stores its hash with
        the expiry and tries budget by upserting on the query restricted to
        records still live at `now`, and returns the plaintext. */
    method CreateToken(tokenType: string, email: Option<string>, phoneNumber: Option<string>,
                       enterpriseId: Option<string>, code: int, bytes: seq<byte>, now: int)
      returns (secret: string)
      requires Valid()
      requires CodeMin <= code < CodeBound && |bytes| == 16
      modifies this
      ensures Valid()
      ensures secret == IssuedSecret(tokenType, code, bytes)
      ensures var q := BuildQuery(tokenType, email, phoneNumber, enterpriseId);
        (records, nextId) == Upsert(old(records), old(nextId), Filter(q, Some(now)),
                                    BuildUpdate(q, Hash(secret), PolicyFor(tokenType), now))
    {
      var policy := PolicyFor(tokenType);
      secret := IssuedSecret(tokenType, code, bytes);
      var expiresAt := now + policy.ttl;
      var triesLeft: Option<int> := policy.tries;

      var query := Query(tokenType, None, None, None);
      var update := Update(tokenType, None, None, None, Hash(secret), None, expiresAt);
      if email.Some? && email.value != "" {
        query := query.(email := email);
        update := update.(email := email);
      }
      if phoneNumber.Some? && phoneNumber.value != "" {
        query := query.(phoneNumber := phoneNumber);
        update := update.(phoneNumber := phoneNumber);
      }
      if enterpriseId.Some? {
        query := query.(enterprise := enterpriseId);
        update := update.(enterprise := enterpriseId);
      }
      if triesLeft.Some? && triesLeft.value != 0 {
        update := update.(triesLeft := triesLeft);
      }
      UpdateOneUpsert(Filter(query, Some(now)), update);
    }

    /** `validateTokenHelper`: looks the record up by the query alone, then
        rejects an expired record, charges a wrong code against the tries
        budget (deleting the record on its last try), and consumes the record
        on success. */
    method ValidateToken(tokenType: string, email: Option<string>, phoneNumber: Option<string>,
                         enterpriseId: Option<string>, candidate: string, now: int)
      returns (outcome: Outcome)
      requires Valid()
      modifies this
      ensures Valid()
      ensures (records, outcome) ==
        ValidateSpec(old(records), BuildQuery(tokenType, email, phoneNumber, enterpriseId), candidate, now)
      ensures nextId == old(nextId)
    {
      var query := Query(tokenType, None, None, None);
      if email.Some? && email.value != "" {
        query := query.(email := email);
      }
      if phoneNumber.Some? && phoneNumber.value != "" {
        query := query.(phoneNumber := phoneNumber);
      }
      if enterpriseId.Some? {
        query := query.(enterprise := enterpriseId);
      }

      assert query == BuildQuery(tokenType, email, phoneNumber, enterpriseId);
      var found := FindFirst(records, Filter(query, None));
      ghost var spec := Attempt(records, found, candidate, now);
      assert spec == ValidateSpec(records, query, candidate, now);
      if found.None? {
        return Rejected(NotFoundError);
      }
      var tokenData := records[found.value];

      if tokenData.expiresAt < now {
        return Rejected(ExpiredError);
      }

      if !Compare(candidate, tokenData.tokenHash) {
        if tokenData.triesLeft.Some? {
          if tokenData.triesLeft.value == 1 {
            FindByIdAndDelete(tokenData.id);
          } else {
            FindByIdAndUpdateTries(tokenData.id, tokenData.triesLeft.value - 1);
          }
          return Rejected(InvalidCodeError(Some(tokenData.triesLeft.value - 1)));
        }
        return Rejected(InvalidCodeError(None));
      }

      FindByIdAndDelete(tokenData.id);
      outcome := Accepted;
    }
  }
}
