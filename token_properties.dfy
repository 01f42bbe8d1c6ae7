/** What issuing and validating tokens guarantee, stated over the functions the
    `TokenStore` methods are proved against (`Upsert` for `createToken`,
    `ValidateSpec` for `validateTokenHelper`). */
module TokenProperties {
  import opened Values
  import opened RequestErrors
  import opened Secrets
  import opened TokenData
  import opened Token

  /** The store `createToken` leaves behind. */
  function Issue(records: seq<TokenRecord>, nextId: nat, q: Query, secret: string, tokenType: string, now: int)
    : (seq<TokenRecord>, nat)
  {
    Upsert(records, nextId, Filter(q, Some(now)), BuildUpdate(q, Hash(secret), PolicyFor(tokenType), now))
  }

  // ---------------------------------------------------------------------------
  // Issuance

  /** The record `createToken` writes matches the query, holds the hash of the
      returned secret (and only that secret compares equal to it, so a
      re-issued record no longer accepts the previous secret), never the
      plaintext, expires `ttl` after `now`, and carries the tries budget of
      the type; a new record without a budget has no `triesLeft`. */
  lemma IssuedRecord(records: seq<TokenRecord>, nextId: nat, tokenType: string,
                     email: Option<string>, phoneNumber: Option<string>, enterpriseId: Option<string>,
                     code: int, bytes: seq<byte>, now: int)
    requires CodeMin <= code < CodeBound && |bytes| == 16
    ensures var q := BuildQuery(tokenType, email, phoneNumber, enterpriseId);
      var secret := IssuedSecret(tokenType, code, bytes);
      var after := Issue(records, nextId, q, secret, tokenType, now).0;
      var k := WrittenAt(records, Filter(q, Some(now)));
      && Matches(q, after[k])
      && (forall c :: Compare(c, after[k].tokenHash) <==> c == secret)
      && after[k].tokenHash != secret
      && after[k].expiresAt == now + PolicyFor(tokenType).ttl
      && (tokenType == EMAIL_MFA ==> after[k].triesLeft == Some(5))
      && (tokenType != EMAIL_MFA && k == |records| ==> after[k].triesLeft == None)
  {
    var q := BuildQuery(tokenType, email, phoneNumber, enterpriseId);
    var secret := IssuedSecret(tokenType, code, bytes);
    var after := Issue(records, nextId, q, secret, tokenType, now).0;
    var k := WrittenAt(records, Filter(q, Some(now)));
    forall c ensures Compare(c, after[k].tokenHash) <==> c == secret {
      CompareHash(c, secret);
    }
  }

  /** The per-type table: secret format, expiry and tries of what is issued. */
  lemma IssuancePolicy(tokenType: string, code: int, bytes: seq<byte>, now: int)
    requires CodeMin <= code < CodeBound && |bytes| == 16
    ensures var s := IssuedSecret(tokenType, code, bytes);
      var p := PolicyFor(tokenType);
      && (tokenType == EMAIL_CONFIRMATION ==> IsSixDigitCode(s) && p.ttl == 86400000 && p.tries == None)
      && (tokenType == EMAIL_MFA ==> IsSixDigitCode(s) && p.ttl == 300000 && p.tries == Some(5))
      && (tokenType == ENTERPRISE_INVITATION ==> IsHexSecret(s) && p.ttl == 259200000 && p.tries == None)
      && (tokenType == PASSWORD_RESET ==> IsHexSecret(s) && p.ttl == 86400000 && p.tries == None)
      && (tokenType !in {EMAIL_CONFIRMATION, EMAIL_MFA, ENTERPRISE_INVITATION, PASSWORD_RESET} ==>
            IsHexSecret(s) && p.ttl == 0 && p.tries == None)
  {
  }

  /** A token of an unrecognised type expires the moment it is issued: the
      upsert filter never selects it again, and validating it at any later
      time rejects it as expired, whatever the code. */
  lemma UnknownTypeIssuedDead(records: seq<TokenRecord>, nextId: nat, tokenType: string,
                              q: Query, secret: string, now: int, later: int, candidate: string)
    requires tokenType !in {EMAIL_CONFIRMATION, EMAIL_MFA, ENTERPRISE_INVITATION, PASSWORD_RESET}
    requires later > now
    ensures var after := Issue(records, nextId, q, secret, tokenType, now).0;
      var k := WrittenAt(records, Filter(q, Some(now)));
      && !Selects(Filter(q, Some(now)), after[k])
      && Attempt(after, Some(k), candidate, later) == (after, Rejected(ExpiredError))
    ensures q.tokenType == tokenType ==>
      var after := Issue(records, nextId, q, secret, tokenType, now).0;
      ValidateSpec(after, q, candidate, later) == (after, Rejected(ExpiredError))
  {
    var f := Filter(q, Some(now));
    var after := Issue(records, nextId, q, secret, tokenType, now).0;
    var k := WrittenAt(records, f);
    if q.tokenType == tokenType {
      assert Matches(q, after[k]);
      var found := FindFirst(after, Filter(q, None));
      assert found.Some? && found.value <= k;
      if found.value < k {
        assert after[found.value] == records[found.value];
        assert !Selects(f, records[found.value]);
      }
      assert after[found.value].expiresAt <= now;
      AttemptStore(after, found, candidate, later);
      AttemptOutcomes(after, found, candidate, later);
    }
  }

  /** Issuance keeps at most one live record per type and subject. */
  lemma IssueKeepsLiveKeysUnique(records: seq<TokenRecord>, nextId: nat, q: Query, secret: string,
                                 tokenType: string, now: int)
    requires UniqueIds(records) && IdsBelow(records, nextId) && LiveKeysUnique(records, now)
    requires q.tokenType == tokenType
    ensures LiveKeysUnique(Issue(records, nextId, q, secret, tokenType, now).0, now)
  {
    UpsertKeepsLiveKeysUnique(records, nextId, q, BuildUpdate(q, Hash(secret), PolicyFor(tokenType), now), now);
  }

  /** Issuance only ever writes records whose key matches the query with a live
      expiry, so expired records are left untouched. */
  lemma IssueLeavesExpiredAlone(records: seq<TokenRecord>, nextId: nat, q: Query, secret: string,
                                tokenType: string, now: int, j: nat)
    requires j < |records| && records[j].expiresAt <= now
    ensures Issue(records, nextId, q, secret, tokenType, now).0[j] == records[j]
  {
  }

  // ---------------------------------------------------------------------------
  // Validation

  /** No record matches: a plain `Error`, and the store is unchanged. */
  lemma NoMatchIsNotFound(records: seq<TokenRecord>, q: Query, candidate: string, now: int)
    requires forall x :: x in records ==> !Matches(q, x)
    ensures ValidateSpec(records, q, candidate, now) == (records, Rejected(NotFoundError))
  {
    var found := FindFirst(records, Filter(q, None));
    if found.Some? {
      assert records[found.value] in records;
    }
  }

  /** The first matching record has expired: `mfa_expired` whatever the code,
      and nothing is deleted or updated. */
  lemma ExpiredWhateverTheCode(records: seq<TokenRecord>, q: Query, candidate: string, now: int)
    requires var found := FindFirst(records, Filter(q, None));
      found.Some? && records[found.value].expiresAt < now
    ensures ValidateSpec(records, q, candidate, now) == (records, Rejected(ExpiredError))
  {
  }

  /** A wrong code against a record with a tries budget of n: the error reports
      n - 1; the last try deletes exactly that record, any other decrements
      its `triesLeft` by exactly one and changes nothing else. */
  lemma WrongCodeCharged(records: seq<TokenRecord>, q: Query, candidate: string, now: int, i: nat, n: int)
    requires UniqueIds(records)
    requires FindFirst(records, Filter(q, None)) == Some(i)
    requires records[i].expiresAt >= now && !Compare(candidate, records[i].tokenHash)
    requires records[i].triesLeft == Some(n)
    ensures var r := ValidateSpec(records, q, candidate, now);
      && r.1 == Rejected(InvalidCodeError(Some(n - 1)))
      && (n == 1 ==> r.0 == records[..i] + records[i + 1..])
      && (n != 1 ==> r.0 == records[i := records[i].(triesLeft := Some(n - 1))])
  {
    if n == 1 {
      RemoveIdAt(records, i);
    } else {
      SetTriesAt(records, i, n - 1);
    }
  }

  /** A wrong code against a record without a budget: `mfa_invalid` with no
      tries reported, and the store is unchanged. */
  lemma WrongCodeUnlimited(records: seq<TokenRecord>, q: Query, candidate: string, now: int, i: nat)
    requires FindFirst(records, Filter(q, None)) == Some(i)
    requires records[i].expiresAt >= now && !Compare(candidate, records[i].tokenHash)
    requires records[i].triesLeft.None?
    ensures ValidateSpec(records, q, candidate, now) == (records, Rejected(InvalidCodeError(None)))
  {
  }

  /** `x` is a record of `records` whose budget, other than 1, was lowered by
      one (a budget of 1 deletes the record instead). Under `TriesWithinBudget`
      that budget is 2 to 5. */
  predicate Decremented(records: seq<TokenRecord>, x: TokenRecord) {
    exists y :: y in records && y.triesLeft.Some? && y.triesLeft.value != 1
                && x == y.(triesLeft := Some(y.triesLeft.value - 1))
  }

  /** Validation never raises a tries budget: every record it leaves is one it
      found, or one whose budget (any but 1) it lowered by exactly one. */
  lemma TriesNeverIncrease(records: seq<TokenRecord>, q: Query, candidate: string, now: int)
    requires UniqueIds(records)
    ensures forall x :: x in ValidateSpec(records, q, candidate, now).0 ==>
      x in records || Decremented(records, x)
  {
    AttemptNeverIncreases(records, FindFirst(records, Filter(q, None)), candidate, now);
  }

  lemma AttemptNeverIncreases(records: seq<TokenRecord>, found: Option<nat>, candidate: string, now: int)
    requires UniqueIds(records) && (found.Some? ==> found.value < |records|)
    ensures forall x :: x in Attempt(records, found, candidate, now).0 ==>
      x in records || Decremented(records, x)
  {
    if found.Some? {
      var rec := records[found.value];
      var after := Attempt(records, found, candidate, now).0;
      AttemptStore(records, found, candidate, now);
      if rec.expiresAt < now || (!Compare(candidate, rec.tokenHash) && rec.triesLeft.None?) {
        assert after == records;
      } else if Compare(candidate, rec.tokenHash) || rec.triesLeft == Some(1) {
        assert after == RemoveId(records, rec.id);
        RemoveIdMembers(records, rec.id);
      } else {
        assert after == SetTries(records, rec.id, rec.triesLeft.value - 1);
        forall x | x in after ensures x in records || Decremented(records, x) {
          var j :| 0 <= j < |after| && after[j] == x;
          if records[j].id != rec.id {
            assert x == records[j];
          } else {
            assert records[j] in records;
          }
        }
      }
    }
  }

  /** Every tries budget lies between 1 and the 5 that issuance grants. */
  predicate TriesWithinBudget(records: seq<TokenRecord>) {
    forall x :: x in records && x.triesLeft.Some? ==> 1 <= x.triesLeft.value <= 5
  }

  lemma ValidateKeepsTriesWithinBudget(records: seq<TokenRecord>, q: Query, candidate: string, now: int)
    requires UniqueIds(records) && TriesWithinBudget(records)
    ensures TriesWithinBudget(ValidateSpec(records, q, candidate, now).0)
  {
    TriesNeverIncrease(records, q, candidate, now);
  }

  /** Within the budget, a wrong code reports between 0 and 4 tries left. */
  lemma ReportedTriesInRange(records: seq<TokenRecord>, q: Query, candidate: string, now: int, n: int)
    requires TriesWithinBudget(records)
    requires ValidateSpec(records, q, candidate, now).1 == Rejected(InvalidCodeError(Some(n)))
    ensures 0 <= n <= 4
  {
    var found := FindFirst(records, Filter(q, None));
    var rec := records[found.value];
    assert rec in records;
    var e := InvalidCodeError(Some(n)).error;
    if rec.triesLeft.Some? {
      assert e == InvalidCodeError(Some(rec.triesLeft.value - 1)).error;
      assert e.context["triesLeft"] == Num(rec.triesLeft.value - 1);
    }
  }

  lemma IssueKeepsTriesWithinBudget(records: seq<TokenRecord>, nextId: nat, q: Query, secret: string,
                                    tokenType: string, now: int)
    requires TriesWithinBudget(records)
    ensures TriesWithinBudget(Issue(records, nextId, q, secret, tokenType, now).0)
  {
    var f := Filter(q, Some(now));
    var u := BuildUpdate(q, Hash(secret), PolicyFor(tokenType), now);
    var after := Issue(records, nextId, q, secret, tokenType, now).0;
    var k := WrittenAt(records, f);
    forall x | x in after && x.triesLeft.Some? ensures 1 <= x.triesLeft.value <= 5 {
      var j :| 0 <= j < |after| && after[j] == x;
      if j != k {
        assert records[j] in records;
      } else if k < |records| && u.triesLeft.None? {
        assert records[k] in records;
      }
    }
  }

  /** Validation keeps at most one live record per type and subject. */
  lemma ValidateKeepsLiveKeysUnique(records: seq<TokenRecord>, q: Query, candidate: string, now: int, at: int)
    requires LiveKeysUnique(records, at)
    ensures LiveKeysUnique(ValidateSpec(records, q, candidate, now).0, at)
  {
    AttemptKeepsLiveKeysUnique(records, FindFirst(records, Filter(q, None)), candidate, now, at);
  }

  lemma AttemptKeepsLiveKeysUnique(records: seq<TokenRecord>, found: Option<nat>, candidate: string,
                                   now: int, at: int)
    requires found.Some? ==> found.value < |records|
    requires LiveKeysUnique(records, at)
    ensures LiveKeysUnique(Attempt(records, found, candidate, now).0, at)
  {
    if found.Some? {
      var rec := records[found.value];
      var after := Attempt(records, found, candidate, now).0;
      if rec.expiresAt < now || (!Compare(candidate, rec.tokenHash) && rec.triesLeft.None?) {
        assert after == records;
      } else if !Compare(candidate, rec.tokenHash) && rec.triesLeft.value != 1 {
        assert after == SetTries(records, rec.id, rec.triesLeft.value - 1);
        SetTriesKeepsLiveKeysUnique(records, rec.id, rec.triesLeft.value - 1, at);
      } else {
        assert after == RemoveId(records, rec.id);
        RemoveIdKeepsLiveKeysUnique(records, rec.id, at);
      }
    }
  }

  /** A correct code consumes exactly the record it matched. */
  lemma SuccessConsumes(records: seq<TokenRecord>, q: Query, candidate: string, now: int)
    requires UniqueIds(records)
    requires ValidateSpec(records, q, candidate, now).1 == Accepted
    ensures var i := FindFirst(records, Filter(q, None)).value;
      && ValidateSpec(records, q, candidate, now).0 == records[..i] + records[i + 1..]
      && forall x :: x in ValidateSpec(records, q, candidate, now).0 ==> x.id != records[i].id
  {
    var i := FindFirst(records, Filter(q, None)).value;
    RemoveIdAt(records, i);
  }

  /** Single use: once the only matching record has been accepted, the same
      attempt again finds nothing. */
  lemma SecondUseNotFound(records: seq<TokenRecord>, q: Query, candidate: string, now: int)
    requires UniqueIds(records)
    requires ValidateSpec(records, q, candidate, now).1 == Accepted
    requires forall x, y :: x in records && y in records && Matches(q, x) && Matches(q, y) ==> x == y
    ensures var after := ValidateSpec(records, q, candidate, now).0;
      ValidateSpec(after, q, candidate, now) == (after, Rejected(NotFoundError))
  {
    var i := FindFirst(records, Filter(q, None)).value;
    var after := ValidateSpec(records, q, candidate, now).0;
    assert records[i] in records;
    RemoveIdMembers(records, records[i].id);
    forall x | x in after ensures !Matches(q, x) {
      assert x in records && x.id != records[i].id;
    }
    NoMatchIsNotFound(after, q, candidate, now);
  }

  // ---------------------------------------------------------------------------
  // Repeated wrong codes

  /** The outcomes of k validation attempts in a row with the same inputs. */
  function Attempts(records: seq<TokenRecord>, q: Query, candidate: string, now: int, k: nat)
    : (seq<TokenRecord>, seq<Outcome>)
    decreases k
  {
    if k == 0 then (records, [])
    else
      var first := ValidateSpec(records, q, candidate, now);
      var rest := Attempts(first.0, q, candidate, now, k - 1);
      (rest.0, [first.1] + rest.1)
  }

  /** `mfa_invalid` reporting n - 1, n - 2, ..., 0 tries left. */
  function Countdown(n: nat): seq<Outcome> {
    if n == 0 then [] else [Rejected(InvalidCodeError(Some(n - 1)))] + Countdown(n - 1)
  }

  /** n wrong codes in a row against a record with a budget of n report n - 1
      down to 0 tries left and then leave the store without that record. */
  lemma {:induction false} WrongCodeLockout(records: seq<TokenRecord>, q: Query, candidate: string,
                                            now: int, i: nat, n: nat)
    requires UniqueIds(records) && n >= 1
    requires FindFirst(records, Filter(q, None)) == Some(i)
    requires records[i].expiresAt >= now && !Compare(candidate, records[i].tokenHash)
    requires records[i].triesLeft == Some(n)
    ensures Attempts(records, q, candidate, now, n) == (records[..i] + records[i + 1..], Countdown(n))
    decreases n
  {
    WrongCodeCharged(records, q, candidate, now, i, n);
    var first := ValidateSpec(records, q, candidate, now);
    var removed := records[..i] + records[i + 1..];
    assert first.1 == Rejected(InvalidCodeError(Some(n - 1)));
    assert Countdown(n) == [first.1] + Countdown(n - 1);
    if n == 1 {
      assert first.0 == removed;
      assert Attempts(first.0, q, candidate, now, 0) == (removed, []);
      assert [first.1] + [] == [first.1];
    } else {
      var next := records[i := records[i].(triesLeft := Some(n - 1))];
      assert first.0 == next;
      ChargedStaysFirst(records, q, i, n);
      WrongCodeLockout(next, q, candidate, now, i, n - 1);
    }
  }

  /** Lowering the budget of the first match keeps it the first match, with
      unique ids and every other record in place. */
  lemma ChargedStaysFirst(records: seq<TokenRecord>, q: Query, i: nat, n: int)
    requires UniqueIds(records) && FindFirst(records, Filter(q, None)) == Some(i)
    ensures var next := records[i := records[i].(triesLeft := Some(n - 1))];
      && UniqueIds(next) && FindFirst(next, Filter(q, None)) == Some(i)
      && next[..i] == records[..i] && next[i + 1..] == records[i + 1..]
  {
    var next := records[i := records[i].(triesLeft := Some(n - 1))];
    assert UniqueIds(next) by {
      forall a, b | 0 <= a < b < |next| ensures next[a].id != next[b].id {
        assert next[a].id == records[a].id && next[b].id == records[b].id;
      }
    }
    forall j | 0 <= j < i ensures !Selects(Filter(q, None), next[j]) {
      assert next[j] == records[j];
    }
    FindFirstIs(next, Filter(q, None), i);
    assert next[..i] == records[..i] && next[i + 1..] == records[i + 1..];
  }

  lemma {:induction false} AttemptsSplit(records: seq<TokenRecord>, q: Query, candidate: string,
                                         now: int, a: nat, b: nat)
    ensures var first := Attempts(records, q, candidate, now, a);
      var rest := Attempts(first.0, q, candidate, now, b);
      Attempts(records, q, candidate, now, a + b) == (rest.0, first.1 + rest.1)
    decreases a
  {
    if a > 0 {
      var step := ValidateSpec(records, q, candidate, now);
      var inner := Attempts(step.0, q, candidate, now, a - 1);
      var rest := Attempts(inner.0, q, candidate, now, b);
      var whole := Attempts(step.0, q, candidate, now, (a - 1) + b);
      AttemptsSplit(step.0, q, candidate, now, a - 1, b);
      assert whole == (rest.0, inner.1 + rest.1);
      assert [step.1] + (inner.1 + rest.1) == ([step.1] + inner.1) + rest.1;
    } else {
      var rest := Attempts(records, q, candidate, now, b);
      assert [] + rest.1 == rest.1;
    }
  }

  /** The MFA lockout: against a lone MFA record, five wrong codes report 4, 3,
      2, 1 and 0 tries left, and a sixth attempt finds no token at all. */
  lemma MfaLockout(rec: TokenRecord, q: Query, candidate: string, now: int)
    requires Matches(q, rec) && rec.triesLeft == Some(5)
    requires rec.expiresAt >= now && !Compare(candidate, rec.tokenHash)
    ensures Attempts([rec], q, candidate, now, 6) == ([], Countdown(5) + [Rejected(NotFoundError)])
  {
    FiveWrongCodes(rec, q, candidate, now);
    NothingLeft(q, candidate, now);
    AttemptsSplit([rec], q, candidate, now, 5, 1);
  }

  lemma FiveWrongCodes(rec: TokenRecord, q: Query, candidate: string, now: int)
    requires Matches(q, rec) && rec.triesLeft == Some(5)
    requires rec.expiresAt >= now && !Compare(candidate, rec.tokenHash)
    ensures Attempts([rec], q, candidate, now, 5) == ([], Countdown(5))
  {
    FindFirstIs([rec], Filter(q, None), 0);
    WrongCodeLockout([rec], q, candidate, now, 0, 5);
    assert [rec][..0] + [rec][1..] == [];
  }

  lemma NothingLeft(q: Query, candidate: string, now: int)
    ensures Attempts([], q, candidate, now, 1) == ([], [Rejected(NotFoundError)])
  {
    NoMatchIsNotFound([], q, candidate, now);
    assert Attempts([], q, candidate, now, 0) == ([], []);
    assert [Rejected(NotFoundError)] + [] == [Rejected(NotFoundError)];
  }

  // ---------------------------------------------------------------------------
  // Issue, then validate

  /** Issuing and then validating the returned secret succeeds at any time up
      to the expiry, as long as no expired record with the same type and
      subject is still in the store. */
  lemma IssueThenValidate(records: seq<TokenRecord>, nextId: nat, q: Query, secret: string,
                          tokenType: string, now: int, later: int)
    requires PolicyFor(tokenType).ttl > 0 && q.tokenType == tokenType
    requires forall x :: x in records && Matches(q, x) ==> x.expiresAt > now
    requires now <= later <= now + PolicyFor(tokenType).ttl
    ensures ValidateSpec(Issue(records, nextId, q, secret, tokenType, now).0, q, secret, later).1 == Accepted
  {
    var f := Filter(q, Some(now));
    var after := Issue(records, nextId, q, secret, tokenType, now).0;
    var k := WrittenAt(records, f);
    forall j | 0 <= j < k ensures !Selects(Filter(q, None), after[j]) {
      assert after[j] == records[j] && records[j] in records;
      assert !Selects(f, records[j]);
    }
    FindFirstIs(after, Filter(q, None), k);
    CompareHash(secret, secret);
  }

  /** The first live matching record, and only when there is none the first
      matching one: the lookup the validation evidently intends. */
  function LookupLiveFirst(records: seq<TokenRecord>, q: Query, now: int): (found: Option<nat>)
    ensures found.Some? ==> found.value < |records| && Matches(q, records[found.value])
    ensures found.None? <==> forall j :: 0 <= j < |records| ==> !Matches(q, records[j])
    ensures forall i :: 0 <= i < |records| && Matches(q, records[i]) && records[i].expiresAt > now ==>
      && found.Some? && records[found.value].expiresAt > now && found.value <= i
      && forall j :: 0 <= j < found.value && Matches(q, records[j]) ==> records[j].expiresAt <= now
  {
    var live := FindFirst(records, Filter(q, Some(now)));
    if live.Some? then live else FindFirst(records, Filter(q, None))
  }

  /** Validation with the lookup that prefers a live record. */
  function ValidateLiveFirst(records: seq<TokenRecord>, q: Query, candidate: string, now: int)
    : (seq<TokenRecord>, Outcome)
  {
    Attempt(records, LookupLiveFirst(records, q, now), candidate, now)
  }

  /** With the live-first lookup, a record is reported expired only when no
      matching record is live, and a missing record only when none matches. */
  lemma LiveFirstOutcomes(records: seq<TokenRecord>, q: Query, candidate: string, now: int)
    ensures var r := ValidateLiveFirst(records, q, candidate, now);
      && (r.1 == Rejected(ExpiredError) ==>
            forall j :: 0 <= j < |records| && Matches(q, records[j]) ==> records[j].expiresAt <= now)
      && (r.1 == Rejected(NotFoundError) <==>
            forall j :: 0 <= j < |records| ==> !Matches(q, records[j]))
  {
    var found := LookupLiveFirst(records, q, now);
    AttemptOutcomes(records, found, candidate, now);
    var live := FindFirst(records, Filter(q, Some(now)));
    if live.None? {
      forall j | 0 <= j < |records| && Matches(q, records[j]) ensures records[j].expiresAt <= now {
        assert !Selects(Filter(q, Some(now)), records[j]);
      }
    }
  }

  /** With the live-first lookup, the secret just issued is always accepted,
      whatever expired records linger. */
  lemma IssueThenValidateLiveFirst(records: seq<TokenRecord>, nextId: nat, q: Query, secret: string,
                                   tokenType: string, now: int, later: int)
    requires PolicyFor(tokenType).ttl > 0 && q.tokenType == tokenType
    requires now <= later < now + PolicyFor(tokenType).ttl
    ensures ValidateLiveFirst(Issue(records, nextId, q, secret, tokenType, now).0, q, secret, later).1 == Accepted
  {
    var f := Filter(q, Some(now));
    var g := Filter(q, Some(later));
    var after := Issue(records, nextId, q, secret, tokenType, now).0;
    var k := WrittenAt(records, f);
    forall j | 0 <= j < k ensures !Selects(g, after[j]) {
      assert after[j] == records[j];
      assert !Selects(f, records[j]);
    }
    FindFirstIs(after, g, k);
    CompareHash(secret, secret);
  }

  /** As written, the lookup ignores expiry: an expired MFA record for the same
      address that the TTL monitor has not yet removed comes first, so the code
      issued a moment ago is refused as expired. */
  lemma StaleRecordShadowsFreshToken()
    ensures var q := BuildQuery(EMAIL_MFA, Some("a@b.c"), None, None);
      var stale := TokenRecord(0, EMAIL_MFA, Some("a@b.c"), None, None, Hash("111111"), Some(5), 100);
      var secret := IssuedSecret(EMAIL_MFA, 123456, seq(16, _ => 0 as byte));
      var after := Issue([stale], 1, q, secret, EMAIL_MFA, 200).0;
      && |after| == 2 && after[1].tokenHash == Hash(secret)
      && ValidateSpec(after, q, secret, 200).1 == Rejected(ExpiredError)
      && ValidateLiveFirst(after, q, secret, 200).1 == Accepted
  {
    var q := BuildQuery(EMAIL_MFA, Some("a@b.c"), None, None);
    var stale := TokenRecord(0, EMAIL_MFA, Some("a@b.c"), None, None, Hash("111111"), Some(5), 100);
    var secret := IssuedSecret(EMAIL_MFA, 123456, seq(16, _ => 0 as byte));
    assert !Selects(Filter(q, Some(200)), stale);
    FindFirstIs([stale], Filter(q, None), 0);
    var after := Issue([stale], 1, q, secret, EMAIL_MFA, 200).0;
    assert WrittenAt([stale], Filter(q, Some(200))) == 1;
    FindFirstIs(after, Filter(q, None), 0);
    IssueThenValidateLiveFirst([stale], 1, q, secret, EMAIL_MFA, 200, 200);
  }

  // ---------------------------------------------------------------------------
  // Reaping

  /** Once the TTL monitor has run at `now`, validation at `now` never reports
      an expired record. */
  lemma ReapedNeverExpired(records: seq<TokenRecord>, q: Query, candidate: string, now: int)
    ensures ValidateSpec(Reaped(records, now), q, candidate, now).1 != Rejected(ExpiredError)
  {
    var reaped := Reaped(records, now);
    var found := FindFirst(reaped, Filter(q, None));
    if found.Some? {
      assert reaped[found.value] in reaped;
    }
  }
}
