# Enigma backend: tokens and request errors

This project models two parts of the Enigma authentication backend and proves
properties about them:

- **The token helper.** `createToken` issues a typed, expiring secret. It may
  be a six-digit code or a 32-character hex string, and it may come with a
  tries budget. Only a hash of the secret is stored, through an upsert keyed
  by type and subject. `validateTokenHelper` looks the record up. It then
  rejects the token as expired, charges a wrong code against the budget
  (deleting the record on its last try), or consumes the record on success.
- **The error taxonomy these operations throw into.** This covers the
  `RequestError` class, the `CustomErrors` factories, and the Express
  middleware that turns anything thrown into an HTTP response.

The store is the class `Token.TokenStore`. Its records are a sequence in
natural order; `findOne` returns the first match, and an upsert that inserts
appends. Its methods `CreateToken` and `ValidateToken` follow the source step
by step. Each is proved equal to a function on the old store: `Upsert` with
the issuance filter, and `ValidateSpec`. Every property of issuing and
validating is proved about those functions (module `TokenProperties`).

Other modelling choices:

- The clock, the random draws and the hash are inputs. `now` is one value per
  call, `code` and `bytes` are what `randomInt` and `randomBytes` returned,
  and `Hash`/`Compare` stand for bcrypt.
- `Hash`/`Compare` keep the one property the helper relies on: a comparison
  succeeds exactly for the plaintext that was hashed.
- Errors are values (`ErrorState`). The `RequestError` class carries the
  constructor and the two in-place mutators `withTags` and `withExtras`.

The `TOKEN_EMAIL_*` constants are taken to be the `TokenTypes` literals
(`helpers/token.ts:14-18`). Any other string takes the default branch.

In three places the model follows the code where its description differs:

- On the last wrong try, the error reports `triesLeft` 0, because it
  reports the stored value minus one. It does not omit the field.
- Validation's lookup has no expiry condition. Issuance's upsert does: it
  only replaces records with `expiresAt > now`.
- A record whose `expiresAt` equals `now` is not expired for validation
  (the test is `<`). The same record is no longer live for the upsert (the
  test is `>`).

## Model

| member | source | states |
|---|---|---|
| RequestErrors.MapToLogLevel | backend/src/middlewares/requestError.ts:27-42 | the logger method is the lower-cased enum name and one of the six pino levels |
| RequestErrors.MapToLogLevelInjective | backend/src/middlewares/requestError.ts:7-14 | distinct levels have distinct logger methods, numeric codes and enum names |
| RequestErrors.Split | backend/src/middlewares/requestError.ts:80 | `split("\n")` is never empty, no piece contains a newline, and joining the pieces with newlines gives the text back |
| RequestErrors.KeptStack | backend/src/middlewares/requestError.ts:78-79 | a non-empty given stack is kept; an absent or empty one is replaced by a captured trace, so the stack is never absent |
| RequestErrors.Construct | backend/src/middlewares/requestError.ts:62-81 | level defaults to INFO and levelName is its enum name; status, type and message are copied; context defaults to `{}`; `extra` starts empty; the stacktrace is the split stack |
| RequestErrors.RequestError.constructor | backend/src/middlewares/requestError.ts:62-81 | the object's fields are exactly `Construct` of the arguments |
| RequestErrors.ConvertFrom | backend/src/middlewares/requestError.ts:89-102 | level ERROR, status 500, type `internal_server_error`, the fixed message, and a context of exactly `{message, name}` taken from the source error |
| RequestErrors.Overlay | backend/src/middlewares/requestError.ts:123 | `Object.assign` on arrays: the result is as long as the longer array; each index of the source is taken from the source, and the rest from the target |
| RequestErrors.AddTags | backend/src/middlewares/requestError.ts:122-125 | `context.tags` becomes the new tags overlaid, index by index, by what `Object.assign` copies from the old value, so the old array's entries win (exactly the new tags when there were none); every other key and field is unchanged |
| RequestErrors.EarlierTagsWin | backend/src/middlewares/requestError.ts:123 | when the existing tags are at least as long as the new ones, they are kept as they were |
| RequestErrors.RequestError.WithTags | backend/src/middlewares/requestError.ts:122-125 | updates this object's state to `AddTags` of the old state and returns the same instance |
| RequestErrors.AddExtras | backend/src/middlewares/requestError.ts:131-136 | the existing extras keep their positions; new extras appear only beyond them; nothing else changes |
| RequestErrors.RequestError.WithExtras | backend/src/middlewares/requestError.ts:131-136 | updates this object's state to `AddExtras` of the old state and returns the same instance |
| RequestErrors.Omit | backend/src/middlewares/requestError.ts:138-144 | keeps exactly the keys that are not excluded, with their values unchanged |
| RequestErrors.Format | backend/src/middlewares/requestError.ts:152-176 | type, message, level code, level name, status and extra mirror the error; when not verbose, the context lacks `stacktrace` and `exception` and keeps every other entry; when verbose, it adds `stacktrace` unless the context already has one |
| Errors.CreateError | backend/src/utils/errors.ts:5-21 | every missing field takes its default (INFO, 500, `unknown_error`, "An unexpected error occurred", `{}`) and every given one is kept |
| Errors.Make | backend/src/utils/errors.ts:23-154 | each factory: a caller-given status, type or message wins over the factory's default; context and stack pass through; a missing level becomes INFO |
| Errors.DefaultStatuses | backend/src/utils/errors.ts:23-154 | the default status of each factory, as an if-and-only-if per status |
| Errors.DefaultTypesDistinct | backend/src/utils/errors.ts:23-154 | the default `type` identifies the factory |
| Errors.ZeroStatusKept | backend/src/utils/errors.ts:54-62 | a status of 0, which is falsy in JavaScript, still overrides the default (`??`) |
| Errors.UnboundFactoryCall | backend/src/utils/errors.ts:157-168 | calling an exported factory throws a `TypeError` whose message says `createError` was read from `undefined` |
| ErrorHandler.Classify | backend/src/middlewares/requestErrorHandler.ts:26-48 | a JWT expiry gives 401 "Token expired"; a CASL `ForbiddenError` gives 401 with `exception`; a `RequestError` passes unchanged; and anything else gives 500 `internal_server_error` with `exception`; all but a `RequestError` are at level `INFO` with no extras |
| ErrorHandler.Serialized | backend/src/middlewares/requestErrorHandler.ts:52-53 | the JSON `res.json` sends holds the error's `_logLevel` code, `_logName`, status, type, context and extras, and no message, stack or stack trace |
| ErrorHandler.Handle | backend/src/middlewares/requestErrorHandler.ts:22-55 | headers already sent if and only if only `next` is called; otherwise the classified error is logged, stack trace included, through the method of its level, and sent as `Serialized` under its own status |
| ErrorHandler.RaisedPassesThrough | backend/src/middlewares/requestErrorHandler.ts:39-53 | a `RequestError` is logged as raised and handed to `res.json` with its own status, type, context, extras and level fields |
| ErrorHandler.StatusOfUnraised | backend/src/middlewares/requestErrorHandler.ts:26-48 | an error that is not a `RequestError` answers 401 or 500, and 500 exactly for a plain `Error` |
| ErrorHandler.HandleAsWritten | backend/src/middlewares/requestErrorHandler.ts:22-55 | with the exported factories, the handler throws a `TypeError` exactly when headers are not yet sent and the error is not a `RequestError`; otherwise it does what `Handle` does |
| ErrorHandler.ClientSees | backend/src/app.ts:1 | a handler that threw leaves the client Express's 500 page; a handler that responded sends its JSON under its status |
| ErrorHandler.LogMethod | backend/src/middlewares/requestErrorHandler.ts:50 | a logger method exactly when the handler reached its logger call |
| ErrorHandler.UnraisedReachesFinalHandler | backend/src/middlewares/requestErrorHandler.ts:26-48 | as written, an error that is not a `RequestError` is not logged by the handler's logger and ends in Express's 500 page |
| ErrorHandler.UnboundFactoriesReachFinalHandler | backend/src/utils/errors.ts:157-168 | through the exports, every factory call throws a `TypeError` that ends in Express's 500 page without reaching the handler's logger; the bound factory's error would be sent as JSON under the factory's own status |
| Secrets.DecimalString | backend/src/helpers/token.ts:61 | `String(n)` is a non-empty string of digits with no leading zero |
| Secrets.DecimalRoundTrip | backend/src/helpers/token.ts:61 | reading the digits back gives the number |
| Secrets.DecimalLength | backend/src/helpers/token.ts:61 | a number with k digits prints as k characters |
| Secrets.SixDigitCode | backend/src/helpers/token.ts:61-65 | every code `randomInt(10^5, 10^6 - 1)` draws is six digits and denotes the code; "999999" is never issued |
| Secrets.HexString | backend/src/helpers/token.ts:70 | two lower-case hex characters per byte |
| Secrets.HexRoundTrip | backend/src/helpers/token.ts:70 | the hex text determines the bytes |
| Secrets.HexSecret | backend/src/helpers/token.ts:70-78 | 16 random bytes give a 32-character hex secret |
| Secrets.Hash | backend/src/helpers/token.ts:86 | the stored digest is never the plaintext |
| Secrets.Compare | backend/src/helpers/token.ts:173 | `bcrypt.compare`: the candidate hashes to the stored digest |
| Secrets.CompareHash | backend/src/helpers/token.ts:173 | comparing against a digest succeeds exactly for the plaintext it was made from |
| TokenData.Matches | backend/src/helpers/token.ts:154 | `findOne(query)`: a record matches when it has the query's type and every optional field the query has, with the same value |
| TokenData.FindFirst | backend/src/helpers/token.ts:154 | `findOne`: the first position the filter selects, or none when nothing is selected |
| TokenData.FindFirstIs | backend/src/helpers/token.ts:154 | a selected position with nothing selected before it is what `findOne` returns |
| TokenData.Upsert | backend/src/helpers/token.ts:109-116 | exactly one record is written: the first live match, updated in place with its id kept, or else a new one appended with a fresh id; unselected records are untouched; an existing record becomes `Apply` of the update, keeping every field the update does not set; the hash, expiry and (when set) tries are written |
| TokenData.RemoveId | backend/src/helpers/token.ts:178 | `findByIdAndDelete`: no record left has the deleted id, and none is added |
| TokenData.RemoveIdMembers | backend/src/helpers/token.ts:178 | `findByIdAndDelete`: exactly the records with another id remain |
| TokenData.SetTries | backend/src/helpers/token.ts:180-188 | `findByIdAndUpdate`: the record with that id gets the new `triesLeft`; every other record is unchanged |
| TokenData.Reaped | backend/src/models/auth/token/tokenData.models.ts:35-37 | the TTL index keeps exactly the records whose `expiresAt` has not passed |
| TokenData.RemoveIdAt | backend/src/helpers/token.ts:178 | with unique ids, deleting the id at position i removes exactly that position |
| TokenData.SetTriesAt | backend/src/helpers/token.ts:180-188 | with unique ids, updating the id at position i changes only that position |
| TokenData.UpsertKeepsIds | backend/src/helpers/token.ts:109-116 | the upsert keeps ids unique and below the next free id |
| TokenData.RemoveIdKeepsIds | backend/src/helpers/token.ts:178 | deleting keeps ids unique and bounded |
| TokenData.SetTriesKeepsIds | backend/src/helpers/token.ts:180-188 | updating tries keeps ids unique and bounded |
| TokenData.ReapedKeepsIds | backend/src/models/auth/token/tokenData.models.ts:35-37 | reaping keeps ids unique and bounded |
| TokenData.UpsertKeepsLiveKeysUnique | backend/src/helpers/token.ts:109-116 | an upsert that writes the query's fields keeps at most one live record per type and subject |
| TokenData.RemoveIdKeepsLiveKeysUnique | backend/src/helpers/token.ts:178 | deleting keeps live keys unique |
| TokenData.SetTriesKeepsLiveKeysUnique | backend/src/helpers/token.ts:180-188 | updating tries keeps live keys unique |
| Token.PolicyFor | backend/src/helpers/token.ts:59-81 | the four known types get a positive time to live and every other type zero; confirmation and MFA codes are numeric; only MFA has a budget, of 5 tries over 5 minutes |
| Token.IssuedSecret | backend/src/helpers/token.ts:59-81 | numeric types get a six-digit code that denotes the drawn number; the other types get 32 hex characters that decode to the drawn bytes |
| Token.BuildQuery | backend/src/helpers/token.ts:83-103 | the query has the type, each email or phone number only when present and non-empty, and the enterprise when present |
| Token.BuildUpdate | backend/src/helpers/token.ts:84-107 | the update makes any record it is applied to, and the record it inserts, match the query; it writes the hash and `now + ttl`, and the tries budget exactly when it is truthy |
| Token.InvalidCodeError | backend/src/helpers/token.ts:191-207 | a 401 `unauthorized` with code `mfa_invalid`; it has `triesLeft` exactly when a count was given |
| Token.ValidateSpec | backend/src/helpers/token.ts:154-211 | accepts if and only if the first match has not expired and holds the candidate's hash; not found if and only if nothing matches; expired if and only if the first match has expired; the store is unchanged unless accepted or the record has a budget |
| Token.Attempt | backend/src/helpers/token.ts:164-211 | the checks after the lookup: the expiry test, the hash comparison, the charge or deletion on a wrong code and the deletion on success, with the error each rejection throws |
| Token.AttemptOutcomes | backend/src/helpers/token.ts:158-208 | for whatever the lookup found: not found exactly when nothing was found, expired exactly when the record has expired, accepted exactly on a live record with the candidate's hash, and a wrong code reports the budget minus one |
| Token.AttemptStore | backend/src/helpers/token.ts:164-211 | the store is untouched on expiry and on a wrong code without a budget; the record is deleted on acceptance and on the last try; otherwise its budget drops by one |
| Token.ValidateKeepsIds | backend/src/helpers/token.ts:154-211 | validation never adds a record, nor one with a new id |
| Token.AttemptKeepsIds | backend/src/helpers/token.ts:164-211 | the checks after the lookup keep only ids that were already present |
| Token.TokenStore.constructor | backend/src/models/auth/token/tokenData.models.ts:35-46 | an empty store |
| Token.TokenStore.UpdateOneUpsert | backend/src/helpers/token.ts:109-116 | the store becomes `Upsert` of the old store, and ids stay unique |
| Token.TokenStore.FindByIdAndDelete | backend/src/helpers/token.ts:178 | the store becomes `RemoveId` of the old store |
| Token.TokenStore.FindByIdAndUpdateTries | backend/src/helpers/token.ts:180-188 | the store becomes `SetTries` of the old store |
| Token.TokenStore.Reap | backend/src/models/auth/token/tokenData.models.ts:35-37 | the store becomes `Reaped` of the old store |
| Token.TokenStore.CreateToken | backend/src/helpers/token.ts:51-119 | returns the type's secret; the store becomes the upsert on `{query, expiresAt > now}` of the query's fields, the secret's hash, `now + ttl` and the truthy tries budget |
| Token.TokenStore.ValidateToken | backend/src/helpers/token.ts:126-212 | the new store and the outcome are `ValidateSpec` of the old store and the query built from the arguments |
| TokenProperties.IssuedRecord | backend/src/helpers/token.ts:83-118 | the written record matches the query and expires `ttl` after `now`; its digest accepts the returned secret and no other, and is not the plaintext; MFA gets 5 tries; a new record with no budget has none |
| TokenProperties.IssuancePolicy | backend/src/helpers/token.ts:59-81 | the per-type secret format, time to live and tries budget, including the zero-lifetime default |
| TokenProperties.UnknownTypeIssuedDead | backend/src/helpers/token.ts:77-80 | an unknown type's record is never live, and any later validation with the query it was issued under reports expiry, whatever the code and whatever else is stored, and leaves the store as it was |
| TokenProperties.IssueKeepsLiveKeysUnique | backend/src/helpers/token.ts:83-116 | issuing keeps at most one live record per type and subject |
| TokenProperties.IssueLeavesExpiredAlone | backend/src/helpers/token.ts:110-113 | records already expired at `now` are left untouched by issuance |
| TokenProperties.NoMatchIsNotFound | backend/src/helpers/token.ts:154-162 | with no matching record: a plain `Error`, and the store is unchanged |
| TokenProperties.ExpiredWhateverTheCode | backend/src/helpers/token.ts:164-171 | a first match that has expired gives `mfa_expired` whatever the code, and the store is unchanged |
| TokenProperties.WrongCodeCharged | backend/src/helpers/token.ts:175-198 | a wrong code against a budget n reports n - 1; at 1 exactly that record is removed, otherwise its `triesLeft` alone drops by one |
| TokenProperties.WrongCodeUnlimited | backend/src/helpers/token.ts:201-207 | a wrong code without a budget gives `mfa_invalid` with no count, and the store is unchanged |
| TokenProperties.TriesNeverIncrease | backend/src/helpers/token.ts:175-198 | each record validation leaves was there before, or had its budget, any but 1, lowered by exactly one (a budget of 1 deletes the record) |
| TokenProperties.AttemptNeverIncreases | backend/src/helpers/token.ts:164-211 | the same, for the checks after any lookup |
| TokenProperties.ValidateKeepsTriesWithinBudget | backend/src/helpers/token.ts:175-198 | validation keeps every budget between 1 and 5 |
| TokenProperties.IssueKeepsTriesWithinBudget | backend/src/helpers/token.ts:105-107 | issuance keeps every budget between 1 and 5 |
| TokenProperties.ReportedTriesInRange | backend/src/helpers/token.ts:191-198 | within the budget, a wrong code reports 0 to 4 tries left |
| TokenProperties.ValidateKeepsLiveKeysUnique | backend/src/helpers/token.ts:175-211 | validation keeps at most one live record per type and subject |
| TokenProperties.AttemptKeepsLiveKeysUnique | backend/src/helpers/token.ts:164-211 | the same, for the checks after any lookup |
| TokenProperties.SuccessConsumes | backend/src/helpers/token.ts:210-211 | a correct code removes exactly the matched record |
| TokenProperties.SecondUseNotFound | backend/src/helpers/token.ts:154-211 | after success on the only matching record, the same attempt again is not found |
| TokenProperties.WrongCodeLockout | backend/src/helpers/token.ts:175-198 | n wrong codes against a budget of n report n - 1 down to 0 and leave the store without that record |
| TokenProperties.AttemptsSplit | backend/src/helpers/token.ts:126-212 | a + b attempts are a attempts followed by b attempts |
| TokenProperties.MfaLockout | backend/src/helpers/token.ts:175-198 | against a lone MFA record, five wrong codes report 4, 3, 2, 1 and 0 tries left, and a sixth finds nothing |
| TokenProperties.IssueThenValidate | backend/src/helpers/token.ts:51-212 | with no expired record of the same type and subject left in the store, the secret just issued is accepted at any time from issue up to and including its expiry |
| TokenProperties.LookupLiveFirst | backend/src/helpers/token.ts:154 | the corrected lookup: some matching record if and only if any record matches, and the first live match whenever one is live |
| TokenProperties.ValidateLiveFirst | backend/src/helpers/token.ts:154-211 | validation with the corrected lookup: the checks of `Attempt` on the first live match, or else on the first match |
| TokenProperties.LiveFirstOutcomes | backend/src/helpers/token.ts:154-171 | with the corrected lookup, expiry is reported only when no matching record is live, and not found exactly when none matches |
| TokenProperties.IssueThenValidateLiveFirst | backend/src/helpers/token.ts:51-212 | with the corrected lookup, the secret just issued is accepted at any time before its expiry, whatever expired records linger |
| TokenProperties.StaleRecordShadowsFreshToken | backend/src/helpers/token.ts:109-171 | a concrete store where the fresh MFA code is refused as expired as written, and accepted with the corrected lookup |
| TokenProperties.ReapedNeverExpired | backend/src/models/auth/token/tokenData.models.ts:35-37 | once the TTL index has run at `now`, validation at `now` never reports expiry |
| TokenResponses.RejectionResponse | backend/src/helpers/token.ts:158-207 | a missing token answers 500 `internal_server_error` with the message as `exception`; an expired token or a wrong code answers 401 `unauthorized` with code `mfa_expired` or `mfa_invalid` and logs its message; all are logged at `info` |
| TokenResponses.ThrownAsWritten | backend/src/helpers/token.ts:158-207 | through the exports, validation throws the not-found `Error` unchanged and a `TypeError` in place of each `UnauthorizedRequestError` |
| TokenResponses.RejectionAsWritten | backend/src/helpers/token.ts:158-207 | as written, every rejection, expired tokens and wrong codes included, ends in Express's 500 page, not logged by the handler's logger |

## Left out

- Randomness: `crypto.randomInt` and `crypto.randomBytes` are not modelled. Their results are inputs whose range is required.
- bcrypt: salts, the work factor (`config.saltRounds`) and timing are not modelled. `Hash` is an injective stand-in.
- Time: the source reads the clock twice per call, once for the expiry and once for the upsert filter. The model uses one `now` per call.
- Timestamps: `createdAt`/`updatedAt` (`timestamps: true`) are not modelled.
- Type validation: the schema's enum on `type` lists `organizationInvitation` where the helper uses `enterpriseInvitation`. No validator runs on this write path: the issuance upsert passes no `runValidators`, and the connection sets only `strictQuery`. The model accepts any type string, as that path does.
- Update semantics: Mongo's `$set` merge is modelled only as overwriting the listed fields.
- Reaping: the TTL monitor's timing is not modelled. It appears only as the explicit step `Reap(now)`, which removes records whose `expiresAt` is before `now`.
- Concurrency: races between simultaneous issuance and validation of the same record are not modelled.
- `Format`: the `datetime_iso`, `application` and `request_id` fields are left out (clock, environment and request headers). The order of keys is not modelled.
- Stack traces: the text of a stack captured by the runtime is not modelled (`Captured` / `CapturedFrames`). Where the source would apply `Object.assign` to a value under `context.tags` that is neither an array nor a string, the model treats it as contributing nothing.
- Handler output: what the logger writes is left out; only the method chosen and the error handed to it are modelled. The response body is modelled as the error's own enumerable fields (`ResponseBody`), named rather than as JSON text; key order and the serialization of context values are not modelled.
- Express's final handler: modelled only by its 500 status. Its HTML page, its headers and its write to stderr outside the test environment are left out.
- Token.TokenStore.ValidateToken: keeps the lookup as written, with no expiry condition, since that is the behaviour of the helper. The corrected lookup is `TokenProperties.LookupLiveFirst`, and its property is proved for `TokenProperties.ValidateLiveFirst`.
- Errors.Make: the ten factories are one function of a `Kind`. Calling them through the module's exports, as written, is `UnboundFactoryCall` (see Findings), and its effect on the handler and on validation is `ErrorHandler.HandleAsWritten` and `TokenResponses.ThrownAsWritten`. The rest of the model, like the token helper's errors, uses the bound factories.
- Outside the core: express wiring, configuration, database connection, logging setup, health checks, SMTP delivery, rate limiting, zod validation wrappers, and the services and signup helpers that only forward to the token helper are not part of this model.

## Findings

| source | as written | input that shows it | evidently intended | confidence | as-written member | corrected member |
|---|---|---|---|---|---|---|
| backend/src/helpers/token.ts:154 | validation's `findOne` has no expiry condition, so an expired record of the same type and subject that the TTL monitor has not yet removed, and that comes first in the store, shadows the record just issued | an MFA record for `a@b.c` that expired at 100 is stored; a code is issued at 200 (the upsert skips the expired record and inserts a new one); validating that code at 200 fails with `mfa_expired` | validate against the live record when there is one | not executed | TokenProperties.StaleRecordShadowsFreshToken | TokenProperties.IssueThenValidateLiveFirst |
| backend/src/utils/errors.ts:157-168 | the factories are destructured off the `CustomErrors` instance, so each exported function runs without a receiver and `this.createError` throws a `TypeError` | any call such as `UnauthorizedRequestError({})` throws a `TypeError`; the handler's own `InternalServerError` call throws again, so Express's final handler answers 500 with its own page, with no JSON error body and nothing logged by the handler's logger | bind the methods, or define them as arrow functions, so each factory returns its `RequestError` | not executed | ErrorHandler.UnboundFactoriesReachFinalHandler | Errors.Make |
