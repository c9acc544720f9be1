# Verification of the authentication service

The service keeps users, identities at external providers, e-mail verification codes and refresh
tokens in one PostgreSQL database, and changes them only in short transactions. This project models
that store and every request that writes to it, and proves what holds over whole runs.

## How the files fit together

* `Model`, `Operations`: the four tables, and each write request as a function from store to store
  and answer, as it acts when it runs alone and nothing fails.
* `Base64Url`, `Uuids`, `UuidForms`, `Strings`, `RawTokens`: the raw refresh token, its printer and
  its parser, character by character. The two readers of an id, the Go library and the database, are
  separate functions because they accept different strings; `UuidForms` says exactly which.
* `TokenEffects`, `TokenHistory`, `TokenChains`: refresh tokens over any history of requests, read
  off the history alone: what was minted, what was spent, the answer to every refresh and logout,
  chains of rotations, conservation.
* `Accounts`, `AccountHistory`, `CodeHistory`, `EmailDrift`: the invariant across users, identities
  and codes, and what a history says about codes, password logins and sign-ins through a provider.
* `RotationSteps`, `Interleavings`: refresh, logout and login as concurrent transactions, statement
  by statement with row locks, uncommitted writes and a stop at any point; the refinement to
  `Operations`, and the token theorems for every interleaving.
* `Progress`, `Rivals`: the other direction. Whatever the others are doing, a request can begin, stop,
  and run to its end with its atomic effect and answer if nobody holds its row; two refreshes of one
  token are open together, one waits for the other, and is refused.
* `VerifySteps`, `CodeRaces`, `CodeRuns`: verify and resend as concurrent transactions, exactly where
  concurrency breaks what serial requests keep, and how their statements relate to `Operations`.
* `Persistence`, `RefreshTokenService`, `UserPatchSql`, `UserService`, `AuthService`, `Handlers`:
  the code in its own imperative form, transaction object, repositories, services and handlers,
  proved against `Operations` with a failure possible at every statement. Here one transaction runs
  at a time; `RotationSteps` and `VerifySteps` are about several at once.
* `Server`: the handlers behind the routes, together with the history of the requests they served;
  any sequence of calls, one after the other, keeps the history and the database in step, so every
  history theorem is about what these handlers leave.
* `OidcConfig`, `OidcVariables`: discovery and merging of provider settings from the environment, and
  what one variable does to the configuration.
* `Shutdown`: signal, `Shutdown`, `Wait`, the final select and the deadline as a step system.

## Assumptions

* The table definitions are not part of the repository. Ids are primary keys, `users.email` is
  unique (auth_service/internal/domain/users/service.go:98 relies on it), other unique or foreign
  keys are not assumed. That queries by hash or by provider and subject have at most one answer is
  proved, not assumed.
* Generated ids, secrets and codes are inputs; a served request's ids are unused in all four tables
  and its code was never issued before.
* The MAC, the hash and the password hash are injective: digests are free terms of what was hashed.
* The clock does not go back; times are seconds and inputs.
* A commit that fails has no effect. The isolation level is the default, read committed. A locking
  statement waits until its rows are free and then sees their latest committed versions; the set of
  rows a `DELETE ... WHERE user_id` works on is fixed when it starts.
* Raw tokens and variable names are strings of single-byte characters, letters are ASCII.

## Where the code differs from what it seems to intend

* Changing the e-mail of a provider user passes the user's id where the identity's id belongs
  (auth_service/internal/domain/users/service.go:142). No identity row ever changes, and a claim that
  returns to the first address leaves the user's address stale: `EmailDrift` proves exactly when.
* A verification code's expiry time is stored but never compared
  (auth_service/internal/domain/users/service.go:182-200), so nothing is claimed about expiry.
* `IsRefreshTokenNotFound` tests for the invalid-token error
  (auth_service/internal/api_errors/refresh_token_errors.go:19-21): a logout with a wrong secret is
  answered 404, an unknown token 500 (`TokenHistory.LogoutAnswered`, `Handlers.Logout`,
  `Server.Service.Logout`).
* The Go library accepts a UUID in URN form and between any two characters, which the database column
  does not read (auth_service/internal/domain/refresh_token/service.go:161-165): such a token passes
  the service's own check and fails in the database. `UuidForms.AcceptedIsReadIff` has the exact split.
* `Resend` reads its user without a lock and its delete works on the rows it saw when it started
  (auth_service/internal/domain/users/handler.go:286-316), so "one code per unverified user, none for
  a verified one" is a theorem about serial requests. Under concurrency every unverified user still
  has at least one code (`CodeRaces.UnverifiedHaveCodes`). The rest is broken exactly by the commit of
  a resend whose user was verified meanwhile or has a code its delete did not see
  (`TidyUnlessTooLate`, `TidyThroughoutIff`); `StrayCodeExample` and `TwoCodesExample` are runs of the
  two kinds. "Meanwhile" is between the resend's own read of the user and its commit
  (`CodeRuns.StrayMeansVerifiedMeanwhile`).
* The final select logs a clean exit also when `Shutdown` failed
  (auth_service/internal/api_facade/facade.go:199-203): behind `waitDone` such an exit with a handler
  still running can follow exactly while the listener is open or a connection is left
  (`Shutdown.BusyCleanExitIff`); `CleanExitWhileBusyExample` is a run. No handler was counted when
  `Wait` returned, some time after the signal (`Shutdown.QuietBeforeClean`).
* Setting one variable can change a second field of its provider
  (auth_service/internal/config/config.go:179-188): a client id also enables a provider that is not
  configured, and the first variable of a provider configured without a type also fills the type in.
  `OidcVariables.OneFieldPerVariable` gives both conditions exactly, for setting, changing and
  removing a variable or its file variant; `SecretFillsTypeExample` is an instance. A variable in
  which prefix and suffix share their underscore, such as `OIDC_CLIENT_ID`, announces a provider of
  its own: `OidcConfig.AnnouncedIff`.

## Model

| member | source | states |
|---|---|---|
| Base64Url.DecodeOfEncode | auth_service/internal/encoder/service.go:11-13 | every byte string survives encoding without padding |
| Base64Url.EncodeOfDecode | auth_service/internal/encoder/service.go:11-13 | a string the strict decoder accepts is the encoding of its decoding, so encodings are canonical |
| Base64Url.EncodeToString | auth_service/internal/encoder/service.go:11-13 | the group-by-group loop computes the recursive definition for every input |
| Base64Url.GroupIsBigEndian | auth_service/internal/encoder/service.go:11-13 | three bytes and their four digits are the same number, most significant first |
| Base64Url.Alphabet | auth_service/internal/encoder/service.go:11-13 | the 64 digits by position: A to Z, a to z, 0 to 9, hyphen, underscore |
| Base64Url.EncodedLength | auth_service/internal/encoder/service.go:11-13 | an encoding has a digit for every six bits or part of them |
| Base64Url.Vectors | auth_service/internal/encoder/service.go:11-13 | the one-, two- and three-byte test vectors of section 10 of RFC 4648 |
| Uuids.DbParseText | auth_service/internal/domain/refresh_token/repository.go:80-84 | the database reads the canonical text of every UUID as that UUID |
| Uuids.GoAcceptsText | auth_service/internal/domain/refresh_token/service.go:161-163 | the library accepts the canonical text of every UUID |
| Uuids.UrnIsUnreadable | auth_service/internal/domain/refresh_token/service.go:161-165 | an id in URN form passes the library's check and is never readable for the database |
| Uuids.CanonicalLayout | auth_service/internal/domain/refresh_token/service.go:73 | where each digit and hyphen of a canonical text stands |
| Uuids.HexDigitIs | auth_service/internal/domain/refresh_token/service.go:73 | the digits of a canonical text are 0 to 9 and a to f in lower case |
| Uuids.HexIsRead | auth_service/internal/domain/refresh_token/service.go:161-165 | hexadecimal digits are read in either case |
| UuidForms.FormsAreAccepted | auth_service/internal/domain/refresh_token/service.go:161-163 | the library accepts every UUID hyphenated or bare in either case, and hyphenated also as URN or between any two characters |
| UuidForms.FormsAreRead | auth_service/internal/domain/refresh_token/repository.go:80-84 | the database reads both forms, with or without braces, as that UUID |
| UuidForms.AcceptedIsReadIff | auth_service/internal/domain/refresh_token/service.go:161-165 | of the strings the library accepts the database reads exactly those of 32 or 36 characters and those with a brace at each end |
| RawTokens.ExtractOfPrint | auth_service/internal/domain/refresh_token/service.go:144-166 | extracting the id undoes printing, for every id and secret |
| RawTokens.KeyOfPrint | auth_service/internal/domain/refresh_token/service.go:80-81 | a printed token selects the row of its own id |
| RawTokens.AcceptedShape | auth_service/internal/domain/refresh_token/service.go:144-166 | an accepted string is the prefix, the extracted id, one dot and a dot-free rest |
| RawTokens.PrintInjective | auth_service/internal/domain/refresh_token/service.go:80-81 | different ids or secrets never print the same token |
| RawTokens.PrintedForm | auth_service/internal/domain/refresh_token/service.go:72-81 | a minted token is the 84 characters rfr_, canonical id, dot, 43 digits of a 32-byte secret |
| Strings.SplitParts | auth_service/internal/domain/refresh_token/service.go:151-154 | splitting leaves no separator in a part, and the parts with separators between them are the string |
| TokenEffects.EffectSound | auth_service/internal/domain/token_bundle/service.go:52-107 | every request changes the token table by one of four effects, each only when allowed, and removes no user |
| TokenEffects.FailureKeepsStore | auth_service/internal/database/persistence.go:68-80 | a request answered with an error leaves all four tables as they were |
| TokenHistory.TableIsRecord | auth_service/internal/domain/refresh_token/service.go:72-109 | in every history the token table is exactly what was minted, with exactly the spent tokens revoked |
| TokenHistory.LookupAgrees | auth_service/internal/domain/refresh_token/service.go:111-135 | lookup by id and MAC finds a row for exactly the strings that were handed out, and that token's row |
| TokenHistory.OtherSpellingRefused | auth_service/internal/domain/refresh_token/service.go:128-132 | another string naming the id of a handed-out token is refused as invalid |
| TokenHistory.RefreshSucceedsIff | auth_service/internal/domain/token_bundle/service.go:73-107 | a refresh succeeds exactly when its token was minted, not spent, in its thirty days of 2592000 seconds, and the new id is unused |
| TokenHistory.SingleRedemption | auth_service/internal/domain/token_bundle/service.go:85-106 | after a refresh or logout of a token every later refresh of it is answered as revoked |
| TokenHistory.OwnersExist | auth_service/internal/domain/token_bundle/service.go:79-83 | the owner of every token row exists, so the owner check never fails |
| TokenHistory.UnissuedRefused | auth_service/internal/domain/refresh_token/service.go:111-135 | a string never handed out is refused as malformed without an extracted id, as unreadable if the database cannot read that id, as not found if no token has it, and only else as invalid |
| TokenHistory.RefreshAnswered | auth_service/internal/domain/token_bundle/service.go:73-107 | in every history the answer to a refresh, refusals included and in their order, is the one its predecessors imply |
| TokenHistory.LogoutAnswered | auth_service/internal/domain/refresh_token/service.go:98-135 | in every history a logout succeeds exactly for tokens handed out, spent or not, and refuses others as above |
| TokenHistory.RevokedWhenSpent | auth_service/internal/domain/refresh_token/repository.go:53-56 | a spent token is marked with the start of the last transaction that spent it |
| TokenChains.ChainsOverHistory | auth_service/internal/domain/token_bundle/service.go:52-107 | tokens always form disjoint simple paths, rooted at logins and callbacks, of one user each, revoked but for the last |
| TokenChains.OneLivePerChain | auth_service/internal/domain/token_bundle/service.go:99-106 | two live tokens are never on the same path |
| TokenChains.LiveTokensConserved | auth_service/internal/domain/token_bundle/service.go:99-106 | a user's live tokens are the chains started for them less the logouts that found a live token |
| Accounts.RegisterKeepsInv | auth_service/internal/domain/users/handler.go:131-161 | registering keeps the invariant across users, identities and codes |
| Accounts.ResendKeepsInv | auth_service/internal/domain/users/handler.go:277-321 | resending replaces the user's code and keeps the invariant |
| Accounts.VerifyCases | auth_service/internal/domain/users/service.go:182-200 | under the invariant a found code verifies its user and nothing else can fail |
| Accounts.VerifyKeepsInv | auth_service/internal/domain/users/service.go:182-200 | verifying consumes the code and keeps the invariant |
| Accounts.ResolveCases | auth_service/internal/domain/users/service.go:125-176 | what resolving does in each branch; the e-mail change never meets a unique violation and changes no identity |
| Accounts.ResolveKeepsInv | auth_service/internal/domain/users/service.go:125-176 | resolving a claim keeps the invariant |
| AccountHistory.InvOverHistory | auth_service/internal/domain/users/service.go:74-200 | the invariant holds after every history |
| AccountHistory.OneCodePerUnverifiedUser | auth_service/internal/domain/users/handler.go:131-161 | in every serial history an unverified user has exactly one code and a verified user none |
| AccountHistory.OneIdentityPerPasswordlessUser | auth_service/internal/domain/users/service.go:157-175 | a user has no password exactly when one identity points to them, never two, and is then verified |
| AccountHistory.EmailsStayDistinct | auth_service/internal/domain/users/service.go:131-149 | no two users ever share an e-mail address |
| AccountHistory.HistoryKeepsAccounts | auth_service/internal/domain/users/repository.go:62-110 | from any point of a history on users stay, keep their hash, stay verified, and identities never change |
| AccountHistory.VerifiedForGood | auth_service/internal/domain/users/service.go:192-194 | a verified e-mail never becomes unverified |
| AccountHistory.BindingIsStable | auth_service/internal/domain/users/service.go:126-155 | a provider and subject resolve to the same single identity and user for ever |
| AccountHistory.ResolveTwice | auth_service/internal/domain/users/service.go:125-176 | resolving a claim again adds no row and changes at most the user's time stamp |
| CodeHistory.VerifySucceedsIff | auth_service/internal/domain/users/service.go:182-200 | a code is accepted for a user exactly when it is their last delivered one and none was accepted before |
| CodeHistory.SupersededCodeRefused | auth_service/internal/domain/users/handler.go:302-316 | a code followed by a later delivery to the same user is always refused |
| CodeHistory.CodeRefusedIff | auth_service/internal/domain/users/service.go:182-200 | a code is accepted exactly when it is the last one of somebody still to be verified, and refused as invalid otherwise |
| CodeHistory.ResendAnswered | auth_service/internal/domain/users/handler.go:286-316 | a resend sends a code exactly to a registered address whose user is still to be verified |
| CodeHistory.LoginSucceedsIff | auth_service/internal/auth/service.go:41-64 | a password login succeeds exactly for the registered password of a user whose code was accepted |
| CodeHistory.LoginAnswered | auth_service/internal/auth/service.go:41-64 | the answer to every password login: not verified whatever the password for a registered user without an accepted code, wrong credentials for every other refusal |
| CodeHistory.LoginAfterVerification | auth_service/internal/auth/service.go:53-57 | before every successful login come the delivery of a code to that user and the acceptance of that code |
| EmailDrift.IdentityEmailAgreesIff | auth_service/internal/domain/users/service.go:142-148 | an identity has its user's address exactly as long as the user's row was never updated |
| EmailDrift.ResolvedEmailIsClaimedIff | auth_service/internal/domain/users/service.go:131-151 | after resolving the user has the claimed address except exactly when the identity already recorded it and the user moved on |
| EmailDrift.ReturningEmailIsIgnored | auth_service/internal/domain/users/service.go:131-151 | whoever moves to another address and back keeps the other one |
| EmailDrift.StaleEmailExample | auth_service/internal/domain/users/service.go:142 | a history of three served callbacks, from the empty store, that ends with a stale address |
| RotationSteps.StepKeeps | auth_service/internal/domain/refresh_token/repository.go:47-89 | every step of every transaction keeps locks exclusive, reads valid, ids unique and the store equal to its log |
| RotationSteps.CommitIsAtomic | auth_service/internal/domain/token_bundle/service.go:73-107 | what a committing transaction writes is what its request does atomically at that moment, with the same answer |
| RotationSteps.ReadAgainKeeps | auth_service/internal/domain/refresh_token/service.go:98-109 | the second locked read inside a refresh finds what the first found |
| Interleavings.InterleavingIsSerial | auth_service/internal/domain/token_bundle/service.go:73-107 | every interleaving leaves the store, and gives the answers, of its requests run one by one in decision order |
| Interleavings.InterleavedSingleRedemption | auth_service/internal/domain/refresh_token/repository.go:47-89 | in every interleaving a token is redeemed at most once and never after its logout |
| Interleavings.InterleavedLookup | auth_service/internal/domain/refresh_token/service.go:111-135 | in every interleaving lookup finds exactly the handed-out strings, each with its own row |
| Interleavings.InterleavedRefreshIff | auth_service/internal/domain/token_bundle/service.go:73-107 | in every interleaving a refresh succeeds exactly when its token was minted, unspent and in date at its decision, and the new id unused |
| Interleavings.InterleavedLoginIff | auth_service/internal/auth/service.go:41-64 | in every interleaving a password login succeeds exactly for the registered password of a user whose code was accepted before its decision |
| Interleavings.InterleavedAnswers | auth_service/internal/domain/token_bundle/service.go:73-107 | in every interleaving every answer to a refresh, logout or login, refusals included, is the one that what was decided before it implies |
| Interleavings.InterleavedChains | auth_service/internal/domain/token_bundle/service.go:52-107 | in every interleaving the committed tokens are disjoint chains |
| Interleavings.InterleavedConservation | auth_service/internal/domain/token_bundle/service.go:99-106 | in every interleaving live tokens are chains started less live tokens logged out |
| Interleavings.WaitingIsForARunner | auth_service/internal/domain/refresh_token/repository.go:80-84 | a transaction that waits for a row waits for one that can take its next step: no deadlock |
| Interleavings.HolderRuns | auth_service/internal/domain/refresh_token/repository.go:80-84 | a transaction that holds a row can always take its next statement |
| Progress.BeginAnytime | auth_service/internal/auth/handler.go:146-163 | whatever transactions are open, another request can begin, at the time it begins |
| Progress.AbortAnytime | auth_service/internal/database/persistence.go:68-80 | an open transaction can stop at any statement, leaving no effect and no answer |
| Progress.WholeAnytime | auth_service/internal/domain/users/handler.go:131-161 | a registration, verification, resend or callback with new ids can commit between the statements of others, with its atomic effect |
| Progress.TickAnytime | auth_service/internal/domain/token_bundle/service.go:92 | time can pass between any two statements |
| Progress.StatementEnabled | auth_service/internal/domain/refresh_token/repository.go:80-84 | a transaction whose row nobody else holds can take its next statement, at whatever stage it is |
| Progress.BegunRunsToItsEnd | auth_service/internal/domain/token_bundle/service.go:73-107 | a begun refresh, logout or login whose row nobody else holds can run to its end, leaving the store and the answer of its atomic request and the others as they were |
| Progress.AtomicRequestRuns | auth_service/internal/domain/token_bundle/service.go:73-107 | the converse of the refinement: on every reachable system every atomic refresh, logout and login is a run of its statements, if nobody holds its row |
| Rivals.SecondWaits | auth_service/internal/domain/refresh_token/repository.go:80-84 | two refreshes of one token are open together, the first holds the row and the second cannot read it |
| Rivals.TwoRefreshes | auth_service/internal/domain/refresh_token/repository.go:80-84 | wherever a token can be redeemed, two refreshes of it can be open together, of which the first is served and the second refused as revoked |
| Rivals.TwoRefreshesExample | auth_service/internal/domain/refresh_token/repository.go:80-84 | such a run from the empty store, after a first sign-in |
| VerifySteps.StepKeeps | auth_service/internal/domain/email_verification_tokens/repository.go:45-72 | every step of concurrent verifies and resends keeps rows, pending inserts and consumed codes consistent |
| VerifySteps.CodeConsumedOnce | auth_service/internal/domain/email_verification_tokens/repository.go:45-60 | in every interleaving a code is consumed at most once and a consumed code has no row |
| VerifySteps.VerifyConsumesItsRow | auth_service/internal/domain/users/service.go:182-200 | a committing verify removes the one row of its code and verifies that row's user |
| CodeRaces.UnverifiedHaveCodes | auth_service/internal/domain/users/handler.go:277-321 | in every interleaving every unverified user has at least one code |
| CodeRaces.TidyUnlessTooLate | auth_service/internal/domain/users/handler.go:286-316 | one code per unverified user and none for verified ones is kept by a step exactly if it is not the commit of a resend whose user was verified meanwhile or has a code its delete did not take |
| CodeRaces.TidyThroughoutIff | auth_service/internal/domain/users/handler.go:286-316 | a run keeps that through its first n steps exactly if none of them is such a commit |
| CodeRaces.CleanUnlessStray | auth_service/internal/domain/users/handler.go:277-321 | the half about verified users on its own: a step leaves them without codes exactly if it adds no code for one and verifies none who has a second |
| CodeRaces.StrayCodeExample | auth_service/internal/domain/users/handler.go:286-312 | a run that ends with a live code for a verified user |
| CodeRaces.TwoCodesExample | auth_service/internal/domain/users/handler.go:302-316 | a run of two resends that ends with two codes for one unverified user |
| CodeRuns.BeginAnytime | auth_service/internal/domain/users/handler.go:277-284 | whatever transactions are open, another verify or resend can begin |
| CodeRuns.RegisterAgrees | auth_service/internal/domain/users/handler.go:131-161 | a registration adds user and code as the atomic request does |
| CodeRuns.VerifyAgrees | auth_service/internal/domain/users/service.go:182-200 | in any state a verify whose statements run without interruption leaves codes and flags as the atomic request does, and changes nothing for an unknown code |
| CodeRuns.ResendAgrees | auth_service/internal/domain/users/handler.go:286-316 | in any state a resend whose statements run without interruption leaves codes and flags as the atomic request does, and changes nothing for a verified user or an unknown address |
| CodeRuns.CommittedResendReadUnverified | auth_service/internal/domain/users/handler.go:286-300 | in every run a resend that commits read its user, as unverified, after it began and before it committed |
| CodeRuns.StrayMeansVerifiedMeanwhile | auth_service/internal/domain/users/handler.go:286-316 | if that user is verified when the resend commits, a verify of theirs committed between the read and the commit |
| Persistence.Transaction.Commit | auth_service/internal/database/persistence.go:95-101 | the flag is set exactly when the tables were replaced; a failed commit changes nothing |
| Persistence.Database.RollbackUnlessCommitted | auth_service/internal/database/persistence.go:68-80 | reports true and ends the transaction exactly if it was not committed |
| Persistence.Database.BeginContext | auth_service/internal/database/persistence.go:59-66 | a new uncommitted transaction that sees the committed tables |
| Persistence.Transaction.Rollback | auth_service/internal/database/persistence.go:82-88 | the transaction has ended; doing it twice is harmless |
| RefreshTokenService.GenerateForUser | auth_service/internal/domain/refresh_token/service.go:72-96 | fills the secret of 32 bytes, prints the 84-character token and inserts its row, or fails and says why |
| RefreshTokenService.Get | auth_service/internal/domain/refresh_token/service.go:111-135 | answers as the lookup function does |
| RefreshTokenService.RevokeRaw | auth_service/internal/domain/refresh_token/service.go:98-109 | looks up, then revokes that row, whether revoked before or not |
| RefreshTokenService.RevokeById | auth_service/internal/domain/refresh_token/repository.go:47-72 | marks exactly the row with the id, or reports that there is none |
| RefreshTokenService.CreateRow | auth_service/internal/domain/refresh_token/repository.go:26-45 | adds exactly the row, or reports a duplicate id and changes nothing |
| RefreshTokenService.GetById | auth_service/internal/domain/refresh_token/repository.go:74-89 | the row of the id the database reads, no row, or an unreadable id |
| RefreshTokenService.Read | auth_service/internal/domain/refresh_token/service.go:75-78 | on success the whole buffer holds the random bytes |
| RefreshTokenService.Save | auth_service/internal/domain/refresh_token/service.go:83-95 | inserts the row of the raw token: its MAC, its owner, thirty days |
| UserPatchSql.BuildUpdate | auth_service/internal/domain/users/repository.go:62-107 | the SET list is the literal clauses of the fields the patch has, in order, then the time stamp; read back and run with its arguments it sets exactly those fields on every row |
| UserPatchSql.EmailPatchText | auth_service/internal/domain/users/repository.go:79-101 | the text for an e-mail patch: email = :email, updated_at = :updated_at |
| UserPatchSql.CollectClauses | auth_service/internal/domain/users/repository.go:68-92 | the clauses so far merge exactly the patch and leave the time stamp out; id and time are bound |
| UserPatchSql.OneMoreClause | auth_service/internal/domain/users/repository.go:74-92 | appending a clause for a new column and binding its value assigns that column and nothing else |
| UserPatchSql.ReadJoined | auth_service/internal/domain/users/repository.go:98-101 | a printed and joined clause list is read back as the same clauses |
| UserService.Create | auth_service/internal/domain/users/service.go:74-108 | inserts the user, or reports a taken e-mail on a unique violation |
| UserService.Update | auth_service/internal/domain/users/repository.go:62-110 | merges the patch into the row, refuses another user's e-mail, reports a missing row |
| UserService.InsertUser | auth_service/internal/domain/users/repository.go:27-46 | adds exactly the row, or reports a unique violation on id or e-mail and changes nothing |
| UserService.GetByEmail | auth_service/internal/domain/users/service.go:110-119 | the one user with the address, or that there is none |
| UserService.GetById | auth_service/internal/domain/users/repository.go:55-60 | whether the user exists |
| UserService.ExecUpdate | auth_service/internal/domain/users/repository.go:100-107 | runs the built statement on the row with the id; no row is no error |
| UserService.FindOrCreateByOAuthIdentity | auth_service/internal/domain/users/service.go:125-176 | does to the transaction what resolving the claim does to the store |
| UserService.CreateIdentityRow | auth_service/internal/domain/user_identities/service.go:44-53 | fills in id and time of the record and inserts it |
| UserService.Find | auth_service/internal/domain/user_identities/service.go:55-66 | the one identity of provider and subject, or that there is none |
| UserService.UpdateEmail | auth_service/internal/domain/user_identities/repository.go:60-70 | changes the identity with the given id if there is one and succeeds either way |
| UserService.FindToken | auth_service/internal/domain/email_verification_tokens/repository.go:45-60 | finds the row whose hash is the code's |
| UserService.CreateToken | auth_service/internal/domain/email_verification_tokens/service.go:49-63 | adds the hashed code with its 180 seconds, or reports a duplicate id |
| UserService.DeleteToken | auth_service/internal/domain/email_verification_tokens/repository.go:62-66 | removes exactly the row with the id |
| UserService.DeleteByUserId | auth_service/internal/domain/email_verification_tokens/repository.go:68-72 | removes exactly the user's rows |
| UserService.VerifyUser | auth_service/internal/domain/users/service.go:182-200 | consumes the code and verifies its user, without looking at the expiry |
| AuthService.Refresh | auth_service/internal/domain/token_bundle/service.go:73-107 | does to the transaction what the atomic refresh does to the store |
| AuthService.GenerateBundle | auth_service/internal/domain/token_bundle/service.go:52-71 | mints for the user, or fails if the access token does |
| AuthService.Login | auth_service/internal/auth/service.go:41-64 | does to the transaction what the atomic login does to the store |
| Handlers.AnsweredTokenIsLive | auth_service/internal/auth/handler.go:76-99 | a raw token is only ever answered together with its committed, unrevoked row |
| Handlers.Login | auth_service/internal/auth/handler.go:48-100 | all or nothing; the response is a fixed one for each answer, 401 or 500 after a failure from outside; the cookie exactly on commit and live |
| Handlers.Logout | auth_service/internal/auth/handler.go:102-144 | all or nothing; 204 exactly on commit or without a cookie, 404 exactly for a wrong secret, and 500 with the cookie untouched for every other refusal and failure |
| Handlers.Refresh | auth_service/internal/auth/handler.go:146-207 | all or nothing; 200 and the new cookie exactly on commit and live; 403 and a cleared cookie exactly for revoked, expired and invalid tokens; 500 with the cookie untouched for every other refusal and failure |
| Handlers.Callback | auth_service/internal/oidc/handler.go:152-215 | all or nothing over resolve and mint; the redirect names the stage that refused; the cookie exactly on commit and live |
| Handlers.Register | auth_service/internal/domain/users/handler.go:118-176 | all or nothing; 201 exactly on commit, 409 exactly for a taken e-mail, else 500; the code is mailed exactly on commit and is then in the table |
| Handlers.Verify | auth_service/internal/domain/users/handler.go:213-248 | all or nothing; 200 exactly on commit; without a failure from outside 400 exactly for a code that is not found, and otherwise 400 or 500 |
| Handlers.HandleResend | auth_service/internal/domain/users/handler.go:277-321 | all or nothing; commits and mails exactly for an unverified user; without a commit it reports an error exactly for a failure or a refusal |
| Server.Service.Login | auth_service/internal/api_facade/facade.go:142-148 | told from the history: 200 for the registered password of a user whose code was accepted, 403 for a user without one, 401 for anything else, unless something failed from outside; history and database stay in step |
| Server.Service.Refresh | auth_service/internal/api_facade/facade.go:142-148 | told from the history: 200 for a token handed out, unspent and in date, which is spent from then on; 403 and a cleared cookie for a spent or old one or another string with the id of one; 500 with the cookie untouched for any other string |
| Server.Service.Verify | auth_service/internal/api_facade/facade.go:142-148 | told from the history: 200 exactly for the last code delivered to a user not verified before, else 400, unless something failed from outside |
| Server.Service.Logout | auth_service/internal/api_facade/facade.go:142-148 | told from the history: 204 for a token handed out, which is spent from then on; 404 for another string with the id of one; 500 with the cookie untouched for any other string |
| Server.Service.Callback | auth_service/internal/api_facade/facade.go:136-140 | the cookie exactly without an error, and live; history and database stay in step |
| Server.Service.Register | auth_service/internal/api_facade/facade.go:142-148 | 201 exactly when the code is mailed; history and database stay in step |
| Server.Service.HandleResend | auth_service/internal/api_facade/facade.go:142-148 | told from the history: a code is mailed exactly to a registered address whose user is not verified, unless something failed; history and database stay in step |
| OidcConfig.KeyUnambiguous | auth_service/internal/config/config.go:59-69 | a variable name belongs to one provider name and one field |
| OidcConfig.SuffixesDiffer | auth_service/internal/config/config.go:61-69 | no name ends in two field suffixes, or in one and the file suffix, so the order of the suffix list does not matter |
| OidcConfig.FileKeysApart | auth_service/internal/config/config.go:224-230 | the file variant of a variable is never another variable nor another's file variant |
| OidcConfig.DiscoverNames | auth_service/internal/config/config.go:199-222 | the loop finds exactly the names some entry announces |
| OidcConfig.NameIn | auth_service/internal/config/config.go:201-220 | the body of the discovery loop, with its early exits, finds what the entry announces |
| OidcConfig.ProperKeyAnnounces | auth_service/internal/config/config.go:206-217 | prefix, name and suffix announce the lower-case name, with and without the file suffix |
| OidcConfig.AnnouncedIff | auth_service/internal/config/config.go:206-217 | a variable name announces a provider exactly when it spells it between prefix and suffix, non-empty, or prefix and suffix share their underscore; the provider is that name in lower case |
| OidcConfig.SharedUnderscoreAnnounces | auth_service/internal/config/config.go:206-217 | for every suffix the entry that shares the underscore announces the lower case of what follows the prefix, with and without the file suffix |
| OidcConfig.MergeOne | auth_service/internal/config/config.go:152-190 | one provider's merge: set values win, a bad boolean fails, a new provider is enabled by its client id |
| OidcConfig.LoadProviders | auth_service/internal/config/config.go:144-194 | fails exactly if a discovered provider has an enabling that is no truth value; every other discovered provider has each set variable as its value, what was configured where it is empty, and its name as type where both are; the others stay as configured |
| OidcConfig.LoadedTakes | auth_service/internal/config/config.go:151-190 | that, of the configuration itself, for every field and the literal truth values |
| OidcConfig.KeyTexts | auth_service/internal/config/config.go:152-179 | the seven variable names of a provider |
| OidcConfig.Cases | auth_service/internal/config/config.go:152-217 | upper and lower case differ for the 26 letters only, by 32 |
| OidcConfig.FirstEntryCounts | auth_service/internal/config/config.go:224-230 | a variable has the value of its first entry and is empty without one |
| OidcConfig.FileWins | auth_service/internal/config/config.go:224-230 | a readable file named by the file variable wins over the variable |
| OidcConfig.LineEndsGo | auth_service/internal/config/config.go:227 | what is cut off a file is exactly the line ends at its end |
| OidcConfig.LoadTwice | auth_service/internal/config/config.go:144-194 | loading twice is loading once |
| OidcVariables.OneFieldPerVariable | auth_service/internal/config/config.go:144-230 | between two environments that differ in one variable or its file variant every other provider is loaded alike, and its own provider alike up to that field, its type exactly when discovery starts or stops finding a provider without one, and its being enabled exactly when a client id appears or goes for an unconfigured provider whose enabling is unset |
| OidcVariables.MergeOneField | auth_service/internal/config/config.go:152-188 | settings that differ in one field merge to providers that differ in that field, and in being enabled exactly when a client id appears for an unconfigured provider whose enabling is unset |
| OidcVariables.MergeFirstField | auth_service/internal/config/config.go:179-188 | the first setting of a provider changes its field, fills in a missing type, and enables exactly as a client id of an unconfigured provider does |
| OidcVariables.SecretFillsTypeExample | auth_service/internal/config/config.go:186-188 | a provider configured without a type whose secret is set in the environment is loaded with the secret and with its name as type |
| OidcVariables.ElsewhereDiscovers | auth_service/internal/config/config.go:199-222 | editing one variable or its file variant can make discovery find or miss that variable's provider only |
| OidcVariables.WithIsElsewhere | auth_service/internal/config/config.go:224-230 | adding an entry for a variable or its file variant is such an edit |
| OidcVariables.OthersLoaded | auth_service/internal/config/config.go:151-190 | between two environments that differ in one variable or its file variant every other provider is loaded alike |
| OidcVariables.UndiscoveredIsUnset | auth_service/internal/config/config.go:199-222 | a provider no entry announces has no setting, so not visiting it loses nothing |
| OidcVariables.DiscoveredIsReadIff | auth_service/internal/config/config.go:152-153 | a variable can change what its provider is loaded from exactly when its name part is upper case |
| Shutdown.CounterIsTracked | auth_service/internal/middleware/request_tracker.go:8-17 | in every interleaving the counter is the number of tracked handlers running |
| Shutdown.CleanExitIsQuiet | auth_service/internal/api_facade/facade.go:198-203 | a clean exit with a nil shutdown error means no handler is running and none could start |
| Shutdown.QuietBeforeClean | auth_service/internal/api_facade/facade.go:192-196 | in every run in which main got behind waitDone there is a moment after the signal, when Wait returned, at which no handler is tracked |
| Shutdown.TrackedThroughout | auth_service/internal/api_facade/facade.go:192-205 | if some handler is tracked at every moment since the signal, main is in the final select or was forced out of it, 25 seconds after the signal or later |
| Shutdown.CleanExitReachable | auth_service/internal/api_facade/facade.go:182-203 | unless Shutdown failed already, the clean exit without an error can be reached by handlers ending, the server and main alone, without time passing or a client hanging up |
| Shutdown.NothingComesAfter | auth_service/internal/api_facade/facade.go:182-186 | once the listener is closed the number of steps left, other than time passing, is bounded beforehand: clients cannot keep the server up |
| Shutdown.HandlersNeverWait | auth_service/internal/middleware/request_tracker.go:8-17 | at every point of a shutdown requests can arrive on open connections, be counted or not, and end; new connections and further requests need the listener |
| Shutdown.ServingEnds | auth_service/internal/api_facade/facade.go:170-177 | a serving main gets the signal or the failure of the server |
| Shutdown.BusyAtCleanExit | auth_service/internal/api_facade/facade.go:198-203 | a handler still running at a clean exit means the shutdown failed, no earlier than 25 seconds after the signal, although no handler was tracked when Wait returned |
| Shutdown.BusyCleanExitIff | auth_service/internal/api_facade/facade.go:193-203 | once main is behind waitDone a clean exit with a running handler can follow exactly if the listener is open or a connection is left |
| Shutdown.DeadlineEnds | auth_service/internal/api_facade/facade.go:198-206 | in every continuation main has left as soon as the at most four remaining steps of main and of Shutdown were taken; past the deadline one of them is always enabled |
| Shutdown.ExitsByDeadline | auth_service/internal/api_facade/facade.go:157-206 | in every run in which time waits at the deadline for what is due, main has left within 25 seconds of the signal, or its next step is enabled when they are over |
| Shutdown.DueIsEnabled | auth_service/internal/api_facade/facade.go:198-206 | past the deadline the step main waits for is enabled in every reachable state, and no handler, connection, waiter or clock step changes that |
| Shutdown.OwnStepsRunOut | auth_service/internal/api_facade/facade.go:182-206 | along every continuation the steps taken and the steps left add up to no more than at first |
| Shutdown.CleanExitWhileBusyExample | auth_service/internal/api_facade/facade.go:193-203 | a run in which that happens |

## Left out

- HTTP decoding, JSON, routing, request validation before the transaction (name length, password rules), log lines, health probes and the text of e-mails: input and output without state.
- The read-only endpoint that returns one user.
- bcrypt, HMAC, SHA-256 and access-token signing: abstract, as stated under Assumptions; the access-token library is not part of this model.
- The OAuth handshake before the transaction begins: it rests on libraries, and its state and nonce live in an object shared between requests.
- What a browser does with cookies: the model stops at the value the server delivered.
- Revoking a whole chain when a spent token is presented again: the service does not do it.
- Row locks on users, and lock time-outs: a transaction can stop at any point, which includes being timed out.
- Callbacks, registrations, verifications and resends inside `RotationSteps`: they commit there as whole transactions; their own statements interleave in `VerifySteps` only as far as codes and verified flags go.
- The other settings `Load` reads, and JSON defaults: the merge loop starts from any configuration.
- Letters outside ASCII in variable names, for which Go's case mapping is not modelled.
- The job that `Resend` spawns is not counted by the tracker, so `Shutdown` does not speak about it.
- CodeRaces.CleanUnlessStray: is about verified users only; `CodeRaces.TidyUnlessTooLate` has both halves.
- Server.Service.Login: one request at a time, because its body runs in one thread of the model while the routes serve requests side by side; `Interleavings.InterleavedLoginIff` is the theorem for concurrent logins.
- Server.Service.Refresh: one request at a time, because its body runs in one thread of the model while the routes serve requests side by side; `Interleavings.InterleavedRefreshIff` and `InterleavedSingleRedemption` are the theorems for concurrent refreshes.
- Server.Service.Logout: one request at a time, because its body runs in one thread of the model while the routes serve requests side by side; `Interleavings.InterleavedSingleRedemption` is the theorem for concurrent logouts.
- Server.Service.Verify: one request at a time, because its body runs in one thread of the model while the routes serve requests side by side; `VerifySteps.CodeConsumedOnce` and `VerifyConsumesItsRow` are the theorems for concurrent verifies.
- Server.Service.Callback: one request at a time, because its body runs in one thread of the model while the routes serve requests side by side; `RotationSteps` lets callbacks commit between the statements of other transactions.
- Server.Service.Register: one request at a time, because its body runs in one thread of the model while the routes serve requests side by side; `RotationSteps` and `VerifySteps` let registrations commit between the statements of other transactions.
- Server.Service.HandleResend: one request at a time, because its body runs in one thread of the model while the routes serve requests side by side; `CodeRaces` is about concurrent resends.
