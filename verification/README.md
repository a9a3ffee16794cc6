# A verified model of the login, consent and logout provider

The provider stands between Ory Hydra, which owns OAuth challenges, and Ory Kratos, which owns sessions.
It turns each Hydra challenge into a short-lived, browser-bound, single-use transaction, sends the browser
to an external UI, and ends the flow with an accept or a reject that rests on the session, its assurance
and freshness, the policy, and a filter over claims. This project models that engine and proves what it
keeps, in every interleaving of concurrent requests and for every reply of Hydra, Kratos and the policy.

How the parts fit together:

- `Assurance`, `Prompts`, `Freshness`, `RateLimiter`: assurance levels and `acr_values`, the `prompt`
  parameter, `max_age` arithmetic on saturating 64-bit durations, and the token bucket.
- `Pointers`, `JsonValues`, `JsonHeap`, `ClaimMappings`, `DerivedClaims`: JSON pointers (RFC 6901), their
  resolution, deep cloning on the heap, identity claim mappings with the cache of parsed pointers, and the
  derivation of claims, on values and on mutable nodes.
- `Configuration`, `ClaimFilter`, `Policies`: the validated configuration, the consent claim pipeline, and
  both policy adapters. `ClaimProperties` says which claims are derived and accepted, by the selected values and
  the tables of OpenID Connect Core 1.0.
- `PendingLedger`, `MemoryStore`, `LazyExpiry`, `SequentialCalls`: the quota ledger and the transaction
  store as classes updated in place, and what holds of whole calls made one after the other.
- `Flows`: every decision of the six flows, as a specification and as the code that meets it;
  `FlowProperties` says exactly when a start of each flow fails, is rejected, is accepted silently or goes on
  to the user, and which sessions and consents pass.
- `Service`: the service as a class over the ledger and the store; each flow is proved against what it
  leaves in them and what comes of the request. `StartOutcomes` and `CompletionOutcomes` say when a start hands
  off, what loads and what every outcome means, in every state and without the functions the code shares.
- `ServiceRuns`: the provider as a machine whose steps are clock readings, regions under a lock, and
  replies, one request at a time in any order. `ServiceInvariants`, `ServiceTrace` and `ServiceSafety`
  prove the invariant of every run; `ServiceTheorems`, `ServiceProgress`, `ServiceTakes`, `ServiceLiveness`,
  `ServiceAgreement` and `StoreRoom` say what it means.
- `ServiceSteps`, `ServiceRefinement`: the code of `Service` refines the machine, so the results about all
  runs hold of the code. `HandOffs` has the round trips from a stored transaction to its answer, in every
  reachable world.
- `SmallProvider`, `StaleReadings`, `RepeatedRejections`, `EarlyCompletions`: runs of a valid provider that
  show what can happen, for any redirect URI and tokens that pass the checks.

Two assumptions are built into the runs and stated where they are used: the clock never goes back, and a
drawn handle is new, that is, no request has named it and no draw has produced it before.

Results that differ from what one might expect:

- With a quota the store can hold, the store's capacity error is unreachable in sequential use
  (`SequentialCalls.ReservedFindsRoom`) and whenever the clock reading is still current
  (`ServiceTheorems.ReservedRequestFindsRoom`). But `MemoryStore.Create` reads the clock before it takes the
  lock, and with an old reading the error is reachable for every quota of two or more
  (`StaleReadings.StaleReadingFindsStoreFull`), and only for those (`StaleReadings.RoomForEveryReadingExactly`).
  `StoreRoom.FindsRoomIff` says exactly when a request finds room.
- The ledger and the store agree whenever no request is in flight (`ServiceAgreement.QuietAgreement`), provided
  that completions begin after the hand-off. `commit` does not look at the store, so one that takes the
  transaction between `Create` and `commit` leaves a place that stands for nothing until it expires
  (`EarlyCompletions.EarlyCompletionLeaks`). Nobody has been told the handle then.
- Lazy and eager expiry differ on a draw that hits an expired leftover (`LazyExpiry.StaleLeftoverMatters`);
  `LazyExpiry.CreateAgreesExactly` gives the exact condition for one creation and
  `LazyExpiry.LazyRefinesEagerExactly` for whole runs. New handles meet it (`LazyExpiry.LazyRefinesEager`).
- `HigherAAL` can weaken a requirement that the configuration would not have accepted; the exact condition
  is `Assurance.HigherIsConjunctionExactly`.
- `max_age` is exact up to 9223372036 seconds and no further (`Freshness.MaxAgeExactlyUpToLimit`); beyond that
  it bounds nothing (`Freshness.FreshMeans`).
- The limiter reads the clock before its lock too, so its tokens can become negative
  (`RateLimiter.TokensCanGoNegative`); `RateLimiter.TokensStayInRangeExactly` says for which readings they stay
  in range. The bound on admissions survives any order (`RateLimiter.AdmissionBoundAnyOrder`).
- A consent that the user accepted may be rejected several times before it is consumed
  (`RepeatedRejections.EarlyRejectionsRepeat`). So single use says that of two answers on a handle at least one
  comes from a request that never took it (`ServiceTakes.SingleUse`), and such an answer is always one of those
  rejections (`ServiceTakes.OthersRejectEarly`).
- The error message for the transaction lifetime says "between 1s and 15m"; the code accepts every positive
  duration up to 15 minutes, and so does the model.

## Model

| member | source | states |
|---|---|---|
| `ServiceTheorems.QuotaSafety` | internal/core/application/service.go:1013-1059 | in every reachable world pending plus reserved entries stay within the quota, reservations are exactly the requests between reserve and commit or cancel, and live stored transactions stay within the quota |
| `ServiceTheorems.ReservationsBalance` | internal/core/application/service.go:438-455 | the `reserved > 0` guards of commit and cancel never fail, and with no request between them nothing is reserved |
| `ServiceTheorems.LedgerCoversStore` | internal/core/application/service.go:438-490 | every live stored transaction is in the ledger with the same expiry or held by the request about to commit it |
| `ServiceAgreement.PlaceIsLiveOrConsumed` | internal/core/application/service.go:438-490 | the converse, in every reachable world: a place that has not expired belongs to a live stored transaction with that expiry, or its handle has been consumed |
| `ServiceAgreement.QuietAgreement` | internal/core/application/service.go:438-490 | whenever no request is in flight the unexpired places are exactly the live stored transactions with their expiries, in every run whose completions begin after the hand-off |
| `EarlyCompletions.EarlyCompletionLeavesPlace` | internal/core/application/service.go:438-490 | without that condition it fails: in every world, a completion that takes a transaction before it is committed leaves its place behind |
| `EarlyCompletions.EarlyCompletionLeaks` | internal/core/application/service.go:438-490 | and for every handle there is a run of a valid provider in which that happens |
| `ServiceTakes.SingleUse` | internal/core/application/service.go:484-490 | of two answers to Hydra by requests that complete one handle, at least one comes from a request that never took it; so at most one answer of any kind rests on a handle, in every interleaving |
| `ServiceTakes.OthersRejectEarly` | internal/core/application/service.go:331-360 | an answer by a completion that never took its handle is always the rejection of a consent the user accepted, given before `consume` |
| `ServiceTakes.TakenOnce` | internal/adapters/outbound/state/memory.go:97-114 | two takes of one handle in a run are the same event |
| `ServiceTakes.AnswerIsTheTakers` | internal/core/application/service.go:202-426 | every answer on a taken handle, early consent rejections apart, is given by the request that took it |
| `ServiceTakes.NeverLost` | internal/adapters/outbound/state/memory.go:40-114 | whatever other requests did, a stored transaction that has not expired and whose handle nobody consumed is still in the store |
| `ServiceTakes.OnlyCompletionsConsume` | internal/core/application/service.go:484-490 | as long as no request has come to complete a handle, nobody has consumed it |
| `ServiceTheorems.OneAnswerPerRequest` | internal/core/application/service.go:202-247 | no request answers Hydra twice |
| `ServiceTheorems.InteractiveLoginProvenance` | internal/core/application/service.go:202-247 | every interactive AcceptLogin follows a start for the same challenge and an allowlisted client, the consumption of that unexpired transaction with its CSRF token and browser state, a fitting fresh session, and an approval by the policy of that subject and client |
| `ServiceTheorems.SilentLoginProvenance` | internal/core/application/service.go:125-155 | every AcceptLogin of a start answers a login Hydra skips, without forcing prompt or assurance requirement, approved by the policy, and carries an empty ACR |
| `ServiceTheorems.AcrIsTruthful` | internal/core/application/service.go:790-795 | the ACR of an accepted interactive login is one that Hydra requested for that very login, and then its session is at least at the level it stands for; only if none was requested is it the level of the session |
| `ServiceTheorems.ForcedReauthentication` | internal/core/application/service.go:754-788 | `prompt=login` or `max_age=0` of the login that is accepted demands an authentication after the start of the flow, and a positive `max_age` up to 9223372036 one within that many true seconds |
| `ServiceTheorems.ConsentGrantChain` | internal/core/application/service.go:511-562 | every AcceptConsent grants distinct values within the policy grant, the selection, the request and the allowlist, for the subject and assurance of the session, with claims filtered as specified, on a consumed transaction |
| `ServiceTheorems.LogoutProvenance` | internal/core/application/service.go:374-426 | every AcceptLogout follows the consumption in time, with its proof, of a transaction that a start stored for the same challenge on a request of Hydra, from a client with all redirect URIs allowlisted and with an allowlisted post-logout redirect if any |
| `ServiceProgress.ConsumedIsAnswered` | internal/core/application/service.go:202-370 | a request that consumed its transaction in time and has finished has answered Hydra exactly once, whatever Kratos and the policy replied |
| `ServiceProgress.SilentLoginStaysSilent` | internal/core/application/service.go:131-155 | a login start with `prompt=none` never stores a transaction and never hands the browser to the UI |
| `ServiceLiveness.NeverStuck` | internal/core/application/service.go:98-455 | in every reachable world a reply lets a request in flight go on if and only if it is of the kind the request waits for, and there is such a reply |
| `ServiceLiveness.StepsAreBounded` | internal/core/application/service.go:98-455 | however requests interleave and whatever is replied, a request takes no more steps than its rank, and a run with that many of them has finished it |
| `ServiceLiveness.AtMostEightSteps` | internal/core/application/service.go:98-455 | from its beginning in any reachable world a request takes at most eight steps |
| `ServiceLiveness.CanFinish` | internal/core/application/service.go:98-455 | from every world of a run a request in flight can finish by its own steps alone, with nobody else moved |
| `ServiceLiveness.TakerCanAnswer` | internal/core/application/service.go:202-426 | whoever has taken a transaction can answer Hydra within three steps of its own, and then has answered exactly once |
| `ServiceSafety.RunKeepsInv` | internal/core/application/service.go:438-490 | every run from the empty provider keeps the invariant that ties the ledger, the store, the requests in flight and the trace |
| `ServiceRefinement.ServedIsRun` | internal/core/application/service.go:98-490 | from any reachable world, what the code of a flow does when served at one go is a run of steps: same ledger and store, the trace tells its fate, other requests do not move |
| `ServiceRefinement.SpentHandleIsNotAnswered` | internal/core/application/service.go:484-490 | once a handle has been taken, whatever came of it, the code fails every further completion that names it as a replay and leaves the store alone |
| `StartOutcomes.LoginHandsOffExactly` | internal/core/application/service.go:99-195 | a login start hands off if and only if the request is well formed and needs or forces interaction, the browser brings no state or an opaque one, the tokens are drawn, the ledger admits it and a draw is stored; with which transaction, and else with which error |
| `StartOutcomes.LoginAnsweredAtStart` | internal/core/application/service.go:99-150 | what else comes of a login start: an error, a rejection of what would have to interact, or for a skipped login exactly what the policy says, with ledger and store as they were |
| `StartOutcomes.ConsentHandsOffExactly` | internal/core/application/service.go:251-308 | likewise for a consent start, with the requested lists and the configured level in the transaction |
| `StartOutcomes.LogoutHandsOffExactly` | internal/core/application/service.go:374-412 | likewise for a logout start |
| `StartOutcomes.AdmitsExactly` | internal/core/application/service.go:1013-1029 | reserving succeeds exactly if the transaction is alive and fewer than the quota are unexpired or reserved |
| `StartOutcomes.DrawsExactly` | internal/adapters/outbound/state/memory.go:41-76 | creating stores under the first free draw exactly if fewer than the limit are alive, and reports a failed draw exactly when one comes first |
| `CompletionOutcomes.LoadsExactly` | internal/core/application/service.go:457-482 | loading returns exactly a live, complete transaction of the right flow, proved by token and browser state; each error says what failed, and only spent and expired handles lose their place |
| `CompletionOutcomes.ConsumesExactly` | internal/core/application/service.go:484-490 | consuming empties both places and returns the transaction exactly if it is alive |
| `CompletionOutcomes.LoadedLoginExactly` | internal/core/application/service.go:202-247 | what a loaded login comes to in every state: ill-formed remembering, expiry, an acceptance that tells subject, ACR, AMR and remembering, or a rejection with its reason |
| `CompletionOutcomes.LoadedConsentExactly` | internal/core/application/service.go:314-345 | what a loaded consent comes to before the session: ill-formed input, a denial that consumes, a rejected selection that does not |
| `CompletionOutcomes.LoadedLogoutExactly` | internal/core/application/service.go:416-426 | a loaded logout is consumed and accepted unless it has expired |
| `HandOffs.HandedOffIsStored` | internal/core/application/service.go:98-455 | what a start hands off is stored in a reachable world and stays on record through any further actions of any requests |
| `HandOffs.LoginRoundTrip` | internal/core/application/service.go:202-247 | in every reachable world a stored, unconsumed login that comes back in time with its proof is answered for the challenge it began with and frees its place; it is accepted exactly when Kratos gives a session that passes and the policy allows it, and Hydra is told of that session, the negotiated value and what to remember; a rejection says why |
| `HandOffs.ConsentRoundTripExactly` | internal/core/application/service.go:314-370 | likewise a consent with an acceptable selection is accepted exactly when the session is the consented subject at the required level and the policy grants within the selection; without such a session its place is kept; Hydra is given the grants, the filtered claims and what to remember, or the reason |
| `HandOffs.DenialRoundTrip` | internal/core/application/service.go:319-330 | likewise a consent that comes back with a denial is rejected for its challenge |
| `HandOffs.LogoutRoundTrip` | internal/core/application/service.go:416-426 | likewise a logout is accepted for its challenge |
| `HandOffs.EarlyRejectionKeepsPlace` | internal/core/application/service.go:331-340 | a consent that comes back with an unacceptable selection is rejected for its challenge and stays pending |
| `RepeatedRejections.EveryConsentCanBeRejectedTwice` | internal/core/application/service.go:331-340 | from every world with a pending consent a world is reachable in which two requests that complete it have both been answered |
| `RepeatedRejections.EarlyRejectionsRepeat` | internal/core/application/service.go:331-340 | and for every handle a completion may name there is a run of a valid provider in which that happens, whatever passes as a token or a URL |
| `HandOffs.HandOffIsBound` | internal/core/application/service.go:98-490 | what a start hands off pends under a drawn handle in store and ledger, lives for the configured time from its start, and is bound to the challenge, the client, the browser state and the drawn CSRF token |
| `HandOffs.PendingLoadsWithProof` | internal/core/application/service.go:457-482 | before it expires a stored transaction is loaded by exactly the right flow, CSRF token and browser state, and loading changes nothing |
| `HandOffs.ConsumedOnce` | internal/core/application/service.go:484-490 | consuming in time returns the transaction and frees its place; afterwards loading and consuming report a replay |
| `ServiceTheorems.ReservedRequestFindsRoom` | internal/adapters/outbound/state/memory.go:47-60 | with a quota the store can hold, a reserved request whose clock reading is current stores its transaction under the handle it draws |
| `StoreRoom.StoreIsBounded` | internal/adapters/outbound/state/memory.go:47-60 | the store never exceeds its limit, expired entries included |
| `StoreRoom.FindsRoomIff` | internal/adapters/outbound/state/memory.go:47-69 | a request under the lock with any clock reading stores its transaction exactly when the store is not full or holds an entry expired by that reading |
| `StaleReadings.StaleReadingFindsStoreFull` | internal/adapters/outbound/state/memory.go:41-60 | for every quota of two or more and every store that can hold it, the default 10,000 included, and whatever passes as a token or a URL, a valid configuration and a run in which a reserved request with an old reading finds the store full while one transaction in it is alive |
| `StaleReadings.QuotaOneFindsRoom` | internal/adapters/outbound/state/memory.go:41-60 | with a quota of one a reserved request stores under the handle it draws, however old its reading |
| `StaleReadings.RoomForEveryReadingExactly` | internal/adapters/outbound/state/memory.go:41-60 | a reserved request finds room in every run of every valid configuration of that quota and store if and only if the quota is one |
| `SequentialCalls.LedgerAndStoreAgree` | internal/core/application/service.go:438-490 | after any sequence of whole calls the unexpired keys of the ledger are exactly the live keys of the store |
| `SequentialCalls.ReservedFindsRoom` | internal/adapters/outbound/state/memory.go:54-60 | with a quota the store can hold, after `reserve` the store always has room, and a free draw is stored |
| `LazyExpiry.LazyRefinesEager` | internal/core/application/service.go:1013-1059 | with a monotone clock and new handles, sweeping only when full gives the same outcomes as dropping entries the moment they expire, on every run, up to replay versus expired |
| `LazyExpiry.LazyRefinesEagerExactly` | internal/core/application/service.go:1013-1059 | on every run with a monotone clock all outcomes of lazy and eager expiry agree, up to replay versus expired, if and only if no creation of the run is disturbed |
| `LazyExpiry.CreateAgreesExactly` | internal/adapters/outbound/state/memory.go:54-69 | lazy and eager creation agree if and only if no draw hits an expired leftover of a store with room |
| `LazyExpiry.StaleLeftoverMatters` | internal/adapters/outbound/state/memory.go:61-69 | a concrete store and draw on which they differ |
| `FlowProperties.LoginPlanExactly` | internal/core/application/service.go:98-156 | a login start fails exactly on ill-formed requests; a well-formed one is rejected, accepted silently or interactive exactly as skip, prompt and assurance demand |
| `FlowProperties.SessionPassesExactly` | internal/core/application/service.go:213-228 | a session reaches the login policy exactly when it is the bound subject, recent enough in true time, and at both the configured and the negotiated level |
| `FlowProperties.ConsentPlanExactly` | internal/core/application/service.go:251-281 | a consent start fails, is rejected or asks the user exactly as challenge, client, subject, allowlists, prompt and skip demand |
| `FlowProperties.BeforeSessionExactly` | internal/core/application/service.go:319-343 | a loaded consent completion fails, denies, is rejected or goes on to the session exactly as decision, remember and the two subset tests say |
| `FlowProperties.ConsentSessionPassesExactly` | internal/core/application/service.go:341-360 | for a stored consent the checks after the session fail exactly on another subject or too little assurance; the repeated client, scope and audience checks never fail |
| `FlowProperties.SelectionPassedOn` | internal/core/application/service.go:334-369 | the policy is asked about exactly the selected scopes, and about all requested audiences if none was selected |
| `FlowProperties.LogoutPlanExactly` | internal/core/application/service.go:374-392 | a logout start is planned exactly for Hydra's own request from an allowlisted client with an allowlisted post-logout redirect if any; each error tells the first of these that fails |
| `ClaimFilter.DestinationsAreIsolated` | internal/core/application/service.go:571-618 | a destination does not depend on the allowlists and policy claims of the other two |
| `ClaimFilter.FewerScopesOnlyDrop` | internal/core/application/service.go:854-910 | with fewer scopes every claim still emitted has the same value |
| `ClaimFilter.FilteringIsIdempotent` | internal/core/application/service.go:571-638 | filtering the output again changes nothing |
| `ClaimFilter.OnlyAllowlistedClaims` | internal/core/application/service.go:854-897 | whatever is emitted is allowlisted with its scopes granted, and under a validated allowlist is not reserved |
| `ClaimFilter.ClaimsHaveOneSource` | internal/core/application/service.go:571-638 | each emitted value comes from the mapping if the name is mapped, else from the policy |
| `ClaimMappings.CacheAgrees` | internal/core/identity/claims.go:306-318 | deriving with the cache that `Validate` wrote gives the claims of parsing anew |
| `ClaimMappings.DerivedIsSelectedSubtree` | internal/core/identity/claims.go:306-355 | a derived value without join is the subtree its pointer selects under traits or public metadata, trimmed if text, of the declared type |
| `ClaimMappings.JoinPartsAreTexts` | internal/core/identity/claims.go:322-342 | the parts of a join are exactly the trimmed texts the paths select that are not blank, in the order of the paths |
| `ClaimProperties.JoinsExactlyTexts` | internal/core/identity/claims.go:322-342 | a join fails exactly on a selected value that is neither a text nor null |
| `ClaimProperties.JoinIsSpaced` | internal/core/identity/claims.go:322-342 | the joined text is the parts in order with exactly one space between neighbours and nothing else |
| `ClaimProperties.DerivedJoinExactly` | internal/core/identity/claims.go:306-355 | which claim a joining mapping derives: the selected texts that are not blank, trimmed, in order, with one space between neighbours, of the declared format; and when it derives none |
| `ClaimProperties.DerivedSubtreeExactly` | internal/core/identity/claims.go:306-355 | which claim any other mapping derives: exactly the value its pointer selects, trimmed, not blank, of the declared type and format; and when it derives none |
| `ClaimProperties.ValuesExactly` | internal/core/identity/claims.go:358-453 | the accepted values by JSON type: whole numbers for integers, plain addresses for emails, absolute HTTP URLs without credentials for pictures and URLs |
| `ClaimProperties.DerivedStandardClaim` | internal/core/identity/claims.go:239-276 | whatever an accepted mapping derives under a standard name has the type section 5.1 of OpenID Connect Core 1.0 gives it |
| `ClaimProperties.MappingTypesExactly` | internal/core/identity/claims.go:162-212 | beyond its sources a mapping is accepted exactly for a JSON type, a format only on strings, joining only into strings and the standard type under a standard name |
| `ClaimProperties.SourcesExactly` | internal/core/identity/claims.go:172-192 | accepted sources are exactly the printed pointers of 2 to 16 tokens below the two roots, within 512 bytes and without wildcards |
| `ClaimProperties.NamesExactly` | internal/core/identity/claims.go:154-160 | accepted names are exactly the non-empty ones without space around or control characters in them |
| `ClaimProperties.ProtocolClaimsStayOut` | internal/core/identity/claims.go:130-135 | the claims of the token itself, in any capitalization, are never mapped and never emitted |
| `ClaimProperties.StandardClaimsNeedTheirScope` | internal/core/identity/claims.go:138-152 | a mapped standard claim is emitted only with the scope that section 5.4 of OpenID Connect Core 1.0 names for it |
| `ClaimProperties.OtherClaimsNeedNoScope` | internal/core/identity/claims.go:138-152 | and any other mapped claim needs no more than its allowlist says |
| `DerivedClaims.Derive` | internal/core/identity/claims.go:108-125 | on mutable nodes: the derived claims hold exactly the values of the specification, each in nodes of its own, none of which was there before, so none is shared with the session or with another claim |
| `JsonValues.ResolveIsSelection` | internal/core/identity/claims.go:464-485 | resolution finds a value if and only if the tokens name a path of members and elements to it, as section 4 of RFC 6901 defines |
| `Pointers.ParseOfPrint` | internal/core/identity/claims.go:499-531 | parsing the printed form of any tokens gives them back |
| `Pointers.PrintOfParse` | internal/core/identity/claims.go:499-531 | printing what was parsed gives the pointer back |
| `Pointers.ParseIsInjective` | internal/core/identity/claims.go:499-531 | no two pointers have the same tokens |
| `Pointers.DuplicateSourcesAreDuplicatePaths` | internal/core/identity/claims.go:224-235 | comparing raw sources finds exactly the duplicate paths |
| `Pointers.TildeZeroOneIsTildeOne` | internal/core/identity/claims.go:512-527 | `~01` decodes to `~1` |
| `Pointers.IndexIsExact` | internal/core/identity/claims.go:533-544 | a token is index n if and only if it is the decimal form of n and n fits |
| `Pointers.IndexIsInjective` | internal/core/identity/claims.go:533-544 | no two tokens select the same element |
| `Assurance.AtLeastExactly` | internal/core/domain/model.go:103-142 | a value reaches a required one exactly if nothing is required or both are "aal" and a digit from 1 to 3, space and case aside, and its digit is at least the required one |
| `Assurance.HigherExactly` | internal/core/domain/model.go:120-130 | of two levels the one with the higher digit is kept, the first if they are equal |
| `Assurance.HigherIsConjunction` | internal/core/domain/model.go:103-130 | under a validated configuration the higher of two requirements asks for exactly both |
| `Assurance.HigherIsConjunctionExactly` | internal/core/domain/model.go:120-130 | for arbitrary values it does so if and only if both are enforceable, or the second is not and the first is no supported level |
| `Assurance.ResolveExactly` | internal/core/config/config.go:176-196 | a list resolves exactly to the level that its first value with a level stands for, by its mapping or else its own name, under that value trimmed; to nothing if it is empty; and not at all if a value is blank |
| `Assurance.ResolveIsTruthful` | internal/core/config/config.go:176-196 | asking for the returned ACR resolves to the same level |
| `Freshness.MaxAgeIsExact` | internal/core/application/service.go:754-788 | for a positive `max_age` up to 9223372036 the test accepts exactly non-negative true ages within it, saturation included |
| `Freshness.MaxAgeExactlyUpToLimit` | internal/core/application/service.go:754-788 | the test is exact for every authentication time if and only if `max_age` is at most 9223372036 |
| `Freshness.FreshMeans` | internal/core/application/service.go:754-788 | the whole freshness test in true time, for every `max_age`; beyond 9223372036 it bounds nothing |
| `Prompts.IncludesAgreesWithFlag` | internal/core/application/service.go:742-749 | the later word search agrees with the parsed flag |
| `Prompts.OrderIsIrrelevant` | internal/core/application/service.go:715-740 | the order of the values does not matter |
| `RateLimiter.TokensStayInRange` | internal/adapters/inbound/http/server.go:357-368 | with nondecreasing readings tokens stay between 0 and the burst |
| `RateLimiter.TokensStayInRangeExactly` | internal/adapters/inbound/http/server.go:357-368 | for readings in any order a new limiter stays between empty and full throughout if and only if the level covers every reading that is behind the one before |
| `RateLimiter.TokensCanGoNegative` | internal/adapters/inbound/http/server.go:357-368 | a new limiter that sees a call at time 10 and then one that read its clock at time 5 is left with -4 tokens |
| `RateLimiter.AdmittedExactly` | internal/adapters/inbound/http/server.go:357-368 | for readings in any order a call is admitted if and only if with it no stretch of calls that ends with it exceeds the burst and the time it took, nor all calls the first level and the time since |
| `RateLimiter.AdmissionBound` | internal/adapters/inbound/http/server.go:357-368 | calls admitted in a window number at most the burst plus the rate times its length |
| `RateLimiter.AdmissionBoundAnyOrder` | internal/adapters/inbound/http/server.go:357-368 | calls admitted up to any call number at most the tokens at the start plus the refill up to its reading, whatever the order of readings |
| `RateLimiter.PatientCallIsAdmitted` | internal/adapters/inbound/http/server.go:357-368 | a call one token interval after the previous one is admitted, if and only if the burst is at least one |
| `RateLimiter.Conservation` | internal/adapters/inbound/http/server.go:357-368 | admissions and tokens left never exceed what was there and what was gained |
| `Policies.StaticDecisionExactly` | internal/adapters/outbound/policy/static.go:47-102 | what the static policy allows: subject, client, audiences, and the selection within the own rule, or the wildcard rule only without one; and that it grants the selection |
| `Policies.DenialsAreBare` | internal/adapters/outbound/policy/http.go:143-183 | a remote denial is accepted exactly without grants and claims, and is the empty decision |
| `Policies.GrantsAreTakenAsTheyAre` | internal/adapters/outbound/policy/http.go:143-183 | a remote grant is accepted only in version v1 and within the selection, and is taken as it is |
| `Flows.RecheckNeverFails` | internal/core/application/service.go:511-540 | once the consent completion has consumed, `acceptConsentDecision` always reaches the policy |
| `Flows.AdapterDecisionIsGranted` | internal/core/application/service.go:544-561 | a decision of either adapter is granted if and only if it is allowed |
| `Service.NewService` | internal/core/application/service.go:71-96 | nothing for an invalid configuration; otherwise a fresh service with an empty ledger, holding the mappings as validation rewrote them |
| `Service.ProviderService.constructor` | internal/core/application/service.go:71-96 | a service over a valid configuration has an empty ledger with the configured quota |
| `Service.ProviderService.CreateTransaction` | internal/core/application/service.go:438-455 | leaves ledger and store, and returns, as reserve, create and commit or cancel prescribe |
| `Service.ProviderService.Load` | internal/core/application/service.go:457-482 | returns the transaction or the error of the first failing check, and releases spent and expired handles only |
| `Service.ProviderService.Consume` | internal/core/application/service.go:484-490 | removes the entry, and releases the handle whether it was found live, expired or not at all |
| `Service.ProviderService.StartLogin` | internal/core/application/service.go:98-198 | the login start ends in the planned error, reject, silent answer or hand-off, with the ledger and store to match |
| `Service.ProviderService.CompleteLogin` | internal/core/application/service.go:202-247 | the login completion consumes before it asks, and answers as session, freshness, assurance and policy decide |
| `Service.ProviderService.AnswerLogin` | internal/core/application/service.go:213-246 | the answer to Hydra after consumption: session, subject, freshness, assurance, then policy |
| `Service.ProviderService.StartConsent` | internal/core/application/service.go:251-309 | the consent start ends in the planned error, reject or hand-off |
| `Service.ProviderService.CompleteConsent` | internal/core/application/service.go:314-370 | the consent completion: denials consume first, rejections before the session do not consume |
| `Service.ProviderService.AcceptedConsent` | internal/core/application/service.go:341-369 | the accepting branch: session checks, then consumption, then the decision |
| `Service.ProviderService.AcceptConsentDecision` | internal/core/application/service.go:511-562 | re-validation, policy call and acceptance with filtered claims |
| `Service.ProviderService.StartLogout` | internal/core/application/service.go:374-412 | the logout start ends in an error or a hand-off |
| `Service.ProviderService.CompleteLogout` | internal/core/application/service.go:416-426 | the logout completion accepts after consumption only |
| `PendingLedger.TransactionAdmission.constructor` | internal/core/application/service.go:1003-1011 | an empty ledger with the given or the default quota |
| `PendingLedger.TransactionAdmission.Reserve` | internal/core/application/service.go:1013-1028 | reserves exactly when the transaction is unexpired and there is room, after dropping expired entries if full |
| `PendingLedger.TransactionAdmission.Commit` | internal/core/application/service.go:1030-1037 | turns a reservation into an active entry |
| `PendingLedger.TransactionAdmission.Cancel` | internal/core/application/service.go:1039-1045 | gives a reservation back |
| `PendingLedger.TransactionAdmission.Release` | internal/core/application/service.go:1047-1051 | forgets the handle |
| `PendingLedger.TransactionAdmission.RemoveExpiredLocked` | internal/core/application/service.go:1053-1059 | keeps exactly the unexpired entries |
| `MemoryStore.Store.constructor` | internal/adapters/outbound/state/memory.go:28-38 | an empty store with the default limit |
| `MemoryStore.Store.Create` | internal/adapters/outbound/state/memory.go:40-69 | stores an unexpired transaction under the first free of three draws if there is room after a sweep, else says why not |
| `MemoryStore.Store.Get` | internal/adapters/outbound/state/memory.go:80-95 | returns the unexpired entry, or tells a missing one from an expired one |
| `MemoryStore.Store.Consume` | internal/adapters/outbound/state/memory.go:97-114 | returns what `Get` would and removes the entry whatever its age |
| `MemoryStore.Store.RemoveExpiredLocked` | internal/adapters/outbound/state/memory.go:71-78 | keeps exactly the live entries |
| `Flows.DecideLogin` | internal/core/application/service.go:98-156 | decides a login start as its specification says, with ACR resolution, prompt parsing and client validation in loops |
| `Flows.DecideConsent` | internal/core/application/service.go:251-281 | decides a consent start: the first failing check names the error, `prompt=none` without a skip is rejected |
| `Flows.DecideLogout` | internal/core/application/service.go:374-392 | succeeds with the configured client exactly for Hydra's own request from an allowlisted client with an allowlisted post-logout redirect if any |
| `Flows.DecideBeforeSession` | internal/core/application/service.go:319-343 | the consent checks before the session, in their order |
| `Flows.DecideAfterSession` | internal/core/application/service.go:345-360 | the consent checks after the session, in their order |
| `Flows.DecideRecheck` | internal/core/application/service.go:511-540 | the validation of `acceptConsentDecision` up to the policy call |
| `Flows.DecideDecision` | internal/core/application/service.go:544-561 | what an allowed, denied or overreaching policy decision leads to |
| `Flows.ValidateClient` | internal/core/application/service.go:492-509 | accepts exactly configured clients all of whose redirect URIs are allowlisted |
| `Flows.ValidateAllowed` | internal/core/application/service.go:805-827 | accepts exactly distinct, non-empty, allowlisted values |
| `Flows.ValidateRequestedSubset` | internal/core/application/service.go:829-852 | accepts exactly distinct, requested values |
| `Policies.Decision` | internal/adapters/outbound/policy/http.go:143-172 | accepts exactly complete responses within the selection; an allowed decision meets the contract of the service, a denied one carries nothing |
| `Policies.ValidateValues` | internal/adapters/outbound/policy/http.go:185-197 | accepts exactly distinct, non-blank values |
| `Policies.AuthorizeConsent` | internal/adapters/outbound/policy/static.go:47-86 | the static decision; it meets the contract for every input the service builds, and says for which other inputs |
| `Policies.ToSet` | internal/adapters/outbound/policy/static.go:104-112 | the set of the non-empty values |
| `Policies.AuthorizeLogin` | internal/adapters/outbound/policy/static.go:40-42 | allows exactly a listed or wildcard subject at a listed or wildcard client, or at any if none is listed |
| `ClaimFilter.FilterClaims` | internal/core/application/service.go:571-618 | each destination holds exactly the emitted claims: mapped names the derived value, other names the policy value, `email_verified` as the session proves, all as allowlisted and scoped |
| `ClaimFilter.FilterDestination` | internal/core/application/service.go:578-617 | one destination holds exactly the claims emitted for it |
| `ClaimFilter.FilterClaimMap` | internal/core/application/service.go:854-878 | keeps exactly the released, unreserved, unmapped policy claims |
| `ClaimFilter.FilterIdentityClaimMap` | internal/core/application/service.go:880-897 | keeps exactly the identity claims released by the allowlist and by their standard scopes |
| `ClaimFilter.MergeClaims` | internal/core/application/service.go:899-910 | the overlay wins, in the base map itself unless that is null |
| `ClaimFilter.SetVerifiedEmailClaim` | internal/core/application/service.go:620-638 | writes `email_verified` exactly when released with a non-empty e-mail, true exactly when that e-mail is verified, and changes nothing else |
| `ClaimMappings.MappingSources` | internal/core/identity/claims.go:214-236 | the one source or the distinct non-empty sources, not both |
| `ClaimMappings.ValidateMapping` | internal/core/identity/claims.go:162-211 | accepts exactly valid mappings and returns the parsed paths of their sources |
| `ClaimMappings.MappingSet.Validate` | internal/core/identity/claims.go:78-105 | accepts exactly valid sets; then every entry is cached, and on failure only valid entries have been |
| `ClaimMappings.MappingSet.Derive` | internal/core/identity/claims.go:108-125 | as values, the derived claims are exactly those of the entries that yield a valid value |
| `ClaimMappings.MappingValue` | internal/core/identity/claims.go:306-355 | the selected, trimmed or joined value |
| `DerivedClaims.DeriveRef` | internal/core/identity/claims.go:112-122 | one claim on mutable nodes: the derived value, cloned into nodes that are all new |
| `DerivedClaims.MappingRef` | internal/core/identity/claims.go:306-355 | the selected node, or a trimmed or joined text, holding the specified value |
| `DerivedClaims.CollectTexts` | internal/core/identity/claims.go:322-342 | the trimmed non-empty texts that the paths select, in order; anything but text fails |
| `DerivedClaims.ResolveRef` | internal/core/identity/claims.go:464-485 | follows the tokens through the document's own nodes |
| `DerivedClaims.DocumentOf` | internal/core/identity/claims.go:455-461 | a new outermost object around the session's own nodes |
| `JsonHeap.CloneJSONValue` | internal/core/identity/claims.go:546-563 | the clone holds the same value in nodes that are all new |
| `JsonValues.ResolvePointerTokens` | internal/core/identity/claims.go:464-485 | follows the tokens through members and elements, and stops at the first that names none |
| `Pointers.ParsePointer` | internal/core/identity/claims.go:499-531 | parses as the split-and-unescape definition says |
| `Pointers.UnescapeToken` | internal/core/identity/claims.go:507-528 | decodes one raw token, and fails on a tilde that no 0 or 1 follows |
| `Pointers.PointerIndex` | internal/core/identity/claims.go:533-544 | accepts exactly canonical decimals that fit the machine integer, with their value |
| `Configuration.Validate` | internal/core/config/config.go:66-169 | accepts exactly configurations with valid levels, limits, mappings, ACR values and clients, and the configuration stays valid with its rewritten mappings |
| `Configuration.ValidIsSound` | internal/core/config/config.go:66-169 | a validated configuration has what the results about runs rest on: enforceable levels and clients under their own names |
| `Configuration.ValidIsBounded` | internal/core/config/config.go:89-105 | a valid configuration keeps transactions at most 15 minutes and challenges within 4096 bytes |
| `Configuration.RedirectsExactly` | internal/core/config/config.go:366-389 | an accepted redirect is a URL with a host, no credentials and no fragment, over HTTPS, or HTTP when insecure or to a loopback address |
| `Configuration.AcrsExactly` | internal/core/config/config.go:427-437 | accepted ACR mappings are exactly those of one-line values that are not blank to values that name a level |
| `Configuration.ValidateClient` | internal/core/config/config.go:134-166 | accepts exactly valid clients: own name, redirect URIs that are absolute and secure or loopback, distinct audiences, valid allowlists |
| `Configuration.ValidateClaimAllowlist` | internal/core/config/config.go:405-423 | accepts exactly allowlists of unreserved names whose scopes are distinct and allowed |
| `Configuration.ValidateOIDCACRMappings` | internal/core/config/config.go:427-437 | accepts exactly mappings of printable values to supported levels |
| `Configuration.ValidateURLs` | internal/core/config/config.go:366-389 | accepts exactly absolute HTTP URLs without credentials or fragment, outside development HTTPS or HTTP to a loopback address |
| `Assurance.ResolveACR` | internal/core/config/config.go:176-196 | the first requested value with a meaning decides; blanks and unknown values fail |
| `Prompts.ParsePrompt` | internal/core/application/service.go:715-740 | accepts exactly distinct supported values with `none` alone, and returns their flags |
| `RateLimiter.RequestLimiter.constructor` | internal/adapters/inbound/http/server.go:352-355 | a new limiter has a full bucket |
| `RateLimiter.RequestLimiter.Allow` | internal/adapters/inbound/http/server.go:357-368 | refills by the elapsed time up to the burst and takes one token if there is one |

## Left out

- HTTP routing, cookies, headers, request IDs, logging, the UI hints of `login_ui.go` and `statusForError`: they decide nothing about a flow.
- The Hydra and Kratos clients, the HTTP transport of the policy and the Redis store: their replies are arbitrary values; what they do on the wire is not modelled.
- `hydraRedirect`, `ExternalRedirect`, `addQueryValue` and all URL building: a flow ends in a hand-off of a handle or in an answer to Hydra, not in a URL; an error Hydra returns for an answer is not modelled.
- `mail.ParseAddress`, `url.Parse`, `strings.EqualFold` and the base64 check of opaque tokens are parameters (`Library`), with any behaviour.
- JSON and environment decoding, and the settings of the provider's neighbours: their URLs, the listen address, the cookie name and the policy backend.
- Random bytes: tokens and handles are drawn by the environment; a new handle is an assumption, an unguessable one is not stated. Constant-time comparison is equality.
- Nil and empty maps and slices are one value, except in `ClaimFilter`, where a missing claim set is null.
- Texts are sequences of code points; `ToLower` is exact where the result is ASCII, which is all the code compares with.
- Floating point of the limiter is `real`.
- Copies: `cloneTransaction` and the copied slices are values here, so the shared `MaxAge` pointer between a stored transaction and its reader is not visible.
- Map iteration order: loops over maps take keys in any order.
- `Ready`, timeouts and cancelled contexts.
- ClaimFilter.FilterClaims: claim values are values, so it does not show that the three destinations share the nested nodes of one derived claim; `DerivedClaims` shows that they share none with the session.
- ClaimMappings.MappingSet.Derive: works on values, where cloning is the identity; the clone is in `DerivedClaims.Derive`.
- ClaimMappings.MappingSet.Validate: does not say which of several errors is reported; the source sorts the names for that alone.
- Configuration.Validate: does not model the checks on the provider's own and its neighbours' URLs, the listen address, the cookie name and the policy backend; the redirect URIs of clients are checked.
- Service.NewService: does not model that missing dependencies are refused; the model has no null ports.
- MemoryStore.Store.Create: the three draws are inputs; in `ServiceRuns` a repeated draw is excluded by the assumption on handles, so its retry never happens there.
- Service.ProviderService.StartLogin: a request is served at one go with its replies, draws and clock readings given beforehand; interleaving is the business of `ServiceRuns`.
