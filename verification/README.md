# NAP v2 authentication core: a Dafny model

NAP logs a Nostr key in to an HTTP service. A client asks the server for a challenge, signs it as a
NIP-98 event, and trades the signature for a session with an access token and, if enabled, a rotating
refresh token. A second protocol lets a page on one origin ask a wallet page on another origin to sign
for it. Vouchers (ecash proofs with an issuer's signature) can stand in for a stored permission list.

This project models that core and proves what it promises over every run, not over one call:

- **Server and stores.** `Sessions`, `Challenges` are the two in-memory stores as values; `SessionStore`
  and `ChallengeStore` are the same stores as classes over shared mutable records, each method proved
  against the value model. `Server` is the protocol: every async function is cut at its awaits, and any
  steps of any calls interleave. Random ids are fresh and non-empty, the permission resolver answers
  anything (including `NaN` and infinite bounds), the clock is a positive integer that never goes back.
  `ServerInvariants` and `ServerRuns` carry the invariant through every run; `RetrySafety`,
  `RefreshSafety`, `Revocation`, `Replays`, `Lifetime`, `PastTheWall`, `NonInterference` and `OutstandingCaps` hold
  the theorems on what never happens. `Inits`, `Completions`, `Refreshes` and `ServerDecisions` say, over the records
  themselves, when each step goes which way, and `Progress` that honest logins and refreshes succeed. `SessionSweep`,
  `ChallengeSweep`, `SequentialServer` and `RetryWindow` compare the server, calls run one at a time, with one that
  never forgets; `OneAtATime` shows that server to be the step machine with nothing in between. `ConstantTime` is
  the comparison of secrets.
- **Cross-origin signing.** `CrossOriginSigner` is the wallet page (values and class), `SignerRuns` its
  interleavings and `SignerDecisions` when it asks, signs and refuses; `CrossOriginClient` is the relying page
  (values and class), `ClientRuns` its runs and `ClientDecisions` what each message and call leads to.
- **Bounded resources.** `RateLimit` (against a specification computed from the whole hit log),
  `OutstandingCaps`, and `MintCache` (the mint keyset cache).
- **Encodings and algebra.** `Text`, `Hex`, `Base64`, `Base64RoundTrips`, `Tags`; `VoucherCanonical`, `VoucherReader`,
  `VoucherScan`, `Utf8`, `VoucherBytes`, `VoucherSecret` (the bytes an issuer signs and what they settle); `Nip98`,
  `Nip98Verified` (what is verified, whoever made it), `Nip98Honest`, `Nip98Platform` (a platform with the laws
  `Nip98Honest` assumes);
  `PrimeFields`, `PrimeGroups`, `Dleq` (NUT-12 over an abstract group of prime order), `SmallCurve` (a
  curve with its laws, and an honest proof on it).

`dafny verify dfyconfig.toml` checks the whole project.

## How to read it

Loops and objects of the source are loops and classes here; each method's contract equates its result
or new state with a function, and the theorems are lemmas about that function. A run is a sequence of
labels: `Enabled` says when a step can happen, `Next` what it does, `Runs`/`After` iterate it. Claims
about a whole run are claims about its last state plus the history that the state carries (the heap of
session records never shrinks, calls are never removed, ghost logs only grow).

## Where the code and its promises part

- A resolver bound of `NaN` or minus infinity is treated as "no bound" by the clamp, so it also drops the
  absolute lifetime ceiling: one refresh then mints a full access token past the wall. A login is not
  clamped to the ceiling at all. `Lifetime.RotationsMeetTheWall` and `Lifetime.LoginsMeetTheWall` say
  exactly which refreshes and logins mint a session above the wall, `PastTheWall.AboveTheWallIsAccepted`
  that such a session is let in past it, and `PastTheWall.NotANumberPassesTheWall` and
  `PastTheWall.LongLoginPassesTheWall` give the runs.
- A limiter budget of zero still lets the first hit of every window through (`RateLimit.ZeroBudgetAdmits`);
  twice the budget bounds what passes exactly when the budget is at least one
  (`RateLimit.TwiceTheBudgetNeedsABudget`).
- A denial over several dimensions reports the hint of the last denied one (`RateLimit.HintIsTheLastDenied`),
  which may be too short (`RateLimit.CheckHintMayBeTooShort`); it is right exactly when every dimension's
  window has closed by then or has room (`RateLimit.CheckPassesLater`). The hint of one dimension is exact.
- `revokeAll` on the wallet page does not stop a connect request that is already waiting for the user;
  approved afterwards it makes a new grant (`SignerRuns.RevokeAllLetsAPendingConnectThrough`). Without new
  connects a grant can appear after it exactly when someone was waiting (`SignerRuns.RevokedUntilConsent`).
  Only `close` stops it.
- Voucher `data` and `nonce` are written unescaped into the canonical bytes, so two different secrets can
  share them: `VoucherBytes.TwoSecretsOneText` shows two. A secret shares its bytes with one that says
  something else exactly when the separator between the two fields also occurs elsewhere in them
  (`VoucherBytes.UnescapedFieldsCollide`); kind and signed tags are settled in any case
  (`VoucherBytes.BytesSettleAllButTheSplit`), the lock key exactly without such a separator
  (`VoucherSecret.SignatureSettlesLockKey`).
- `parseVoucherSecret` promises null for everything malformed, but it spells a tag's key before it tests its
  type, and an object with a `toString` of its own cannot be spelled: the parser throws on such a key exactly
  when every tag before it is accepted (`VoucherSecret.ParseVoucherSecret`, an input in
  `VoucherSecret.OwnToStringThrows`).
- Retry safety inside the result-cache window ends with the session: once it is past its retention bound and
  swept, the client that repeats its completion gets no session back. By `SequentialServer.SweepingIsInvisible`
  that is all a client can notice of the sweeps, and `RetryWindow.SweepsGoUnnoticedExactly` says for which
  configurations nobody can: those whose sessions, refreshed or not, are kept as long as their completion can be
  repeated. For every other one `RetryWindow.LateRetryIsRefused` gives the calls.
- A session's predecessor refresh token is meant to end the session when it is presented. It is looked up in
  one step and judged in another, and a refresh that was already past its checks may rotate the session in
  between: then the replay is answered as an unknown token and the session lives on
  (`Replays.RefreshOutrunsReplay`, reached in `Replays.RaceHappens`). It is noticed exactly when the session
  still holds the token it held at the presentation (`Replays.ReplayIsNoticed`).
- The encoder writes every lone surrogate as U+FFFD, so texts that differ only there are signed alike;
  `Utf8.EncodedAlike` says exactly which texts have the same bytes.
- A signed number that cannot be read is written as zero, so a secret whose expiry cannot be read (which
  parses to no expiry) has the bytes of one with expiry zero (`VoucherSecret.UnreadableNumberCollides`,
  exact condition in `VoucherSecret.SignatureSettlesNumbers`).
- `hexToBytes` accepts pairs such as `1g` and `-1`; `Hex.AcceptedHexIsFaithful` says which accepted
  strings spell the bytes returned.
- The mint cache is said to turn a flood of unknown keyset ids into one fetch per entry. A refetch deletes
  the entry before it asks, so a mint that answers plain fetches and fails refetches is fetched from once
  per request (`MintCache.FailedRefetchesLetFetchesThrough`), and a silent one too
  (`MintCache.FailuresAreNotBounded`). `MintCache.FloodIsBounded` holds for every mint: successful fetches
  stay within two per lifetime plus the refetches that failed.

## Model

| member | source | states |
|---|---|---|
| SessionStore.InMemorySessionStore.constructor | packages/nap-server/src/memory.ts:164-175 | a new store is the empty value store |
| SessionStore.InMemorySessionStore.Drop | packages/nap-server/src/memory.ts:209-219 | one swept session leaves all four indexes, the record itself stays |
| SessionStore.InMemorySessionStore.SweepAll | packages/nap-server/src/memory.ts:202-220 | the loop removes exactly the sessions whose retention bound has passed |
| SessionStore.InMemorySessionStore.Sweep | packages/nap-server/src/memory.ts:195-221 | at most one sweep per tick, equal to the value model's sweep |
| SessionStore.InMemorySessionStore.CreateForChallenge | packages/nap-server/src/memory.ts:223-247 | the session already made for this challenge, or a new record in every index |
| SessionStore.InMemorySessionStore.GetBySessionId | packages/nap-server/src/memory.ts:249-251 | the live record under this id, not a copy |
| SessionStore.InMemorySessionStore.GetByAccessToken | packages/nap-server/src/memory.ts:253-259 | sweeps, then finds the live record |
| SessionStore.InMemorySessionStore.GetByRefreshToken | packages/nap-server/src/memory.ts:284-286 | finds the record by its current or previous token |
| SessionStore.InMemorySessionStore.RevokeBySessionId | packages/nap-server/src/memory.ts:261-269 | flags that session and no other |
| SessionStore.InMemorySessionStore.RevokeByPrincipal | packages/nap-server/src/memory.ts:271-282 | flags every unrevoked session of the principal that is still held, and counts them |
| SessionStore.InMemorySessionStore.RotateRefreshToken | packages/nap-server/src/memory.ts:288-318 | compare-and-swap on the current refresh token, moving the record between index keys |
| Sessions.RemoveKeepsIndexed | packages/nap-server/src/memory.ts:209-219 | dropping one session leaves the four indexes exact views of the rest |
| Sessions.SweepKeepsIndexed | packages/nap-server/src/memory.ts:195-221 | so does a whole sweep |
| Sessions.CreateKeepsIndexed | packages/nap-server/src/memory.ts:223-247 | so does creation with fresh tokens: every session is reachable by its keys and by no other |
| Sessions.RotateKeepsIndexed | packages/nap-server/src/memory.ts:288-318 | so does rotation with fresh tokens, including the previous token |
| ChallengeStore.InMemoryChallengeStore.SweepAll | packages/nap-server/src/memory.ts:58-64 | the loop removes exactly the records past their retention bound |
| ChallengeStore.InMemoryChallengeStore.Sweep | packages/nap-server/src/memory.ts:51-65 | once per tick, equal to the value model's sweep |
| ChallengeStore.InMemoryChallengeStore.Create | packages/nap-server/src/memory.ts:67-72 | sweeps, then files a copy of the record |
| ChallengeStore.InMemoryChallengeStore.Get | packages/nap-server/src/memory.ts:74-76 | the live record, not a copy |
| ChallengeStore.InMemoryChallengeStore.Redeem | packages/nap-server/src/memory.ts:78-107 | the four answers and the record's new state, with the late expiry of settled records |
| ChallengeStore.InMemoryChallengeStore.MarkExpired | packages/nap-server/src/memory.ts:109-120 | exactly the issued records past their expiry become expired, and are counted |
| ChallengeStore.InMemoryChallengeStore.CountOutstanding | packages/nap-server/src/memory.ts:122-142 | the number of live issued records that match the filter |
| ChallengeStore.InMemoryChallengeStore.RecordFailure | packages/nap-server/src/memory.ts:144-161 | one more failure on an issued record, terminal at the cap; nothing on any other |
| ConstantTime.Equals | packages/nap-server/src/server.ts:1207-1218 | the loop without early exit answers exactly whether the two byte strings are equal |
| ServerInvariants.ApplyKeepsInv | packages/nap-server/src/memory.ts:223-318 | every session operation with fresh tokens keeps indexes exact, tokens unshared and expiries sound |
| ServerRuns.NextKeepsInv | packages/nap-server/src/server.ts:715-1078 | every step of every call keeps the server invariant |
| ServerRuns.ReachableInv | packages/nap-server/src/memory.ts:164-319 | in every state of every run the four indexes are exact views of one set of live sessions |
| Inits.InitIsLetThrough | packages/nap-server/src/server.ts:283-324 | a login may begin exactly while the live challenges of the npub from the caller's own address, and those of that address, counted over npub, address, state and expiry, are fewer than their caps |
| Inits.OtherAddressesDoNotCount | packages/nap-server/src/server.ts:303-312 | two stores with the same live challenges from the caller's address let the same logins begin, whatever others asked for |
| Inits.ChallengeIsRecorded | packages/nap-server/src/server.ts:569-584 | the record of a login that begins, field by field |
| ServerDecisions.FetchIsExact | packages/nap-server/src/server.ts:715 | in every run a completion fetches exactly the filed record with the id it names |
| Completions.InspectDecides | packages/nap-server/src/server.ts:722-763 | in every run a completion goes on exactly when the record is open, issued to its key, and its challenge and time are signed for; else which code it answers, and that exactly a wrong challenge or time counts one failure |
| Completions.UnknownIsRefused | packages/nap-server/src/server.ts:717-720 | a challenge id no record has is answered as unknown |
| Completions.CompletionsAreSigned | packages/nap-server/src/server.ts:742-763 | in every reachable state a completion that waits for the resolver or has succeeded signed the record's challenge, by its key, inside its window |
| Completions.LoginIsGiven | packages/nap-server/src/server.ts:774-798 | in every run the session a login makes has the roles and permissions of this decision, the npub and pubkey of its challenge, a step-up token exactly when the proof asked for one, and the expiries called for; a denial makes nothing |
| ServerDecisions.RedeemDecides | packages/nap-server/src/server.ts:800-805 | in every run a redemption succeeds exactly on a filed record that is issued and not expired, and what it then records |
| ServerDecisions.ConclusionDecides | packages/nap-server/src/server.ts:807-825 | each of the four answers of a redemption has its own outcome |
| ServerDecisions.RetryDecides | packages/nap-server/src/server.ts:827-832 | in every run a repeated completion is answered again exactly for the event that redeemed the record, within its result-cache time, with the session it was redeemed for |
| ServerDecisions.ResumeDecides | packages/nap-server/src/server.ts:834-851 | that session, or an internal error when it has gone |
| Progress.HonestLoginSucceeds | packages/nap-server/src/server.ts:471-857 | from any state a run can reach, a visitor the caps let begin, who signs what it is sent inside its window and whom the resolver allows, gets a session as its challenge, proof and decision say, and its access token is let in |
| RetrySafety.OneSessionPerChallenge | packages/nap-server/src/server.ts:715-857 | all completions of a challenge that succeed carry one session, one event and one key |
| RetrySafety.RedeemedAtMostOnce | packages/nap-server/src/memory.ts:98-104 | over any run `redeem` answers `redeemed` at most once per challenge |
| RetrySafety.BudgetAndRedemptionExclude | packages/nap-server/src/memory.ts:144-161 | failures stay within the cap; burnt and redeemed exclude each other in either order; never back to issued |
| RefreshSafety.SingleSpend | packages/nap-server/src/server.ts:942-1078 | a refresh token is consumed by at most one successful rotation of any session |
| RefreshSafety.TokensFormOneChain | packages/nap-server/src/memory.ts:298-315 | a session's tokens form one chain of distinct tokens ending in previous and current |
| RefreshSafety.LinksAreRotations | packages/nap-server/src/memory.ts:288-318 | the chain grows only by a successful rotation that consumes its last token |
| ServerDecisions.RefreshLookupIsExact | packages/nap-server/src/memory.ts:284-286 | in every run a refresh finds exactly the session that holds the token, now or as its predecessor |
| Refreshes.CheckDecides | packages/nap-server/src/server.ts:955-1011 | in every run, for the session a refresh found, exactly when it may go on, which code it answers otherwise, and that exactly a replay revokes the session |
| Refreshes.RotationIsGiven | packages/nap-server/src/server.ts:1047-1064 | every rotation of every run takes roles and permissions from this very decision, the expiries called for, and leaves npub, pubkey, challenge, step-up token, login time and every other session alone |
| Refreshes.RightsAreThoseLastDecided | packages/nap-server/src/server.ts:1047-1064 | over any run a session's roles and permissions are those of the last refresh that succeeded, or of its login |
| Refreshes.DenialDecides | packages/nap-server/src/server.ts:1022-1036 | a denied refresh renews nothing and revokes the principal's live sessions exactly when the decision says so |
| Refreshes.GrantRotatesExactly | packages/nap-server/src/server.ts:1047-1069 | an allowed refresh rotates exactly while its session is still filed and holds the token it was checked with |
| Progress.LiveSessionIsRenewed | packages/nap-server/src/server.ts:942-1078 | from any state a run can reach, the refresh token of a live session, presented in time and allowed, renews that session |
| Revocation.ReplayKills | packages/nap-server/src/server.ts:955-971 | the check of a token that is by then the session's predecessor revokes the session whatever else is wrong with it |
| Replays.ReplayIsNoticed | packages/nap-server/src/server.ts:942-978 | a token that is the predecessor when presented is answered as reused and the session dead exactly when no refresh has rotated the session until the check; otherwise it is answered as unknown and no session changes |
| Replays.RefreshOutrunsReplay | packages/nap-server/src/memory.ts:288-318 | a refresh past its checks can rotate a live session between lookup and check of the replay, and the session lives on |
| Replays.RaceHappens | packages/nap-server/src/server.ts:942-1078 | a run that ends in such a state |
| Revocation.DeathIsFinal | packages/nap-server/src/server.ts:955-986 | after revocation no request is let in on the session and only refreshes already past their checks can still succeed |
| Revocation.DeadTokensAreRefused | packages/nap-adapter-express/src/adapter.ts:361-371 | an access token a dead session ever held lets nobody in, on that or any other session |
| ServerDecisions.LoadLookupIsExact | packages/nap-server/src/memory.ts:253-259 | in every run a guarded request sweeps and then finds exactly the session whose access token it presents; the sweep forgets exactly the sessions neither token of which can still be of use |
| ServerDecisions.AcceptDecides | packages/nap-adapter-express/src/adapter.ts:361-371 | in every run a request is let in exactly with the session it found, not revoked and before its expiry |
| ServerDecisions.LogoutIsExact | packages/nap-server/src/memory.ts:261-269 | in every run logout revokes the session with this id and no other |
| ServerDecisions.PrincipalRevocationIsExact | packages/nap-server/src/memory.ts:271-282 | in every run the filed unrevoked sessions of the principal are revoked and no others |
| ServerDecisions.ExpiryIsExact | packages/nap-server/src/memory.ts:109-120 | in every run exactly the filed issued records past their expiry become expired |
| ServerDecisions.IssueSweepsExactly | packages/nap-server/src/memory.ts:51-72 | in every run issuing a challenge first forgets, once per tick, exactly the records of no more use |
| Lifetime.MintedExpiryIsInTheFuture | packages/nap-server/src/server.ts:1230-1246 | whatever the bound, a minted expiry lies after its `now` and within the configured time to live |
| Lifetime.MintedExpiryIsExact | packages/nap-server/src/server.ts:1230-1246 | the exact end of what a login and a refresh mint: the configured time to live, or the first of the resolver's bound and the wall, but one second at least |
| Lifetime.RenewalStaysBelowCeiling | packages/nap-server/src/server.ts:1040-1061 | exactly when a refresh below the ceiling mints an expiry below it; the refresh expiry always is |
| Lifetime.NotANumberEscapesTheWall | packages/nap-server/src/server.ts:1235-1237 | the arithmetic of a refresh one second before the wall that mints a full session past it |
| Lifetime.LoginStaysBelowCeiling | packages/nap-server/src/server.ts:783-797 | exactly when a login, which is not clamped to the ceiling, mints an expiry below it |
| Lifetime.LoginsMeetTheWall | packages/nap-server/src/server.ts:783-797 | for every login of every run, exactly when its access expiry stays within the wall |
| PastTheWall.AboveTheWallIsAccepted | packages/nap-adapter-express/src/adapter.ts:361-371 | from any state of any run, a live session minted above its wall is let in past it in the run that goes on from there by waiting and presenting its token |
| PastTheWall.LongLoginPassesTheWall | packages/nap-server/src/server.ts:783-797 | with a login time to live above the lifetime, a run lets a request in past the wall without any refresh |
| PastTheWall.NotANumberPassesTheWall | packages/nap-server/src/server.ts:1230-1246 | one refresh answered with `NaN` and a run lets a request in past the wall |
| Lifetime.RotationsMeetTheWall | packages/nap-server/src/server.ts:1001-1064 | for every rotation of every run, exactly when its access expiry stays within the wall |
| Lifetime.NoAcceptancePastTheWall | packages/nap-server/src/server.ts:1001-1064 | in a run whose logins and refreshes all fit, no guarded request is let in at or past login plus the lifetime |
| Lifetime.LoginTimeIsFixed | packages/nap-server/src/memory.ts:306-312 | `issued_at` never changes |
| NonInterference.StrangersLeaveNoTrace | packages/nap-server/src/server.ts:734-742 | dropping any completions signed by other keys from a run leaves a run with the same records, sessions and other outcomes |
| OutstandingCaps.OvershootIsBelowRaces | packages/nap-server/src/server.ts:283-324 | with k racing inits the live challenges exceed a cap by at most k - 1; run one at a time, never; for an npub at one address, an npub of callers without one, or an address |
| SessionSweep.SweepingSessionsIsInvisible | packages/nap-server/src/memory.ts:195-221 | a sweeping store and a table that never deletes answer every guarded request and refresh alike, if no token of a session nobody was given is presented |
| SequentialServer.SweepingIsInvisible | packages/nap-server/src/memory.ts:51-65 | the server on its two stores answers every init, completion, count, request, refresh and revocation as one that never forgets, except that a retry whose session is past its retention bound gets none; all answers are equal exactly when there is no such retry; clients present tokens they were answered with or any the server never drew |
| RetryWindow.SweepsGoUnnoticedExactly | packages/nap-server/src/server.ts:827-851 | every workload is answered as by the server that never forgets exactly when the configuration keeps each session as long as its completion can be repeated |
| RetryWindow.LateRetryIsRefused | packages/nap-server/src/server.ts:827-851 | for every other configuration, calls whose last, a retry inside the result-cache window, gets no session |
| SequentialServer.SweepingChallengesIsInvisible | packages/nap-server/src/memory.ts:51-72 | each with its own session store, the server that sweeps challenges and the one that never does answer every call alike |
| OneAtATime.InitAlone | packages/nap-server/src/server.ts:546-595 | from any state a run can reach, an init with no other step in between leaves the stores and answers as the sequential server does |
| OneAtATime.CompletionAlone | packages/nap-server/src/server.ts:715-857 | so does a completion, whichever way it goes |
| OneAtATime.LoadAlone | packages/nap-adapter-express/src/adapter.ts:361-371 | so does a guarded request |
| OneAtATime.RefreshAlone | packages/nap-server/src/server.ts:942-1078 | so does a refresh |
| OneAtATime.LogoutAlone | packages/nap-server/src/memory.ts:261-269 | so does a logout |
| OneAtATime.RevocationAlone | packages/nap-server/src/memory.ts:271-282 | so does the revocation of a principal |
| OneAtATime.ExpiryAlone | packages/nap-server/src/memory.ts:109-120 | so does the expiry of challenges |
| RateLimit.InMemoryRateLimiter.Prune | packages/nap-server/src/rateLimit.ts:77-89 | once per tick, removes exactly the closed windows |
| RateLimit.InMemoryRateLimiter.HitOne | packages/nap-server/src/rateLimit.ts:46-64 | one hit decides as the specification does from the whole log |
| RateLimit.InMemoryRateLimiter.Check | packages/nap-server/src/rateLimit.ts:92-120 | every dimension is counted, the decision is the specification's, and only open windows are kept |
| RateLimit.DeniedExactly | packages/nap-server/src/rateLimit.ts:46-64 | a hit is denied exactly when the window open for its identifier, started by a hit in the log, has had a budget of hits since |
| RateLimit.IdentifiersAreNamed | packages/nap-server/src/rateLimit.ts:97-105 | which identifiers a key is counted under: its npub at its address, its pubkey, its address |
| RateLimit.AtMostTwoBudgets | packages/nap-server/src/rateLimit.ts:46-64 | at most twice the budget is admitted in any interval as long as a window |
| RateLimit.ZeroBudgetAdmits | packages/nap-server/src/rateLimit.ts:46-54 | with a budget of zero a hit passes exactly when no window is open |
| RateLimit.TwiceTheBudgetNeedsABudget | packages/nap-server/src/rateLimit.ts:46-64 | twice the configured budget bounds every ordered log exactly when the budget is at least one |
| RateLimit.RetryHintIsExact | packages/nap-server/src/rateLimit.ts:56-61 | a denied hit does not move the window: the next hit is admitted exactly from the hinted time on |
| RateLimit.HintIsTheLastDenied | packages/nap-server/src/rateLimit.ts:108-119 | a denied check reports the hint of the last dimension that is denied |
| RateLimit.CheckPassesLater | packages/nap-server/src/rateLimit.ts:92-120 | after any check the same key passes at a later time exactly when each dimension's window has closed by then or has room, the ones this check filled included |
| RateLimit.CheckHintMayBeTooShort | packages/nap-server/src/rateLimit.ts:115-119 | a concrete npub and address whose denial reports a hint shorter than the wait |
| CrossOriginSigner.ValidatePolicy | packages/nap-client-web/src/crossOriginSigner.ts:171-198 | accepted exactly when it names an origin and every entry is valid; the last entry per origin counts; lifetimes within the cap |
| SignerDecisions.EntriesAreSpelled | packages/nap-client-web/src/crossOriginSigner.ts:179-196 | when an entry is valid and what counts of it, field by field |
| CrossOriginSigner.Signer.DropEach | packages/nap-client-web/src/crossOriginSigner.ts:261-272 | the given grants end and each origin is told once |
| CrossOriginSigner.Signer.RevokeMatching | packages/nap-client-web/src/crossOriginSigner.ts:474-481 | exactly the grants with this id or origin end |
| CrossOriginSigner.Signer.CloseSigner | packages/nap-client-web/src/crossOriginSigner.ts:483-489 | every grant ends and the page is closed, once |
| CrossOriginSigner.Signer.HandleConnect | packages/nap-client-web/src/crossOriginSigner.ts:274-287 | a request outside the policy is refused before anyone is asked |
| CrossOriginSigner.Signer.ConnectAnswered | packages/nap-client-web/src/crossOriginSigner.ts:289-352 | what the page does once unlocking, signer and user have answered |
| CrossOriginSigner.Signer.HandleSign | packages/nap-client-web/src/crossOriginSigner.ts:354-385 | the checks up to the first await, and the claim of the grant's one free completion |
| CrossOriginSigner.Signer.PromptAnswered | packages/nap-client-web/src/crossOriginSigner.ts:386-399 | declined, revoked meanwhile, or on to the signer |
| CrossOriginSigner.Signer.SignerAnswered | packages/nap-client-web/src/crossOriginSigner.ts:401-421 | a reply only for a standing grant, its key and the template asked for; a changed key ends every grant |
| CrossOriginSigner.Signer.Listen | packages/nap-client-web/src/crossOriginSigner.ts:423-448 | only the opener, from an origin in the policy, while open, is heard |
| SignerRuns.StepKeepsInv | packages/nap-client-web/src/crossOriginSigner.ts:274-490 | every interleaved step keeps grants inside the policy and every request inside its grant |
| SignerRuns.OneUnpromptedCompletion | packages/nap-client-web/src/crossOriginSigner.ts:377-399 | over any run at most one completion proof per grant reaches the signer without an approved prompt, whatever became of it |
| SignerRuns.SignedRepliesAreCovered | packages/nap-client-web/src/crossOriginSigner.ts:354-421 | each signed reply posted answers one request, goes to its grant's origin and window, and is inside grant, policy, skew and the lifetime counted from when the grant was made |
| SignerDecisions.SignedOnlyWhenAsked | packages/nap-client-web/src/crossOriginSigner.ts:384-399 | in every reachable state, every request at or past the signer was approved by the user exactly when the page asks about every signature |
| SignerDecisions.SignRequestsAreDecided | packages/nap-client-web/src/crossOriginSigner.ts:354-399 | in every reachable state a request goes to the user exactly when its grant covers it and the page asks, straight to the signer exactly when it is covered, the page does not ask and it is no completion or the grant's first, and is refused with its own code otherwise |
| SignerDecisions.PromptIsDecided | packages/nap-client-web/src/crossOriginSigner.ts:385-399 | after the prompt: declined, revoked, or on to the signer |
| SignerDecisions.SignerAnswersAreDecided | packages/nap-client-web/src/crossOriginSigner.ts:401-421 | the event is sent exactly while the grant stands, by its key, of the template asked for; another key ends every grant and tells each origin once |
| SignerDecisions.CoveredRequestsAreSigned | packages/nap-client-web/src/crossOriginSigner.ts:354-421 | from any reachable state, a covered request whose signer answers with the grant's key and its template, approved where the page asks, gets its signed reply |
| SignerRuns.EndIsFinal | packages/nap-client-web/src/crossOriginSigner.ts:398-407 | once a grant is gone no request yields a signed reply for it in any later run |
| SignerRuns.CloseIsFinal | packages/nap-client-web/src/crossOriginSigner.ts:483-489 | after close the grant table stays empty and nothing is signed |
| SignerRuns.GrantsComeFromConsent | packages/nap-client-web/src/crossOriginSigner.ts:322-342 | a grant appears exactly by an approved consent, with the expected key, on an open page |
| SignerDecisions.ConnectRequestsAreDecided | packages/nap-client-web/src/crossOriginSigner.ts:274-287 | a connect waits for the user exactly when all it asks for is in the policy of its origin, and then with just that |
| SignerDecisions.ConsentIsDecided | packages/nap-client-web/src/crossOriginSigner.ts:289-352 | in every reachable state exactly when the grant is made, with what was asked for and the policy's lifetime, at most 900 seconds; else which answer goes out |
| SignerDecisions.RevocationsAreTold | packages/nap-client-web/src/crossOriginSigner.ts:474-481 | in every reachable state a revocation ends exactly the grants with this id or origin, and tells each origin once |
| SignerDecisions.EndingIsTold | packages/nap-client-web/src/crossOriginSigner.ts:261-272 | so do revokeAll and close, for every grant |
| SignerDecisions.DisconnectIsDecided | packages/nap-client-web/src/crossOriginSigner.ts:437-444 | a relying origin can end its own grants and no others |
| SignerDecisions.StrangersAreIgnored | packages/nap-client-web/src/crossOriginSigner.ts:423-426 | a message from another window, from an origin the policy does not name, or after the end changes nothing |
| SignerRuns.RevokedUntilConsent | packages/nap-client-web/src/crossOriginSigner.ts:268-272 | after revokeAll on an open page a run without new connects can end with a grant exactly when a connect was waiting for consent |
| SignerRuns.RevokeAllLetsAPendingConnectThrough | packages/nap-client-web/src/crossOriginSigner.ts:322-342 | any waiting connect makes a grant after revokeAll once the user approves an identity it accepts |
| CrossOriginClient.Connection.FailPending | packages/nap-client-web/src/crossOriginClient.ts:147-151 | the loop fails every waiting request once and clears its timer |
| CrossOriginClient.Connection.EndChannel | packages/nap-client-web/src/crossOriginClient.ts:142-160 | the first reason stands; every request and listener is told |
| CrossOriginClient.Connection.MakeRequest | packages/nap-client-web/src/crossOriginClient.ts:162-174 | a request waits under its id with a timer, or fails at once after the end |
| CrossOriginClient.Connection.TimerFires | packages/nap-client-web/src/crossOriginClient.ts:168-171 | the request leaves the table and fails with a timeout |
| CrossOriginClient.Connection.Listen | packages/nap-client-web/src/crossOriginClient.ts:176-216 | only the opened window on the key origin is heard; a reply settles the request with its id |
| CrossOriginClient.Connection.ConnectAnswered | packages/nap-client-web/src/crossOriginClient.ts:315-330 | a grant wider than asked for, or for another key, is refused |
| CrossOriginClient.Connection.StartSigning | packages/nap-client-web/src/crossOriginClient.ts:241-250 | an ended or expired grant throws before anything is posted |
| CrossOriginClient.FinishSign | packages/nap-client-web/src/crossOriginClient.ts:251-258 | an event is returned exactly when it has the grant's key, the template asked for and a valid signature |
| CrossOriginClient.Connection.OnEndOfGrant | packages/nap-client-web/src/crossOriginClient.ts:268-275 | a listener added after the end is told the reason at once, one added before it is kept |
| CrossOriginClient.Connection.DisconnectGrant | packages/nap-client-web/src/crossOriginClient.ts:276-280 | tells the key origin once, then ends |
| ClientRuns.SettledExactlyOnce | packages/nap-client-web/src/crossOriginClient.ts:162-216 | in every run a request waits with its timer running, or was settled exactly once and only by a reply with its id |
| ClientRuns.EndIsFinal | packages/nap-client-web/src/crossOriginClient.ts:142-160 | after the end the table stays empty, nothing is posted, later requests fail at once, no listener hears it twice |
| ClientRuns.EndTellsEveryone | packages/nap-client-web/src/crossOriginClient.ts:147-158 | everyone waiting or listening gets the reason exactly once |
| ClientRuns.RepliesComeFromTheKeyOrigin | packages/nap-client-web/src/crossOriginClient.ts:176-178 | a request is answered only by a message from the opened window on the key origin |
| ClientDecisions.MessagesAreDecided | packages/nap-client-web/src/crossOriginClient.ts:176-216 | in every reachable state what each message leads to: the one request settled and with what, or the end of the channel and its reason |
| ClientDecisions.ConnectIsAsked | packages/nap-client-web/src/crossOriginClient.ts:302-314 | the connect request posted: the kinds, audiences and identity configured |
| ClientDecisions.ConnectAnswersAreDecided | packages/nap-client-web/src/crossOriginClient.ts:315-330 | in every reachable state the page has the grant exactly when the reply fits what was asked for; any other ends the channel |
| ClientDecisions.SigningIsDecided | packages/nap-client-web/src/crossOriginClient.ts:241-250 | in every reachable state a signature is asked for exactly while the channel is open and the grant has not expired |
| ClientDecisions.DisconnectIsDecided | packages/nap-client-web/src/crossOriginClient.ts:276-280 | tells the key origin which grant to drop, once, and ends the channel |
| ClientDecisions.FailuresAreDecided | packages/nap-client-web/src/crossOriginClient.ts:142-174 | a timer fails its own request and no other; a popup that has gone ends the channel |
| ClientDecisions.GrantsArrive | packages/nap-client-web/src/crossOriginClient.ts:286-330 | a page that announces itself and answers with a fitting grant is connected to |
| ClientDecisions.SignaturesComeBack | packages/nap-client-web/src/crossOriginClient.ts:241-258 | from any reachable state with a live grant, the event posted under the request's id settles it, and is returned exactly with the grant's key, its template and a valid signature |
| Dleq.ScalarsHaveOneSpelling | packages/nap-voucher/src/dleq.ts:49-57 | no scalar has a second accepted spelling |
| Dleq.ScalarRoundTrip | packages/nap-voucher/src/dleq.ts:49-57 | a 64-digit spelling parses exactly for numbers strictly between zero and the order |
| Dleq.HashToCurve | packages/nap-voucher/src/dleq.ts:85-103 | the counter loop computes the curve point specified |
| Dleq.LeastTrialWins | packages/nap-voucher/src/dleq.ts:85-103 | it is read from byte 2 and the hash of the hash of prefix and secret and of the four counter bytes, low byte first, for the least counter that reads as a point; none exactly when none of the 2^24 does |
| Dleq.HashIsChallenge | packages/nap-voucher/src/dleq.ts:130-134 | the hash is that of the four uncompressed encodings one after the other, as text, and exists exactly when all four have one |
| Dleq.DleqIsDecided | packages/nap-voucher/src/dleq.ts:150-181 | a blind proof is accepted exactly when its texts are points and scalars that satisfy the two equations under that hash |
| Dleq.VoucherProofIsDecided | packages/nap-voucher/src/dleq.ts:192-217 | a voucher proof is accepted exactly when it has a secret and its texts satisfy them for the points rebuilt from the secret's point and the blinding factor |
| SmallCurve.LawfulCurveExists | packages/nap-voucher/src/dleq.ts:85-103 | the laws assumed of group and encodings can be met |
| SmallCurve.HonestProofExists | packages/nap-voucher/src/dleq.ts:187-217 | so can all that is assumed of an honest proof, and that proof is accepted |
| Dleq.BlindingKeepsTheRelation | packages/nap-voucher/src/dleq.ts:187-212 | C = aY exactly when C' = aB' |
| Dleq.SoundExactlyWithoutSharedExponent | packages/nap-voucher/src/dleq.ts:170-173 | two challenges are answerable for one commitment pair exactly when A and C' share an exponent |
| Dleq.ForgeryAnswersOneChallenge | packages/nap-voucher/src/dleq.ts:192-214 | if C is not aY, each commitment pair has at most one answerable challenge, whatever r is claimed |
| Dleq.HonestBlindProof | packages/nap-voucher/src/dleq.ts:150-176 | a blind proof whose challenge is the hash of the uncompressed encodings of the honest commitments, the key and the signed point is accepted exactly when challenge and response are in the scalar range |
| Dleq.HonestProofIsAccepted | packages/nap-voucher/src/dleq.ts:192-214 | so is an honest unblinded proof after B' and C' are rebuilt from r |
| Dleq.InfinityIsRefused | packages/nap-voucher/src/dleq.ts:209-217 | a rebuilt point at infinity is never accepted |
| VoucherCanonical.EscapeJson | packages/nap-voucher/src/secret.ts:242-278 | the loop writes the escape of every character in order |
| VoucherCanonical.EscapesAreNamed | packages/nap-voucher/src/secret.ts:242-278 | the seven short escapes by name, four hexadecimal digits for other control characters, and every other character as itself |
| VoucherCanonical.ReadEscaped | packages/nap-voucher/src/secret.ts:242-278 | a JSON reader gets the text back from its escape, whatever follows the closing quote |
| VoucherCanonical.EscapeIsInjective | packages/nap-voucher/src/secret.ts:242-278 | different texts have different escapes |
| VoucherCanonical.EscapeHasNoBareQuote | packages/nap-voucher/src/secret.ts:245-250 | no quote is left unescaped and no escape unfinished |
| VoucherCanonical.CanonicalText | packages/nap-voucher/src/secret.ts:316-340 | the loops write the rendering: kind, data, nonce and the signed tags with commas between |
| VoucherCanonical.VoucherInFull | packages/nap-voucher/src/secret.ts:316-340 | that rendering in full around its tags, with the kind's own name |
| VoucherCanonical.TagsInFull | packages/nap-voucher/src/secret.ts:318-335 | of any four tags, texts escaped and quoted, numbers bare, a tag added after signing left out |
| VoucherCanonical.SchemaIsNamed | packages/nap-voucher/src/secret.ts:62-73 | which keys are numbers and which are added after signing |
| VoucherReader.ReadOfRender | packages/nap-voucher/src/secret.ts:304-340 | the rendering of a quote-free secret reads back to its kind, data, nonce and ordered signed tags |
| Utf8.EncodingIsInjective | packages/nap-voucher/src/secret.ts:339 | the encoded bytes determine a text without lone surrogates |
| Utf8.CharIsUtf8 | packages/nap-voucher/src/secret.ts:339 | the one to four bytes of a character: length in the first byte, six bits in each other, highest first |
| Utf8.TextIsEncodedInOrder | packages/nap-voucher/src/secret.ts:339 | a text is encoded character by character |
| Utf8.EncodedAlike | packages/nap-voucher/src/secret.ts:339 | two texts with lone surrogates have the same bytes exactly when they differ in nothing but these and U+FFFD |
| VoucherBytes.BytesSettleAllButTheSplit | packages/nap-voucher/src/secret.ts:304-340 | any two secrets of texts without lone surrogates have the same bytes exactly when kind, signed tags and the two raw fields run together are the same |
| VoucherBytes.UnescapedFieldsCollide | packages/nap-voucher/src/secret.ts:317 | among texts without lone surrogates, a secret that says something else has the same bytes exactly when the separator occurs elsewhere in data and nonce run together |
| VoucherBytes.QuoteFreeBytesAreUnshared | packages/nap-voucher/src/secret.ts:304-340 | any secret of texts without lone surrogates has the bytes of one without quotes in data and nonce exactly when it says the same |
| VoucherBytes.TwoSecretsOneText | packages/nap-voucher/src/secret.ts:317 | two secrets with different data and nonce and one text |
| VoucherSecret.ParseTags | packages/nap-voucher/src/secret.ts:172-213 | accepted exactly when every tag is a list of texts and no key repeats; throws exactly when the first tag not accepted has a key that cannot be spelled |
| VoucherSecret.ParseVoucherSecret | packages/nap-voucher/src/secret.ts:133-231 | accepted exactly in the well-formed shape, with every field read off the tags, numbers included; only a locked voucher has a lock key; throws exactly on a key that cannot be spelled |
| VoucherSecret.OwnToStringThrows | packages/nap-voucher/src/secret.ts:191 | a secret on which the parser throws |
| VoucherSecret.LookupIsUnambiguous | packages/nap-voucher/src/secret.ts:184-197 | in an accepted secret a tag's value is the only one under its key |
| VoucherSecret.ViewsAreByName | packages/nap-voucher/src/secret.ts:215-231 | each field read off an accepted secret is what its own tag says, by name: issuer, key, signature, unit, expiry, face value; voucher id and lock key by kind |
| VoucherSecret.SignatureSettlesTags | packages/nap-voucher/src/secret.ts:304-340 | any two accepted secrets of texts without lone surrogates that have the same bytes agree on kind and every signed text tag |
| VoucherSecret.SignatureSettlesLockKey | packages/nap-voucher/src/secret.ts:304-340 | some accepted secret of texts without lone surrogates has the same bytes and another lock key exactly when the voucher is locked and the separator occurs elsewhere in its fields |
| VoucherSecret.SignatureSettlesNumbers | packages/nap-voucher/src/secret.ts:115-122 | and on a signed number exactly when both or neither can be read; otherwise one has none and the other has zero |
| VoucherSecret.UnreadableNumberCollides | packages/nap-voucher/src/secret.ts:287-302 | expiry zero and an expiry that cannot be read have the same bytes |
| VoucherSecret.LawfulNumbersExist | packages/nap-voucher/src/secret.ts:287-302 | the laws assumed of number reading and writing can be met |
| MintCache.MintClient.LoadKeysets | packages/nap-voucher/src/mintClient.ts:235-246 | an unexpired entry answers; otherwise one fetch, stored when it succeeds |
| MintCache.MintClient.Get | packages/nap-voucher/src/mintClient.ts:249-281 | a miss refetches once per entry |
| MintCache.GetIsDecided | packages/nap-voucher/src/mintClient.ts:235-281 | what a call answers, fetches and caches, for a fresh entry, a missing one, and a keyset missing from either |
| MintCache.ParseKeysets | packages/nap-voucher/src/mintClient.ts:110-140 | a keyset is published exactly by the last usable entry with its id; none at all is an error |
| MintCache.UsableKeysAreLast | packages/nap-voucher/src/mintClient.ts:122-128 | a key is the last text for its amount, in lower case |
| MintCache.UsableIsSpelled | packages/nap-voucher/src/mintClient.ts:117-132 | an entry is usable exactly with an id and a key that is a text |
| MintCache.FloodIsBounded | packages/nap-voucher/src/mintClient.ts:78-96 | whatever fetches fail, at most 2 (floor(T / ttl) + 1) successful fetches from one origin within any span T, plus its refetches that failed in it |
| MintCache.KeysAreFresh | packages/nap-voucher/src/mintClient.ts:235-281 | every key handed out is from this mint's answer of less than one lifetime ago, failed fetches included |
| MintCache.FailedRefetchesLetFetchesThrough | packages/nap-voucher/src/mintClient.ts:258-261 | for every n a run in which a mint that fails its refetches answers n fetches in one instant |
| MintCache.FailuresAreNotBounded | packages/nap-voucher/src/mintClient.ts:242-243 | for every n a run of n calls that fetches n times in one instant from a silent mint |
| Hex.HexToBytes | packages/nap-core/src/codec.ts:9-29 | the loop computes the bytes of the pairs of code units, or fails when one is not a number or their number is odd |
| Hex.AcceptedIsNarrow | packages/nap-core/src/codec.ts:10-14 | nothing that holds a character of two code units is accepted |
| Hex.HexRoundTrip | packages/nap-core/src/codec.ts:9-33 | reading back what was written gives the same bytes |
| Hex.BytesAreSpelled | packages/nap-core/src/codec.ts:31-33 | each byte is written as two of the sixteen digits, the high one first |
| Hex.PairsAreRead | packages/nap-core/src/codec.ts:18-26 | which pairs are read, and as what number |
| Text.WhiteSpaceIsNamed | packages/nap-core/src/codec.ts:10 | the white space that is trimmed, code point by code point |
| Text.LettersAreLowered | packages/nap-core/src/codec.ts:10 | the letters that are lowered |
| Hex.AcceptedHexIsFaithful | packages/nap-core/src/codec.ts:18-26 | an accepted string spells its bytes exactly when it is all hexadecimal digits |
| Hex.LaxPairs | packages/nap-core/src/codec.ts:19-23 | two accepted strings that are not hexadecimal |
| Base64.EncodeBytes | packages/nap-core/src/codec.ts:35-51 | the loop writes the encoding group by group |
| Base64.SextetsOfChunk | packages/nap-core/src/codec.ts:42-47 | the groups of six bits are the shifts and masks of the chunk |
| Base64.OctetsOfChunk | packages/nap-core/src/codec.ts:96-107 | so are the bytes on the way back |
| Base64.DecodeBytes | packages/nap-core/src/codec.ts:53-112 | the decoder computes the specified bytes, each slot written once and in order, or fails exactly where there are none |
| Base64.DecodeQuads | packages/nap-core/src/codec.ts:73-109 | the output sized beforehand has the result's length, and the writes are its slots, each once and in order |
| Base64RoundTrips.AlphabetsAreNamed | packages/nap-core/src/codec.ts:1-5 | the symbols of both alphabets by name |
| Base64RoundTrips.AcceptedExactly | packages/nap-core/src/codec.ts:53-112 | a text decodes exactly when, white space aside, it is groups of four symbols, the last perhaps padded |
| Base64RoundTrips.WhiteSpaceIsIgnored | packages/nap-core/src/codec.ts:54 | white space anywhere makes no difference, and nothing else is left out |
| Base64RoundTrips.DecodeOfEncode | packages/nap-core/src/codec.ts:35-112 | decoding an encoding gives the bytes back, for all byte strings |
| Base64RoundTrips.EncodeOfDecode | packages/nap-core/src/codec.ts:35-112 | a decodable text is the encoding of its bytes exactly without white space and stray bits |
| Base64RoundTrips.UrlIsInjective | packages/nap-core/src/codec.ts:114-116 | base64url without padding still determines the bytes |
| Nip98Platform.LawsCanBeMet | packages/nap-core/src/header.ts:10-49 | a platform and a signer with all the laws the next rows assume |
| Nip98Verified.VerifiedExactly | packages/nap-core/src/validate.ts:57-151 | for every header and body, whoever made them: verified, with this event, challenge, id and hash, exactly when the header carries the event, its signature, kind, content and time are right, and it has exactly one tag of each name with the value called for |
| Nip98Verified.CarriedIsDecided | packages/nap-core/src/validate.ts:74-94 | for every event carried, exactly when kind, content, signature and time are refused, each with its code |
| Nip98Verified.TagsDecide | packages/nap-core/src/validate.ts:96-151 | for every proven event, exactly when each check of its tags refuses it, and with which code |
| Nip98Verified.WithoutAnEvent | packages/nap-core/src/validate.ts:60-72 | a header that carries no event is refused, and why |
| Nip98Verified.HeaderCarries | packages/nap-core/src/header.ts:10-49 | a header parses to an event exactly when it is the scheme and base64 of JSON that spells the event |
| Nip98Verified.BodyIsSpelled | packages/nap-server/src/server.ts:374-401 | a body is read exactly as the completion request it spells, voucher credential included |
| Nip98Honest.HeaderReadsBack | packages/nap-core/src/header.ts:10-49 | a header built from any event whose numbers exist parses to that event |
| Nip98Honest.BuiltBodyArrives | packages/nap-server/src/server.ts:374-401 | a built body parses back with its challenge id, step-up flag and voucher |
| Nip98Honest.HonestHeaderIsVerified | packages/nap-core/src/validate.ts:57-151 | whatever arrives with an honest header is verified exactly when the body names the challenge and has the signed hash, within the skew, at the challenge's URL and method |
| Nip98Honest.HonestCompletionIsAccepted | packages/nap-core/src/validate.ts:57-151 | a built completion is verified exactly within the skew when its URL parses, and returns the same challenge and id |
| Nip98Honest.SwappedBodyIsRefused | packages/nap-client-http/src/client.ts:67-99 | with another raw body it is refused for its payload unless the hash is the same |

## Left out

- HTTP routing, cookies, header parsing for bearer tokens, body parsers, and the Fastify twin of the Express adapter: plumbing over frameworks. Of the adapter only the acceptance test of `loadSession` is modelled, from the token on.
- The Postgres store: its behaviour lives in SQL and differs from the in-memory store at boundaries.
- Response padding, jitter, audit logging and metrics: no effect on outcomes.
- The rate limiter inside the server machine: `RateLimit` stands alone, and the server machine runs as if it admitted every call.
- `acl.ts`, `resolver.ts`, `allowlist.ts`, `guard.ts` and step-up checks of guarded routes: ordered checks; the resolver is an oracle, and one that throws is not modelled.
- Stores without `countOutstanding` or `recordFailure`: the in-memory stores have both.
- SHA-256, Schnorr signatures, curve arithmetic, JSON, URL parsing, text decoding and npub decoding: uninterpreted functions with the laws named `Lawful`, `LawfulCurve`, `LawfulNumbers` and `Honest`. Numbers are reals of which only some exist, as doubles do.
- React hooks, NIP-07, NIP-46, Web Storage consent, the session tab lock, the `BroadcastChannel` wiring (its four messages are the `RevokesAll` label): interface code.
- `parseMessage` and its size limits: messages arrive typed.
- Callbacks that call back into the object: `onGrantsChanged` and end listeners are taken to return before anything else happens.
- Strings are sequences of Unicode scalar values. JavaScript strings can also hold lone surrogates, of which only the encoder is modelled (`Utf8`); times to live, clocks and challenge times are integers.
- Member order of JSON objects: an object is a finite map, and a writer gives one text for it.
- `checkState`, request timeouts and the allowlist of the mint client: a fetch answers with parsed keysets or fails. Concurrent calls and `clearCache` are not modelled.
- SessionSweep.SweepingSessionsIsInvisible: assumes that no token of a session nobody was given is presented; `SequentialServer.SweepingIsInvisible` derives it.
- SequentialServer.SweepingIsInvisible: stated for calls one at a time, and times to live and result-cache times that are not negative.
- RetryWindow.SweepsGoUnnoticedExactly: without a lifetime ceiling, for refreshes whose expiry stays a safe integer.
- Progress.HonestLoginSucceeds: with no step of another call in between, in the second the login begins; what other calls may do to it is said by the theorems on every run.
- Progress.LiveSessionIsRenewed: the same.
- SignerDecisions.CoveredRequestsAreSigned: the same, at the wallet page.
- ClientDecisions.SignaturesComeBack: the same, at the relying page.
- OneAtATime.InitAlone: counting outstanding challenges from outside an init has no step of its own in the machine.
- VoucherBytes.BytesSettleAllButTheSplit: says nothing of secrets that hold lone surrogates; by `Utf8.EncodedAlike` two that differ only there share their bytes.
- VoucherSecret.SignatureSettlesTags: the same, so a tag text read from a secret with lone surrogates is settled up to these and U+FFFD only.
- Lifetime.NoAcceptancePastTheWall: holds of runs whose logins and refreshes fit; a single one that does not may break it, as `PastTheWall.AboveTheWallIsAccepted` shows.
- PastTheWall.NotANumberPassesTheWall: one family of configurations, those whose refresh token is still good in the last second before the wall; `Lifetime.RotationsMeetTheWall` covers every refresh.
- VoucherSecret.ParseVoucherSecret: a key of arrays nested so deep that spelling it exhausts the call stack.
- Nip98Honest.HeaderReadsBack: an event whose `created_at` or `kind` is too large for a double (`1e400`) counts as none here; the header parser accepts it as infinite and a later check refuses it with another code.
- Hex.HexToBytes: the loop counts pairs where the code counts characters two at a time.
- Base64.DecodeQuads: writes a group's bytes by an inner loop where the code has up to three assignments.
- ConstantTime.Equals: says what is answered, not how long it takes.
