# The consent filter, verified

The plugin gates an upstream response on the consent of the people the data is
about. The request phase stores a small context; the response phase loads it,
names the two participants of the exchange, asks the owner resolver whose data
the body holds, checks every owner's consent concurrently, and releases or denies
the response. This project models that decision in Dafny and proves what it
guarantees. `dafny verify dfyconfig.toml` checks everything.

## How it is modelled

- **The concurrent gate** (`OwnerGate`, `GateTheorems`, `ReductionTheorems`). A
  goroutine is a small machine: wait for one of eight slots or for the cancelled
  context, mark the result, call, write the result, cancel the siblings, release.
  A run is any sequence of enabled steps, and the phase deadline may pass between
  any two of them. What CheckConsent says for a claim is an input; a call returns
  the context's error instead only once the context is stopped. Theorems quantify
  over all runs. `CheckOwners` runs the same steps on the shared array.
- **The decision** (`Outcomes`, `Evaluation`, `EvaluationTheorems`). Everything an
  evaluation reads is one `Inputs` value; `EvaluateResponse` shows that the store
  and the caches supply such inputs.
- **The claim-path language** (`Strings`, `ClaimPath`, `ClaimPathTheorems`), over
  token claims that are already a JSON tree.
- **The request-context store** (`ContextStore`, `ContextStoreTheorems`). A class
  with the map and the counter; runs interleave stores, loads and sweeps under a
  clock that never goes back, with sweeps whose time was read before the lock.
- **The consent client** (`Lifetimes`, `CacheKeys`, `ConsentClient`,
  `ConsentCaches`, `CredentialTheorems`, `CacheTheorems`, `CallRuns`). Clock
  readings and replies are inputs of each call. The caches are a class with one
  entry object for each credential and two maps that are reassigned; `CallRuns`
  interleaves the critical sections of any calls on them.
- **The audit emitter** (`AuditEmitter`, `EmitterKeys`, `AuditRegistry`,
  `AuditRecord`, `AuditTheorems`, `Sanitizing`). Queue, batch, drop counter and
  shutdown as a class and as a transition system over callers, worker and Shutdown.

Functions say what an operation means; methods do it in place, loop by loop, and
are proved to agree; lemmas say what holds of every input and every run.

## Where a promise holds only under a condition

The model follows the code where its comments promise more. Each point is a lemma
that says exactly when the promise is kept.

- The comments above `checkOwners` and `reduceOwnerResults` say the verdict does
  not depend on which goroutine finishes first. That holds with `fail_open` off.
  With it on, an outage that finishes first cancels a sibling that would have
  refused, and the data is released; the other order denies
  (`ScheduleIndependentIff`, `FailOpenMayDecideIff`).
- An owner whose check never started because the phase ran out of budget is not a
  problem to the reduction, so a run can allow without having asked everybody
  (`ExpiredAllowsIff`, `DeadlineBreaksConjunctionIff`, `IdleRunAllows`).
- Two live errors of different fail modes make the reduction depend on their order
  when `fail_open` is on (`OrderFreeIff`).
- A pair named under two purposes is checked for the first purpose only
  (`EveryClaimCheckedIff`).
- An unscoped claim is recorded under the request path, so an owner with a claim on
  that very path has two records of one pair (`AuditedPairsDistinctIff`).
- A consumer path that starts with a dot reads a claim the request phase did not
  decode (`ProjectionInvisibleIff`, `DottedRootIsNotSafe`).
- The segment parser reports an unterminated `[`, but it ignores one left over at the
  very end of a segment (`ParsesIffWritten`).
- An audit event can be lost in an orderly shutdown: one emitted during the
  last export, or later, is accepted and stays in the queue (`NothingLostIff`,
  `LateEventIsLost`).
- Tokens that live no longer than the refresh skew are cached to their very end
  (`SkewKeptIff`).
- The token cap is not part of the credential key, so callers that differ only in
  it share an entry and may be served a token older than their own cap
  (`OwnCapKeptIff`).

## Model

| member | source | states |
|---|---|---|
| `OwnerGate.ReduceOwnerResults` | internal/plugin/consent.go:561-595 | The three passes over the result array give what the declarative reading `Reduced` says: lowest refusal, failing that the fail policy on the lowest live error, failing that an allow, always with the consulted owners attached |
| `OwnerGate.StepInv` | internal/plugin/consent.go:459-519 | Every step of every goroutine, and the deadline passing at any moment, keeps the invariant: at most eight slots taken, each result is what its goroutine had to write, and a context stopped by a sibling has a culprit whose own answer was the problem |
| `GateTheorems.CheckOwners` | internal/plugin/consent.go:459-525 | On the shared result array, slots and context, any schedule the scheduler picks ends in exactly the verdict of the transition system under that schedule |
| `GateTheorems.SlotsBounded` | internal/plugin/consent.go:445-449 | In every reachable state at most eight checks are in flight, and a finished gate has given every slot back |
| `GateTheorems.EightAtOnce` | internal/plugin/consent.go:445-449 | The width is really eight: eight checks can be in flight at once |
| `GateTheorems.RunsAreShort` | internal/plugin/consent.go:459-522 | No schedule has more than five steps a claim and one for the deadline |
| `GateTheorems.NoDeadlock` | internal/plugin/consent.go:464-522 | Until `wg.Wait` returns some goroutine can move without waiting for the deadline, so every run whose calls answer finishes |
| `GateTheorems.RunCanComplete` | internal/plugin/consent.go:464-522 | Wherever a run stands it can be completed without the deadline, so every theorem about complete runs has runs to speak of |
| `GateTheorems.FailClosedIsConjunction` | internal/plugin/consent.go:451-458 | With `fail_open` off and the phase within its budget, every schedule allows exactly when every claim's check grants |
| `GateTheorems.PlainAllowAskedEveryone` | internal/plugin/consent.go:459-595 | Under either fail policy and within the budget, an allow without a fail mode is given exactly when every claim was attempted and granted |
| `GateTheorems.VerdictNamesFirstProblem` | internal/plugin/consent.go:547-595 | Whatever the schedule, a refusal anywhere denies and the lowest-indexed one is reported with that owner, with its reason, and with the claim's data resource or, when it has none, the request path; without one the lowest live error decides under the fail policy and is reported with its owner and the request path; without either the request as a whole is allowed |
| `GateTheorems.DenyNamesRefusal` | internal/plugin/consent.go:561-574 | An ordinary deny comes from an owner whose own answer was a refusal, and names that owner, resource and reason |
| `GateTheorems.WrittenRefusalDenies` | internal/plugin/consent.go:496-508 | A refusal that reached the result array is enforced whatever the fail policy, the siblings and the deadline do |
| `GateTheorems.ScheduleIndependentIff` | internal/plugin/consent.go:451-458 | The decision is the same under all schedules within the budget if and only if `fail_open` is off, or no check has an outage, or no check has a refusal or a misconfiguration |
| `GateTheorems.FailOpenMayDecideIff` | internal/plugin/consent.go:451-595 | With `fail_open` on, some schedule within the budget releases the data exactly when every owner grants or a check has an outage, and some schedule denies exactly when a check has a refusal or a misconfiguration |
| `GateTheorems.SoloRunCompletes` | internal/plugin/consent.go:471-519 | For each owner whose answer is a problem there is a complete schedule in which that answer alone decides |
| `GateTheorems.ExpiredAllowsIff` | internal/plugin/consent.go:561-595 | Once the deadline has passed, with `fail_open` off, a run allows exactly when every owner that was attempted granted: an owner whose check never started does not count |
| `GateTheorems.DeadlineBreaksConjunctionIff` | internal/plugin/consent.go:459-595 | If the deadline may pass at any step, all schedules agree with the plain conjunction if and only if there is nothing to check, or `fail_open` is on and everybody grants |
| `GateTheorems.IdleRunAllows` | internal/plugin/consent.go:472-477 | The schedule in which the deadline passes before any check starts is complete and allows |
| `GateTheorems.CutOffRunDenies` | internal/plugin/consent.go:459-595 | With `fail_open` off and something to check, some schedule in which the deadline cuts a call off denies |
| `ReductionTheorems.OrderFreeIff` | internal/plugin/consent.go:536-560 | The decision is the same for every permutation of a result array if and only if not (`fail_open` on, nobody refused, and live errors of both fail modes) |
| `ReductionTheorems.CheckedIsDefiniteAnswers` | internal/plugin/consent.go:562-569 | `checked` holds exactly the owners that gave a definite answer, in claim order, each once with its own answer and with the claim's data resource or, when it has none, the request path, for every schedule and verdict |
| `ReductionTheorems.NoContradictoryAudit` | internal/plugin/consent.go:536-560 | No schedule, fail policy or deadline enforces an allow next to a recorded refusal |
| `ReductionTheorems.AuditedPairsDistinctIff` | internal/plugin/consent.go:409-435 | For distinct claims, the (owner, resource) pairs of the audit log are distinct if and only if no owner has both an unscoped claim and a claim on the request path itself |
| `Evaluation.DistinctClaims` | internal/plugin/consent.go:415-435 | The loop over `seen` keeps the first claim of every pair, and fails exactly when some claim names no owner |
| `Evaluation.CheckPurposeScoping` | internal/plugin/consent.go:385-406 | Accepts exactly when `require_purpose` is off or every claim has a purpose, and then counts the claims without one |
| `Evaluation.EvaluateResponse` | internal/plugin/consent.go:256-278 | On the real context store and caches, for every scheduler: the outcome is that of the evaluation of the inputs they amount to, the request's context is consumed, the caches are left as the two lookups leave them, and the resolver is asked, if at all, about two non-empty parties |
| `Evaluation.EvaluateWithResolver` | internal/plugin/consent.go:284-383 | The same from a loaded context on, with the cache invariants kept |
| `Evaluation.NameParties` | internal/plugin/consent.go:293-351 | Body cap, consumer path, consumer mapping and provider in the source's order; both parties are non-empty when it succeeds |
| `Evaluation.ResolveParties` | internal/plugin/consent.go:327-351 | The provider is asked for only after the consumer is known, with the caches the first lookup left |
| `Evaluation.DecideClaims` | internal/plugin/consent.go:353-383 | From the resolver's reply to the verdict of the gate, in the source's order of checks |
| `EvaluationTheorems.LostRequestDenies` | internal/plugin/consent.go:257-273 | A response that cannot be matched with its request is denied, and the same way, under every configuration, schedule and dependency; the resolver is not asked |
| `EvaluationTheorems.InputsComeFrom` | internal/plugin/consent.go:256-351 | What an evaluation on the real state reads: the context stored under its own correlation id at most sixty seconds ago, the mapping of the consumer's DID, the provider of an unforced credentials call made after it, and the replies as they came |
| `EvaluationTheorems.AskedAboutIff` | internal/plugin/consent.go:284-351 | The resolver is asked exactly when the body fits, the token names a consumer that maps to a participant and the provider is known, and then about those two |
| `EvaluationTheorems.GateReachedIff` | internal/plugin/consent.go:353-383 | The owner checks are reached exactly when the resolver requires consent and names claims, all owned, with the required purposes, and with no more distinct pairs than the cap; the job they get is this request's path, verb and correlation id, the consumer the resolver was asked about, and the first claim of every pair with its own answer |
| `EvaluationTheorems.EarlyOutcomeTells` | internal/plugin/consent.go:256-383 | An evaluation that ends before the checks carries the correlation id and the reason of its one cause, names no owner, and has the by-policy mode exactly on an outage; only "no consent required" is an ordinary allow, on the request's path and verb |
| `EvaluationTheorems.OutcomeNames` | internal/plugin/consent.go:471-595 | For every schedule of the checks the outcome carries the correlation id and the request's verb; an allow or a live error has the request's path, a refusal the owner, reason and resource of a claim that refused |
| `EvaluationTheorems.FirstsAreFirst` | internal/plugin/consent.go:415-435 | The distinct claims are exactly the first of each (owner, dataResource) pair, in the resolver's order |
| `EvaluationTheorems.FirstsSize` | internal/plugin/consent.go:415-435 | Their number is the number of distinct pairs, so the owner cap counts pairs |
| `EvaluationTheorems.EveryClaimCheckedIff` | internal/plugin/consent.go:415-435 | Every resolved claim is checked with its own purpose if and only if no pair is named under two purposes; otherwise only the first purpose reaches the consent-manager |
| `EvaluationTheorems.AllowsIff` | internal/plugin/consent.go:256-383 | With `fail_open` off and within the budget, every schedule of the whole evaluation allows exactly when the resolver says no consent is required, or names claims that are owned, purpose-acceptable, within the cap and all granted |
| `EvaluationTheorems.FailOpenFlipsPolicyOnly` | internal/plugin/consent.go:625-677 | Switching `fail_open` on changes nothing but the decision of by-policy outcomes, from deny to allow |
| `EvaluationTheorems.FailOpenReleasesIff` | internal/plugin/consent.go:284-383 | With `fail_open` on, an evaluation that ends before the owner checks releases the data exactly on an outage the policy governs or when no consent is required |
| `EvaluationTheorems.StricterNeverAllows` | internal/plugin/consent.go:304-381 | Setting `require_purpose` or lowering the body or owner cap never turns a deny into an allow, under either fail policy |
| `EvaluationTheorems.ProjectionChangesNoDecision` | internal/plugin/consent.go:775-795 | Keeping only the configured token claims in the request phase changes no decision of the response phase, for every path whose first segment names a claim |
| `EvaluationTheorems.UncutCheckAnswersItself` | internal/plugin/consent.go:479-513 | A check that nobody cut off answers neither with the cancellation error nor with the internal sentinel; it grants exactly when the deciding attempt identified the owner and found, under that identifier, a granted consent covering this claim's purpose, resource and consumer, and it refuses exactly when that attempt was shown that there is none |
| `EvaluationTheorems.NoCoverDenies` | internal/consent/client.go:294-301 | An owner without a covering consent is a refusal and not an outage, and a gate that received it denies with `fail_open` on as well |
| `EvaluationTheorems.AllowRestsOnConsents` | internal/plugin/consent.go:459-525 | If a schedule of the gate allows within the budget without the fail policy, every claim's own check was shown, among the consents of the claim's own owner, one that covers purpose, resource and consumer, however the checks interleaved on the shared caches with each other and with any other calls |
| `ClaimPath.ParseClaimSegment` | internal/plugin/consent.go:888-912 | The index loop parses what the recursive grammar says, with a decreasing rest |
| `ClaimPath.ConsumerFromClaims` | internal/plugin/consent.go:829-869 | The walk gives the consumer of the declarative walk, with the same error, and never an empty one |
| `ClaimPath.ClaimKeysToDecode` | internal/plugin/consent.go:779-795 | All claims when none is listed, otherwise the listed keys and the root of the path once |
| `ClaimPath.DecodeClaims` | internal/jwt/extractor.go:83-96 | Exactly the requested claims that exist, or all of them |
| `ClaimPathTheorems.SegmentRoundTripIff` | internal/plugin/consent.go:888-912 | Printing a segment and parsing it gives it back if and only if its name has no `[` and its indices fit an int |
| `ClaimPathTheorems.ParsesIffWritten` | internal/plugin/consent.go:888-912 | The language of segments: a text parses to a name and indices exactly when it is that name, free of `[`, followed by decimal texts of those indices in brackets, with at most one opening bracket left over at the end |
| `ClaimPathTheorems.PathRoundTrip` | internal/plugin/consent.go:829-912 | A printed path splits and parses back to its segments |
| `ClaimPathTheorems.ConsumerIffAddressed` | internal/plugin/consent.go:817-884 | A path yields a consumer if and only if some spelled-out form of it, with at most one implicit first element before a named segment, leads to that non-empty string by plain field and item steps |
| `ClaimPathTheorems.FailureIsNamed` | internal/plugin/consent.go:829-912 | A path that yields no consumer says why: no path, no claims, a value that names nobody, or the first segment that cannot be followed, with the reason it cannot |
| `ClaimPathTheorems.ExplicitFirstElement` | internal/plugin/consent.go:871-884 | Where a bare segment succeeds through an array, writing `[0]` gives the same value |
| `ClaimPathTheorems.ProjectionInvisibleIff` | internal/plugin/consent.go:775-795 | Projection is invisible for every token if and only if all claims are decoded, the path can never succeed, or the claim the walk reads first is decoded |
| `ClaimPathTheorems.KeepsNoMore` | internal/plugin/consent.go:775-795 | The request phase keeps exactly the listed claims and the one the path starts from, or all when none is listed |
| `ClaimPathTheorems.NamedRootIsSafe` | internal/plugin/consent.go:914-922 | It is invisible for every path whose first segment names a claim |
| `ClaimPathTheorems.DottedRootIsNotSafe` | internal/plugin/consent.go:914-922 | It is not for a path that begins with a dot: `.iss` with `sub` forwarded |
| `Strings.SplitJoin` | internal/consent/client.go:224-235 | Splitting undoes joining on separator-free components |
| `Strings.AtoiItoa` | internal/plugin/consent.go:898 | A printed index is read back exactly when it fits |
| `ContextStore.RequestContextStore.StoreRequestContext` | internal/plugin/context.go:150-163 | Makes room only in a full store and only for a new key, then stores under the time read inside the lock |
| `ContextStore.RequestContextStore.EvictForSpaceLocked` | internal/plugin/context.go:171-180 | Expired entries go first; only if there is none does the oldest batch go |
| `ContextStore.RequestContextStore.EvictOldestLocked` | internal/plugin/context.go:184-206 | Removes `batch` entries, or all, none of them younger than any that stays |
| `ContextStore.RequestContextStore.SweepLocked` | internal/plugin/context.go:217-227 | Removes exactly the expired entries and counts them |
| `ContextStore.RequestContextStore.LoadAndDeleteRequestContext` | internal/plugin/context.go:252-266 | Removes the key; serves its context only while it is live, and counts an expired one as evicted |
| `ContextStore.FrontGone` | internal/plugin/context.go:193-205 | Deleting a prefix of the entries sorted by age is an oldest-batch eviction |
| `ContextStoreTheorems.RunConserves` | internal/plugin/context.go:74-227 | Over every run: stores of an absent key = entries held + contexts served + contexts evicted, the cap holds, and overflows are paid for by evictions |
| `ContextStoreTheorems.ServedAreAnswered` | internal/plugin/context.go:252-266 | A context counts as served exactly when a load answered with it |
| `ContextStoreTheorems.SweepKeepsIff` | internal/plugin/context.go:217-227 | A sweep keeps an entry, unchanged, exactly when it is at most sixty seconds old |
| `ContextStoreTheorems.StoreEffect` | internal/plugin/context.go:145-206 | A store inserts its context and touches nothing else, unless the store is full and the key new: then it takes out the expired entries, and only if there are none a thousand, none younger than any that stays |
| `ContextStoreTheorems.OverflowIsAmortised` | internal/plugin/context.go:66-78 | The B-th oldest-batch eviction is preceded by at least cap + (B - 1) * batch stores of an absent key |
| `ContextStoreTheorems.ServedIsLatestAndFresh` | internal/plugin/context.go:246-266 | After every run, a served context is that of the latest store of its key, within the TTL, and was not served before |
| `ContextStoreTheorems.ServedIff` | internal/plugin/context.go:145-266 | As long as no live context was evicted for space, a load is served exactly when its key was stored at most sixty seconds before and not loaded since |
| `ContextStoreTheorems.ServedUnlessCrowdedOut` | internal/plugin/context.go:145-266 | Overflows or not, the same holds unless more than cap - batch stores came after the key's own |
| `ContextStoreTheorems.CrowdingIsTight` | internal/plugin/context.go:66-78 | That bound is tight: in some run a live context is lost after exactly one store more |
| `ContextStoreTheorems.OldestUnique` | internal/plugin/context.go:184-206 | With distinct ages the oldest batch is unique |
| `ContextStoreTheorems.JanitorUnobservable` | internal/plugin/context.go:129-142 | Two runs that differ only in their sweeps, with clocks that lag, serve the same loads and hold the same live contexts, even across overflows |
| `Lifetimes.CachedLifetime` | internal/consent/client.go:588-639 | For every 64-bit `expires_in`, wrapping ones included, a token is cached for a positive time within the cap, never past its true lifetime, and a full skew short of it in the ordinary range |
| `Lifetimes.CachedExactly` | internal/consent/client.go:588-639 | The cached life in every case: the 64-bit lifetime where it is positive and below the cap, otherwise the cap, less a minute whenever that leaves anything |
| `Lifetimes.SkewKeptIff` | internal/consent/client.go:588-597 | Exactly when a token is dropped a full skew before it expires |
| `CacheKeys.CredentialKeyIff` | internal/consent/client.go:207-246 | Two credentials share an entry if and only if all eight inputs agree |
| `CacheKeys.IdentifierKeyIff` | internal/consent/client.go:402-407 | A cached identifier belongs to one credential, provider and subject, whatever characters the subject has |
| `CacheKeys.ParticipantKeyIff` | internal/consent/client.go:454 | A cached mapping belongs to one credential and DID |
| `EmitterKeys.SortedKeys` | internal/audit/audit.go:110-119 | The ascending listing of a map's keys, the same whatever order the map is ranged over |
| `EmitterKeys.Key` | internal/audit/audit.go:86-96 | The parts in order, the headers by ascending name |
| `EmitterKeys.AscendingUnique` | internal/audit/audit.go:110-119 | A set of names has one ascending listing |
| `EmitterKeys.EmitterKeyIff` | internal/audit/audit.go:86-105 | Two configurations share an emitter if and only if endpoint, effective service name, timeout and all headers coincide |
| `ConsentCaches.CacheEntry.RefreshLocked` | internal/consent/client.go:343-379 | The locked section does to its entry what `Refresh` says, whether it succeeds or fails half-way |
| `ConsentCaches.PackageCaches.Credentials` | internal/consent/client.go:325-380 | Changes this key's entry alone and answers as specified, with no entry shared between keys |
| `ConsentCaches.PackageCaches.LookupParticipantSD` | internal/consent/client.go:508-540 | Answers with the first registered self-description of the DID |
| `ConsentCaches.PackageCaches.ParticipantSelfDescriptionByDID` | internal/consent/client.go:450-492 | Fresh entries answer; otherwise one lookup, one retry without a static token, and a positive or negative entry |
| `ConsentCaches.PackageCaches.ProviderSelfDescription` | internal/consent/client.go:560-566 | The provider half of an unforced credentials call |
| `ConsentCaches.PackageCaches.ResolveUserIdentifier` | internal/consent/client.go:691-745 | Fresh entries answer; only a found identifier is remembered |
| `ConsentCaches.PackageCaches.CheckOnce` | internal/consent/client.go:279-301 | One attempt: credentials, the subject's identifier with that provider, and the consents of that identifier |
| `ConsentCaches.PackageCaches.CheckConsentFor` | internal/consent/client.go:253-273 | At most two attempts, the second forced and only without a static token |
| `ConsentClient.HasGrantedConsent` | internal/consent/client.go:882-913 | Among the consents listed for this very user identifier the loop finds a record exactly when one is granted, names the consumer and covers purpose and resource |
| `ConsentClient.PurposeCovered` | internal/consent/client.go:841-851 | True exactly when no purpose is asked for or some listed purpose has it as text or id |
| `CredentialTheorems.OtherCredentialsInvisible` | internal/consent/client.go:325-341 | Whatever calls on other credentials are interleaved, an entry is what its own calls alone make of it |
| `CredentialTheorems.CachedTokenIsFresh` | internal/consent/client.go:343-379 | A token served from the cache was fetched by an earlier call, no forced refresh or fetch came since, and it is within its cached lifetime, the fetcher's cap and the reported lifetime |
| `CredentialTheorems.NoSecondFetch` | internal/consent/client.go:343-379 | Between a successful fetch and its expiry, unforced calls ask the token service nothing and are served its token |
| `CredentialTheorems.ForcedRefreshIsFinal` | internal/consent/client.go:349-352 | Every token returned after a forced refresh was issued by it or later, even if that refresh failed |
| `CredentialTheorems.ProviderIsStable` | internal/consent/client.go:366-379 | A derived provider answers every later call, and whatever /me would say no longer matters |
| `CredentialTheorems.CredentialsAnswerIff` | internal/consent/client.go:325-380 | A call answers with a token and a provider exactly when they are the static token, the cached one if current and not forced, or the one just fetched, and the configured provider, the one derived before, or the one /me names now |
| `CredentialTheorems.CredentialsErrIff` | internal/consent/client.go:325-380 | A call errs exactly for want of any credential, of a token it had to fetch, or of a provider it had to derive, with the error of the call that failed |
| `CredentialTheorems.ConfiguredProviderWins` | internal/consent/client.go:366-369 | A configured provider is the one that is answered, and no /me reply has any influence |
| `CredentialTheorems.AnswersComeFrom` | internal/consent/client.go:325-380 | Over every run of calls, the provider is the configured one, or else one that /me named to this or an earlier call with the same credential; the token is the static one, or else one issued to this or an earlier call |
| `CredentialTheorems.IssuedAsReplied` | internal/consent/client.go:353-364 | An issued token and its cached life are those of the reply it came in |
| `CredentialTheorems.OwnCapKeptIff` | internal/consent/client.go:207-235 | In every run no caller is served a cached token older than its own `participant_token_ttl`, if and only if no cap in use with the same credential can cache a token longer than another cap in use |
| `CredentialTheorems.LongestIsLongest` | internal/consent/client.go:588-597 | The longest time a token is cached under a cap, over all reported lifetimes: the cap up to the skew, the skew up to twice the skew, and a skew less than the cap above |
| `CredentialTheorems.SharedEntryIgnoresOwnCap` | internal/consent/client.go:207-235 | With caps of 3000 and 10 seconds some caller is served a token older than its own cap |
| `CacheTheorems.MappingIsLatestAnswer` | internal/consent/client.go:409-492 | After any list of writes the cache answers exactly with the latest one for this credential and DID: a mapping for ten minutes, an absence for thirty seconds |
| `CallRuns.MappingHitIsGenuine` | internal/consent/client.go:409-492 | In every interleaving of mapping and check calls, section by section: what the participant cache says, the registry said to the last lookup a call for the same credential and DID really made, and the call has stored it, a mapping under ten minutes ago and an absence under thirty seconds ago |
| `CallRuns.AnswerIsGenuine` | internal/consent/client.go:450-492 | In every interleaving, a caller that is given a mapping, or told that there is none, was told so by the registry itself or by an entry another call stored, still fresh when the caller consulted the cache |
| `CallRuns.AloneMaps` | internal/consent/client.go:450-492 | The sections of a mapping call, undisturbed, are the whole call |
| `CallRuns.AloneChecks` | internal/consent/client.go:253-301 | The sections of a check, undisturbed, are the whole check |
| `CacheTheorems.MappingCall` | internal/consent/client.go:450-492 | A lookup writes only what the registry answered in that very call, and nothing on an error; the sentinel never gets out |
| `CacheTheorems.MappingLeaves` | internal/consent/client.go:450-540 | Each lookup keeps what it learned about token and provider, also when it fails, and the forced one starts from there; a missing or known DID asks nobody |
| `CacheTheorems.LookupAnswers` | internal/consent/client.go:508-540 | A lookup answers with what the listing says, or with the error of the one call that failed |
| `CacheTheorems.LookupRetriedIff` | internal/consent/client.go:474-485 | What the dependencies would say to a second lookup matters if and only if no fresh entry answered, the first token was refused with a 401, and there is no static token |
| `CacheTheorems.IdentifierIsLatestFinding` | internal/consent/client.go:382-407 | After any list of writes a cached identifier is the latest one for this credential, provider and subject, under sixty seconds old |
| `CallRuns.IdentifierHitIsGenuine` | internal/consent/client.go:382-407 | In every interleaving, a cached identifier is non-empty and was found by a search some check really made for that credential, provider and subject, stored under sixty seconds ago |
| `CallRuns.AllowedCheckRests` | internal/consent/client.go:253-301 | In every interleaving, a check that allows rests on the attempt it last made: that attempt listed the consents of an identifier, one of them authorizes the request, and the identifier was found by a search really made for this credential, provider and subject, in this attempt or stored under sixty seconds before it consulted the cache |
| `CallRuns.UnknownIsOwnSearch` | internal/consent/client.go:691-745 | In every interleaving, a check that says "unknown subject" was told so by the search of its own last attempt, and none lets the sentinel out |
| `CallRuns.PartiesHaveNames` | internal/plugin/consent.go:321-351 | In every state an interleaving reaches, a mapping that is given out is non-empty, and so are the token and the provider of credentials that are handed out |
| `CacheTheorems.IdentifierCall` | internal/consent/client.go:691-745 | "Unknown subject" is said exactly when this very call searched and the service answered so; it is never remembered |
| `CacheTheorems.CheckConsentAllowsIff` | internal/consent/client.go:253-301 | Allow exactly when the last attempt found a matching consent under the identifier of the subject; the last attempt forces a refresh exactly when the first was unauthorized without a static token; the sentinel never gets out |
| `CacheTheorems.CheckConsentDeniesIff` | internal/consent/client.go:253-301 | Deny exactly when subject or consumer is missing, or the last attempt found nobody by that name or a listing without a consent that authorizes; an error exactly when a dependency call of that attempt failed, and then that call's error |
| `CacheTheorems.CheckLeaves` | internal/consent/client.go:253-301 | Each attempt keeps what it learned about token, provider and subject, also when it fails; without a subject or a consumer nobody is asked and the deny says which is missing |
| `CacheTheorems.AttemptAnswers` | internal/consent/client.go:279-301 | Each answer of an attempt, allow, deny with its reason, or error, has its own cause |
| `CacheTheorems.RetriedIff` | internal/consent/client.go:253-273 | What the dependencies would say to a second attempt matters if and only if the first was unauthorized and there is no static token; there is no third |
| `CacheTheorems.NarrowingNeverAllows` | internal/consent/client.go:838-865 | Naming a purpose or a resource where there was none never turns a deny into an allow |
| `CacheTheorems.RegisteredFound` | internal/consent/client.go:508-540 | A self-description is found exactly when the listing has a non-empty one for the DID |
| `CacheTheorems.CheckKeepsNeverEmpty` | internal/consent/client.go:691-745 | Checks keep cached mappings and identifiers non-empty |
| `CacheTheorems.MappedIsNonEmpty` | internal/consent/client.go:474-491 | A mapped self-description is never empty |
| `CacheTheorems.CredentialsAreComplete` | internal/consent/client.go:366-379 | Credentials that are handed out have a token and a provider |
| `AuditEmitter.StepInv` | internal/audit/audit.go:239-327 | Every step of callers, worker and Shutdown keeps FIFO conservation, the bounds, and the order of closing, draining, the last export and the return |
| `AuditEmitter.Emitter.EmitEvent` | internal/audit/audit.go:239-248 | Never blocks: queues the sanitised event, or drops and counts it when the queue is full |
| `AuditEmitter.Emitter.TakeOne` | internal/audit/audit.go:307-311 | Receives the oldest event and flushes at the batch size |
| `AuditEmitter.Emitter.Drain` | internal/audit/audit.go:314-324 | Everything queued leaves in order with what was already batched |
| `AuditEmitter.Emitter.Interleave` | internal/audit/audit.go:293-327 | On the real fields, any interleaving of steps ends where the transition system says |
| `AuditEmitter.Emitter.Shutdown` | internal/audit/audit.go:283-289 | With nobody emitting, everything accepted has been handed over once and in order; a second call changes nothing |
| `AuditTheorems.EveryRunConserves` | internal/audit/audit.go:239-327 | In every interleaving: accepted = handed over, then batch, then queue; emits = accepted + dropped; the queue keeps to its capacity and batches to their size until the drain |
| `AuditTheorems.AcceptedIff` | internal/audit/audit.go:239-248 | An event is accepted, sanitised and at the back of the queue, if and only if fewer than 2048 are waiting; otherwise it is counted as dropped |
| `AuditTheorems.TickHandsOver` | internal/audit/audit.go:312-313 | When the ticker fires everything the worker has received is handed over |
| `AuditTheorems.TakeFillsBatch` | internal/audit/audit.go:307-311 | Events leave the queue in order and the sixty-fourth of a batch sends it |
| `AuditTheorems.ShutdownFlushes` | internal/audit/audit.go:283-327 | When the drain has ended, everything accepted before it last found the queue empty, and so before Shutdown was called, has been handed over exactly once in order; the rest is still queued |
| `AuditTheorems.NothingLostIff` | internal/audit/audit.go:283-327 | Nothing accepted is lost if and only if nobody emits after the drain last found the queue empty |
| `AuditTheorems.LateEventIsLost` | internal/audit/audit.go:314-324 | An event emitted while the last export is under way is accepted before the worker returns and never handed over |
| `AuditTheorems.PastIsFinal` | internal/audit/audit.go:314-324 | Once the drain has found the queue empty nothing more is handed over, through the last export and after the return |
| `AuditTheorems.ShutdownCanFinish` | internal/audit/audit.go:283-327 | Once `done` is closed the worker alone finishes in one step for each queued event and at most three more, having handed over everything accepted so far |
| `AuditTheorems.AcceptedWasEmitted` | internal/audit/audit.go:239-248 | Nothing is invented: every accepted event is some caller's, sanitised |
| `AuditTheorems.HandedReasonsAreClean` | internal/audit/audit.go:235-248 | Every event handed over has a short printable reason |
| `AuditRegistry.Registry.Get` | internal/audit/audit.go:171-182 | One emitter for a configuration key from its first use on |
| `AuditRegistry.Registry.ShutdownAll` | internal/audit/audit.go:190-202 | Empties the registry and shuts down every emitter that was in it |
| `AuditRecord.RecordAudit` | internal/plugin/consent.go:687-722 | The emitter of this configuration, and no other, receives one event for each consulted owner, or the outcome itself when none was; nothing happens when auditing is off |
| `AuditTheorems.EventsTell` | internal/plugin/consent.go:687-722 | An outcome that reached no owner leaves one event with its own fields; otherwise each consulted owner leaves one, in order, with the owner's subject, resource, decision and reason; all carry the correlation id, the verb and the time |
| `AuditTheorems.RecordedInOrder` | internal/plugin/consent.go:687-722 | The events of one decision are accepted in order, sanitised, as long as there is room |
| `AuditTheorems.AuditTellsWhoAnswered` | internal/plugin/consent.go:536-722 | For every schedule and verdict, each owner that gave a definite answer has an event with that answer, and no event says deny while an allow is enforced |
| `Sanitizing.SanitizeIsStable` | internal/logging/logging.go:192-214 | At most 200 characters, no control characters, single inner spaces; sanitising again changes nothing; a message that fits keeps its words |
| `Sanitizing.SanitizeReadsOnce` | internal/logging/logging.go:192-214 | A sanitised message is the message read once from left to right, every run of blanks and control characters between two others becoming one space; beyond 200 characters it keeps the first 187 and the redaction mark |

## Left out

- HTTP transport, JSON, URLs, base64url and the JWS compact form: library code; replies are inputs and claims a parsed tree.
- The APISIX runner interfaces, `correlationKey`, `responseContentType`, the rest of `RequestFilter`, `denyResponse` and `main.go`: thin I/O; a missing correlation id is an input.
- `internal/metrics` and the OTLP payload: counters and formatting; a batch given to `export` counts as handed over, whatever the sink does with it.
- `internal/plugin/config.go` beyond the numeric ranges and `IsFailOpen`: straight-line validation.
- The body of the resolver request and `describeBody`: only the reply and the parties it was asked about matter to the decision.
- Log text, `Redact`, `ResetCaches` and the log rate limiter: formatting, test support and a small counter.
- The parts of reason strings that are spliced in from errors, sizes and counts: a model reason is the fixed part only.
- The bearer token a call carries: replies depend on what is asked (provider and subject, identifier), not on the token it is asked with.
- SHA-256: an abstract function taken to be collision-free and never empty.
- Duration text in the emitter key: an abstract injective renderer.
- The wrap-around of the `uint64` counters: they are unbounded.
- Fairness of the scheduler and of channel selection: that a gate or a drain finishes is shown by bounded runs and the absence of deadlock.
- The reuse of the batch slice's backing memory and of the result slots: the batch is a sequence, because `export` is called synchronously.
- EvaluateResponse: the gate's checks are input answers and leave the caches as the mapping left them; how interleaved checks act on the caches, and that an allow rests on what each check was shown, is AllowRestsOnConsents and CallRuns.
- EvaluateWithResolver: the same.
- ShutdownAll: nobody emits while it runs; what concurrent callers can lose is stated for one emitter by NothingLostIff.
- JanitorUnobservable: takes store times to be distinct, because which of two equally old entries an overflow evicts is unspecified in Go.
- SanitizeIsStable: ASCII only, because the source truncates by byte and may cut a longer character in two.
- HandedReasonsAreClean: ASCII reasons only, for the same reason.
- ServedIff: for runs without an overflow, because an overflow evicts live contexts; ServedUnlessCrowdedOut covers runs with them.
- OtherCredentialsInvisible: for credentials that use the cache at all; fully static ones and unconfigured ones return before it.
- CachedTokenIsFresh: for callers without a static token, which never has a cached lifetime.
- MappingHitIsGenuine: names in requests, and the provider's name in a /me reply, are taken not to contain the NUL that separates key components.
- IdentifierHitIsGenuine: the same.
- AllowRestsOnConsents: the same.
