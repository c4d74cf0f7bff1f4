# policy-model-router: a Dafny model

`policy-model-router` is a fail-closed policy decision point. A caller posts a routing request, usually
with an authorization that Governance signed for exactly that request; the service admits the body within
a byte cap, limits the caller's rate, verifies and consumes the authorization, routes the workload to a
model group under a YAML policy, and checks the selected group against the signed scope. A denial leaves
digest-bound evidence.

The project models the stateful and recursive parts of that path and proves properties over every input,
every run and every interleaving. Classes with mutable fields stand for the source's objects that update
their fields (limiters, replay guards, the Redis key spaces, the receive channel, application and request
state); loops stay loops; expressions, records and validators are datatypes and functions.

| module | models |
|---|---|
| `RateLimiter` | the fixed-window limiter over an ordered map with LRU eviction |
| `RedisRateLimiter` | the shared limiter: one atomic script over keys with deadlines |
| `HttpAdmission`, `Decimal` | the `Content-Length` check (RFC 9110, section 8.6) and the bounded body read |
| `CanonicalJson`, `Utf8`, `Ordering` | canonical JSON bytes (string escapes of RFC 8259, section 7) |
| `AuthorizationContract` | the signed records, their normalising validators, the signing bytes |
| `Verifier`, `ReplayGuard` | the staged verification, runtime control, single-use consumption |
| `ControlProtocol` | verifications in flight on any number of replicas, interleaved with Governance's control writes |
| `Routing` | nine ordered constraints and the routing decision with its explanation |
| `PolicyReload` | loading a policy and replacing it while requests are in flight |
| `RuntimeViolation` | denial evidence, its validators and digest bytes |
| `RouteHandler` | the `/route` handler end to end |
| `SpentUnreturned` | two requests that are denied with their identifier spent |
| `Service` | whole runs: requests in flight, Governance writes and policy reloads, interleaved |
| `JsonSchema` | the schema evaluator against a satisfaction relation |

Times are integers (microseconds, or milliseconds for Redis expiries) or exact reals; signature
verification and digests are uninterpreted functions; a clock reading, a store that cannot be reached and a
client's bytes are parameters.

## What the proofs found

- A key's admitted calls in any interval of one window length are below twice the limit: at most
  `2 * max_requests - 1`, for both limiters (`RateLimiter.SlidingBound`, `RedisRateLimiter.SlidingBound`).
- Single use of an authorization id, for the process-local guard over every run whose consumptions read a
  clock that never goes back, holds exactly for zero clock skew (`ReplayGuard.SingleUseExactlyWithoutSkew`).
  The guard drops an entry at `expires_at`, while the verifier accepts until `expires_at + clock_skew`.
- The guard shared through Redis decides when its command runs, not when the verifier read its clock. Over
  runs on one clock it gives single use exactly when the skew and the delay between reading and command are
  both zero (`ReplayGuard.SharedSingleUseExactly`): a second command that runs at the expiry is accepted
  although its reading was earlier. Every run in which each command runs before the expiry is safe
  (`ReplayGuard.SharedSingleUseBeforeExpiry`), and so is the verifier over any number of replicas
  (`ControlProtocol.AcceptedOnce`). The operations guide promises single use without these conditions
  (docs/runtime-authorization-operations.md:77); the model follows the code.
- The order of clock readings matters for the process-local guard too, even without skew: the verifier reads
  its time before it awaits the control projection, so an attempt can reach the guard after a later one pruned
  its entry (`ReplayGuard.StaleReadingAccepted`). Whatever the clocks do, a replay is recognised exactly when no
  attempt in between read a time at or past the recorded expiry (`ReplayGuard.ReplayRecognisedExactly`).
- A denial can leave its identifier spent, for two reasons. Under enforcement a request spends an unspent
  identifier exactly if it got past the gate, or if its consumption ran at the shared guard and only the answer
  was lost (`RouteHandler.RequestSpendsExactly`, `Verifier.DeniedSpendsExactly`). Past the gate, routing can still
  find no viable group, and the selected group or data class can still be outside the signed scope: such a request
  is refused with nothing lost, and its identifier is refused from then on
  (`SpentUnreturned.ModelScopeDenialSpends`; for the lost answer, `SpentUnreturned.LostAnswerDenialSpends`). At the
  process-local guard an identifier that the skew accepts after its expiry is never spent
  (`Verifier.AcceptedSpendsExactly`).
- Control is decided at the read: whatever Governance writes afterwards, the replay guard alone decides the call
  (`ControlProtocol.ReadDecides`), also after the agent's kill switch was engaged
  (`ControlProtocol.AcceptedThoughNoLongerPermitted`). When it is consumed, the call is still permitted exactly when the last
  snapshot written for its agent since the read, if any, permits it
  (`ControlProtocol.PermittedAtConsumptionExactly`).
- Callers are told apart for the per-agent budget by one text, the address, a colon and the agent name. Agent names
  without a colon give distinct callers distinct budgets; otherwise two callers share one exactly when one address
  continues the other by what the other's agent name starts with (`RouteHandler.LimiterKeysExactly`,
  `RouteHandler.CallersShareBudget`).
- Routing with and without explanations chooses the same group exactly when the workload's mapped group is
  declared (`Routing.PathsAgreeExactly`), which the loader guarantees. For an unchecked policy the explaining
  path returns an undeclared group where the cheap path raises.

## Model

| member | source | states |
|---|---|---|
| `RateLimiter.InMemoryRateLimiter.Allow` | src/policy_model_router/adapters/rate_limiter.py:53-70 | the ordered map stays exactly the most recently called keys with the windows their histories give, within the cap; the answer is the one the whole call history determines, and the uncapped counter's answer when the key's calls are close enough |
| `RateLimiter.AllowStep` | src/policy_model_router/adapters/rate_limiter.py:62-69 | touching, moving to the end and evicting the oldest key past the cap leaves the map the longer history calls for |
| `RateLimiter.RetainedExactly` | src/policy_model_router/adapters/rate_limiter.py:67-69 | a key is in the map exactly when it was called and fewer than the cap of distinct other keys were called since: only the least recently touched key is evicted |
| `RateLimiter.SpacedAnswersAgree` | src/policy_model_router/adapters/rate_limiter.py:53-70 | refinement: over every history, a key whose consecutive calls are separated by fewer than `max_tracked_keys` distinct other keys gets the answers of a counter that never evicts |
| `RateLimiter.AdmittedExactly` | src/policy_model_router/adapters/rate_limiter.py:61-70 | over every history, evictions included, each call falls in exactly one window, which an earlier or the same call for its key opened, and is admitted exactly when the calls for its key since that opening are within the limit |
| `RateLimiter.RefusedOnlyWhenFull` | src/policy_model_router/adapters/rate_limiter.py:61-70 | over every history, evictions included, a call is refused only if at least `max_requests` earlier calls for its key came within the window before it |
| `RateLimiter.SlidingBound` | src/policy_model_router/adapters/rate_limiter.py:61-70 | any half-open interval of one window length admits at most `2 * max_requests - 1` calls for a key that is never evicted |
| `RateLimiter.SlidingInvariant` | src/policy_model_router/adapters/rate_limiter.py:61-70 | the inductive form of that bound, by where the key's current window starts relative to the interval |
| `RedisRateLimiter.RedisStore.IncrAndExpire` | src/policy_model_router/adapters/redis_rate_limiter.py:34-40 | one script run counts the call and leaves the key with an expiry, repairing a counter that had none |
| `RedisRateLimiter.RunExactly` | src/policy_model_router/adapters/redis_rate_limiter.py:34-40 | what a run counts and leaves for each counter it can find, and that it leaves the other keys alone |
| `RedisRateLimiter.RedisRateLimiter.Allow` | src/policy_model_router/adapters/redis_rate_limiter.py:96-114 | the answer compares the count with the limit; a lost answer admits the call, and the store is then either untouched or as after a script run |
| `RedisRateLimiter.DeadlinesStayWithin` | src/policy_model_router/adapters/redis_rate_limiter.py:34-40 | over every interleaving of replicas, present expiries stay at most one window away |
| `RedisRateLimiter.DeadlineKept` | src/policy_model_router/adapters/redis_rate_limiter.py:34-40 | later runs keep a live key's deadline, so calls do not extend a block |
| `RedisRateLimiter.NoKeyBlockedForever` | src/policy_model_router/adapters/redis_rate_limiter.py:34-40 | from any store whose present expiries are at most one window away, counters without expiry included, a key's count restarts no later than its first call one window after any call |
| `RedisRateLimiter.LifetimeBound` | src/policy_model_router/adapters/redis_rate_limiter.py:96-114 | at most `max_requests` calls are admitted during one lifetime of a key |
| `RedisRateLimiter.RefusedOnlyWhenFull` | src/policy_model_router/adapters/redis_rate_limiter.py:96-114 | over every interleaving, a key that no earlier store left behind is refused only if at least `max_requests` runs for it came within the window before, over all replicas |
| `RedisRateLimiter.SlidingBound` | src/policy_model_router/adapters/redis_rate_limiter.py:96-114 | any interval of one window admits fewer than twice the limit for a key, over all replicas |
| `Decimal.ExceedsTextIsNumeric` | src/policy_model_router/entrypoints/http.py:286-291 | for digit strings of any length, stripping zeros and comparing lengths then characters decides exactly whether the number exceeds the cap |
| `HttpAdmission.StripSplits` | src/policy_model_router/entrypoints/http.py:281 | trimming removes only spaces and tabs, and all of them, at both ends |
| `HttpAdmission.DeclaredBodySizeError` | src/policy_model_router/entrypoints/http.py:270-292 | 400 exactly for a repeated or non-digit length, 413 exactly for one single numeric length above the cap, nothing otherwise |
| `HttpAdmission.DeclaredLengthExactly` | src/policy_model_router/entrypoints/http.py:276-285 | the lengths it decides on are those of the fields named Content-Length in any case: several exactly when two fields are, one exactly when one field is, and then its value between spaces and tabs |
| `HttpAdmission.AdmittedChannel.Receive` | src/policy_model_router/entrypoints/http.py:252-258 | the admitted message is delivered once, then the untouched remainder of the channel |
| `HttpAdmission.AdmitBody` | src/policy_model_router/entrypoints/http.py:223-250 | the read ends as the declarative ending of the channel says and consumes exactly the messages up to it; the buffer never passes the cap |
| `HttpAdmission.EndingUnique` | src/policy_model_router/entrypoints/http.py:226-247 | every message stream has at most one ending, at one position |
| `HttpAdmission.AbsentFields` | src/policy_model_router/entrypoints/http.py:236-247 | a message without a body carries no bytes, and one that does not announce more ends the upload |
| `HttpAdmission.UploadEnding` | src/policy_model_router/entrypoints/http.py:226-247 | a complete upload ends with its exact concatenation when the total is within the cap, and otherwise with 413 right after the first prefix above it |
| `HttpAdmission.FramingIndependent` | src/policy_model_router/entrypoints/http.py:223-260 | two framings of the same bytes are both refused or both admitted with the same body |
| `HttpAdmission.HandleRequest` | src/policy_model_router/entrypoints/http.py:190-260 | the order of the checks, which of them apply to `POST /route` alone, and what the wrapped application receives |
| `HttpAdmission.IpKeysExactly` | src/policy_model_router/entrypoints/http.py:199-202 | clients share an address budget exactly when their addresses are equal, a missing one counting as "unknown" |
| `CanonicalJson.UnescapeEscape` | src/policy_model_router/application/runtime_authorization_contract.py:277-284 | the escape of every character is recovered from the text that starts with it |
| `CanonicalJson.EscapedExactly` | src/policy_model_router/application/runtime_authorization_contract.py:277-284 | quotes, backslashes and control characters are escaped, and nothing else is |
| `CanonicalJson.SerializeRenders` | src/policy_model_router/application/runtime_authorization_contract.py:277-284 | every value is written as the JSON grammar writes it, without whitespace, with members in the order of their names and non-ASCII text kept |
| `CanonicalJson.CanonicalBytesRender` | src/policy_model_router/application/runtime_authorization_contract.py:275-287 | the canonical bytes are the encoding of that text |
| `CanonicalJson.SerializePrefix` | src/policy_model_router/application/runtime_authorization_contract.py:277-284 | no serialised value is a prefix of another's text followed by a delimiter: values are read back uniquely |
| `CanonicalJson.CanonicalBytesInjective` | src/policy_model_router/application/runtime_authorization_contract.py:275-287 | two values with the same canonical bytes are the same value |
| `Utf8.EncodeInjective` | src/policy_model_router/application/runtime_authorization_contract.py:287 | two texts with the same UTF-8 bytes are the same text |
| `Utf8.EncodeConcat` | src/policy_model_router/application/runtime_authorization_contract.py:287 | texts are encoded character by character, in order |
| `Ordering.LessExactly` | src/policy_model_router/application/runtime_authorization_contract.py:158 | the order of texts is that of the first difference, a proper prefix coming first |
| `Ordering.SortedUnique` | src/policy_model_router/application/runtime_authorization_contract.py:158 | a strictly sorted list is determined by its elements |
| `Ordering.NormalizeCanonical` | src/policy_model_router/application/runtime_authorization_contract.py:154-158 | normal forms are equal exactly when the element sets are, and normalising twice changes nothing |
| `AuthorizationContract.NormalizeClassesMembers` | src/policy_model_router/application/runtime_authorization_contract.py:118-125 | normalised data classes are exactly the classes given |
| `AuthorizationContract.NormalizeModelSame` | src/policy_model_router/application/runtime_authorization_contract.py:118-125 | a normalised model is the same model with the same classes, sorted by their texts and without repetition |
| `AuthorizationContract.NormalizeClassesCanonical` | src/policy_model_router/application/runtime_authorization_contract.py:118-125 | normalised data classes depend only on which classes occur |
| `AuthorizationContract.UniqueIdsPairwise` | src/policy_model_router/application/runtime_authorization_contract.py:167-169 | the length comparison accepts exactly the model lists with pairwise different identifiers |
| `AuthorizationContract.SortModelsCanonical` | src/policy_model_router/application/runtime_authorization_contract.py:160-170 | the sorted model list depends only on which models occur |
| `AuthorizationContract.ValidateIgnoresOrder` | src/policy_model_router/application/runtime_authorization_contract.py:118-235 | claims that differ in order or repetition of set-like fields validate to the same claims, or both fail |
| `AuthorizationContract.ValidatesExactly` | src/policy_model_router/application/runtime_authorization_contract.py:118-235 | claims are accepted exactly when every condition of the validators holds, and returned with every field kept and the set-like ones sorted without repetition |
| `AuthorizationContract.ValidateScopeIdempotent` | src/policy_model_router/application/runtime_authorization_contract.py:154-190 | a validated scope is a fixed point and satisfies the capability boundary |
| `AuthorizationContract.ValidateIdempotent` | src/policy_model_router/application/runtime_authorization_contract.py:209-235 | validated claims are a fixed point inside a bounded time window |
| `AuthorizationContract.SigningBytesInjective` | src/policy_model_router/application/runtime_authorization_contract.py:261-268 | the signing bytes determine the key identifier and every claim |
| `AuthorizationContract.SigningBytesLayout` | src/policy_model_router/application/runtime_authorization_contract.py:261-268 | the signing bytes are the canonical bytes of one object that holds every fact under its own name, the constants, and nothing else |
| `AuthorizationContract.TierRoundTrip` | src/policy_model_router/application/runtime_authorization_contract.py:46-52 | a risk tier is written as the one text that reads as it |
| `AuthorizationContract.AutonomyRoundTrip` | src/policy_model_router/application/runtime_authorization_contract.py:55-63 | an autonomy level is written as the one text that reads as it |
| `Vocabulary.ClassRoundTrip` | src/policy_model_router/domain/enums.py:21-27 | a data classification is written as the one text that reads as it |
| `Vocabulary.RiskRoundTrip` | src/policy_model_router/domain/enums.py:30-36 | a risk level is written as the one text that reads as it |
| `AuthorizationContract.SigningBytesIgnoreOrder` | src/policy_model_router/application/runtime_authorization_contract.py:261-268 | the signing bytes of validated claims do not depend on the order or repetition their set-like fields arrived in |
| `Verifier.ParseKeySet` | src/policy_model_router/adapters/runtime_authorization.py:156-179 | a key set is accepted exactly when its generation is positive and its entries are well-formed, distinct by identifier and include an active key |
| `Verifier.ResolveExactly` | src/policy_model_router/domain/runtime_authorization.py:59-61 | in a parsed key set an identifier resolves to exactly the key that carries it |
| `Verifier.ControlStore.Read` | src/policy_model_router/adapters/runtime_control.py:24-29 | a snapshot is handed out exactly when it is filed under its own agent, and a missing one is reported exactly when there is none: a misfiled snapshot never passes for a missing one |
| `Verifier.RuntimeAuthorizationVerifier.EnforceControl` | src/policy_model_router/application/runtime_control.py:42-71 | a version passes exactly when the projection can be read and permits it |
| `Verifier.EnforcePermits` | src/policy_model_router/application/runtime_control.py:42-71 | enforcement lets a version through exactly when a reachable, correctly filed, inactive snapshot has its revocation floor below it |
| `Verifier.EnforceExactly` | src/policy_model_router/application/runtime_control.py:42-71 | unavailable, kill switch, revoked: which denial a projection gives, in this order |
| `Verifier.CostMicrosExactly` | src/policy_model_router/application/runtime_authorization.py:350-358 | the request's cost maps to signed micros exactly when it equals them over a million |
| `Verifier.RequestBindingExactly` | src/policy_model_router/application/runtime_authorization.py:285-317 | the binding stage passes exactly when all eleven signed facts equal the request's, the risk tier level by level |
| `Verifier.SameLevelExactly` | src/policy_model_router/application/runtime_authorization.py:307 | the signed tier and the requested level are compared equal exactly when they are the same level |
| `Verifier.KeyStagesExactly` | src/policy_model_router/application/runtime_authorization.py:242-283 | the key and signature stages pass exactly when some trusted, unrevoked key in its windows verifies the signed bytes |
| `Verifier.SignedBytesBind` | src/policy_model_router/application/runtime_authorization.py:271-283 | a signature that covers the canonical bytes of an envelope covers no other header and claims |
| `Verifier.FirstDenialAt` | src/policy_model_router/application/runtime_authorization.py:125-132 | a failing stage with all earlier stages passing is the one reported |
| `Verifier.StageOrder` | src/policy_model_router/application/runtime_authorization.py:125-132 | the order in which the pure stages take precedence |
| `Verifier.PureDenialExactly` | src/policy_model_router/application/runtime_authorization.py:205-347 | each of the fifteen reasons of the pure stages, in its order, under its own code and in terms of the claims, the key the identifier resolves to and the request |
| `Verifier.PureStagesExactly` | src/policy_model_router/application/runtime_authorization.py:125-132 | the pure stages pass together exactly when the authorization is trusted, timely and signed for this request, agent and policy provenance |
| `Verifier.RuntimeAuthorizationVerifier.CheckPureStages` | src/policy_model_router/application/runtime_authorization.py:125-132 | the staged checks report the first failing stage |
| `Verifier.RuntimeAuthorizationVerifier.Verify` | src/policy_model_router/application/runtime_authorization.py:117-169 | with either replay guard the result is that of the first failing stage; nothing runs after a pure denial, the control read alone before a control denial, otherwise read and consumption; the store changes exactly when the consumption ran, and gains the identifier on acceptance and, unless an answer was lost, on nothing else; only a control denial reports the authorization as verified |
| `Verifier.AcceptedExactly` | src/policy_model_router/application/runtime_authorization.py:117-169 | a call is accepted exactly when the pure stages pass, control permits it, the guard answers, and it finds the identifier fresh |
| `Verifier.DeniedSpendsExactly` | src/policy_model_router/application/runtime_authorization.py:134-164 | a denied call leaves an unspent identifier spent exactly when it reached the shared guard, its consumption ran and the answer was lost |
| `Verifier.AcceptedSpendsExactly` | src/policy_model_router/application/runtime_authorization.py:152-169 | an accepted identifier is refused afterwards, except at the process-local guard when the skew accepted it at or past its expiry |
| `Verifier.SelectedModelExactly` | src/policy_model_router/application/runtime_authorization.py:171-194 | the selected group passes exactly when a signed entry names it and allows the signed data class |
| `Verifier.SelectedModelReason` | src/policy_model_router/application/runtime_authorization.py:171-194 | which of the two scope denials is given: no signed entry names the group, or none that does allows the data class |
| `ReplayGuard.InMemoryReplayGuard.Consume` | src/policy_model_router/adapters/runtime_authorization.py:40-58 | pruned, replayed, full or fresh, with the whole new store, which never passes its bound |
| `ReplayGuard.HeldUntilPruned` | src/policy_model_router/adapters/runtime_authorization.py:48-58 | an accepted identifier stays, with its expiry, exactly until some attempt reads a clock at or past it |
| `ReplayGuard.ReplayRecognisedExactly` | src/policy_model_router/adapters/runtime_authorization.py:48-58 | over every run with any clocks, a repeated identifier is recognised exactly when no reading since its acceptance reached its expiry |
| `ReplayGuard.SecondUseOnlyAfterExpiry` | src/policy_model_router/adapters/runtime_authorization.py:40-58 | with a clock that never goes back, a second acceptance of an identifier comes at or after its first expiry |
| `ReplayGuard.StoreBounded` | src/policy_model_router/adapters/runtime_authorization.py:49-57 | over every run, with any clocks, the store never passes its bound |
| `ReplayGuard.LiveIdsKept` | src/policy_model_router/adapters/runtime_authorization.py:49-58 | an accepted identifier that has not expired by the latest reading is still held |
| `ReplayGuard.SingleUseWithoutSkew` | src/policy_model_router/application/runtime_authorization.py:152-163 | zero skew, a clock that never goes back and identifiers that determine their expiry give single use over whole runs |
| `ReplayGuard.SingleUseExactlyWithoutSkew` | src/policy_model_router/application/runtime_authorization.py:236-240 | single use over all such runs holds for zero skew and for no other |
| `ReplayGuard.TwiceAroundExpiryAccepted` | src/policy_model_router/adapters/runtime_authorization.py:49-58 | the run that is accepted twice under any positive skew |
| `ReplayGuard.StaleReadingAccepted` | src/policy_model_router/adapters/runtime_authorization.py:49-58 | without the clock hypothesis an identifier can be accepted twice even at zero skew |
| `ReplayGuard.TtlSeconds` | src/policy_model_router/adapters/runtime_authorization.py:87 | the lifetime in whole seconds covers the expiry and overshoots it by less than a second |
| `ReplayGuard.RedisKeyspace.SetIfAbsent` | src/policy_model_router/adapters/runtime_authorization.py:90 | a key is set exactly when it is absent or past its deadline |
| `ReplayGuard.RedisReplayGuard.Consume` | src/policy_model_router/adapters/runtime_authorization.py:79-96 | the shared guard finds an identifier fresh exactly when its prefixed key has no live deadline, and then records one; a lost answer is an unavailable store, whether or not the command ran |
| `ReplayGuard.SharedReplayRecognisedExactly` | src/policy_model_router/adapters/runtime_authorization.py:79-96 | over every run with any clocks, a key presented again is refused exactly before the deadline its acceptance set |
| `ReplayGuard.DeadlineRemembered` | src/policy_model_router/adapters/runtime_authorization.py:79-96 | a key keeps a deadline at least as late as any accepted attempt gave it |
| `ReplayGuard.SharedSecondUseOnlyAfterExpiry` | src/policy_model_router/adapters/runtime_authorization.py:79-96 | over any number of replicas a second acceptance waits for the recorded deadline, which covers the expiry unless the server's clock was behind |
| `ReplayGuard.SharedSingleUseBeforeExpiry` | src/policy_model_router/adapters/runtime_authorization.py:79-96 | over any number of replicas the shared guard gives single use as long as every command runs before the expiry of what it consumes |
| `ReplayGuard.SharedTwiceAccepted` | src/policy_model_router/adapters/runtime_authorization.py:87-96 | the run of two replicas that is accepted twice: by a reading at the expiry, or by one before it whose command runs late |
| `ReplayGuard.SharedSingleUseExactly` | src/policy_model_router/adapters/runtime_authorization.py:79-96 | over all runs on one clock with a given skew and a given delay between reading and command, single use holds exactly when both are zero |
| `ReplayGuard.GainsExactlyWhenFresh` | src/policy_model_router/adapters/runtime_authorization.py:40-96 | either guard gains a key exactly when it finds the identifier fresh, and holds it to its expiry |
| `ReplayGuard.RefusesExactly` | src/policy_model_router/adapters/runtime_authorization.py:40-96 | an identifier presented again at the same readings is refused exactly if it was before or has just been found fresh, by the process-local guard only while unexpired |
| `ReplayGuard.FoundFreshAgain` | src/policy_model_router/adapters/runtime_authorization.py:40-96 | with either guard an identifier is found fresh again only at or after its first expiry, on the clock that guard decides by |
| `ControlProtocol.ConsumedOnlyIfCleared` | src/policy_model_router/application/runtime_authorization.py:134-151 | over every interleaving, everything consumed passed the pure stages and earlier read a trustworthy, inactive snapshot with a floor below its version |
| `ControlProtocol.AcceptedIsAuthorized` | src/policy_model_router/application/runtime_authorization.py:117-169 | over every interleaving, a consumed call was signed by a trusted key for its own facts and permitted when its control read ran |
| `ControlProtocol.RevokedForGood` | src/policy_model_router/application/runtime_control.py:66-70 | with floors that never fall, a revoked version stays revoked |
| `ControlProtocol.RevokedVersionsAreNotAccepted` | src/policy_model_router/application/runtime_control.py:42-71 | once the floor reaches a version, every consumption of it had read the projection earlier |
| `ControlProtocol.FlightWaits` | src/policy_model_router/application/runtime_authorization.py:134-157 | a call that passed its control read waits through every event but its own consumption |
| `ControlProtocol.ReadDecides` | src/policy_model_router/application/runtime_authorization.py:134-157 | whatever happens between the control read and the consumption, the replay guard alone decides the call |
| `ControlProtocol.AcceptedThoughNoLongerPermitted` | src/policy_model_router/application/runtime_authorization.py:134-157 | any call past its control read whose identifier is unspent is accepted although its agent's kill switch was engaged in between |
| `ControlProtocol.PermittedAtConsumptionExactly` | src/policy_model_router/application/runtime_authorization.py:134-157 | a call is still permitted when it is consumed exactly when the last snapshot written for its agent since its read, if any, permits it |
| `ControlProtocol.OnlyConsumptionSpends` | src/policy_model_router/application/runtime_authorization.py:134-151 | Governance writes, starts and control reads leave the replay store untouched |
| `ControlProtocol.StoreIsTheSpends` | src/policy_model_router/application/runtime_authorization.py:152-169 | the store is what the recorded consumptions leave, each of which found what the earlier ones left |
| `ControlProtocol.OnlyAcceptedIdsAreSpent` | src/policy_model_router/application/runtime_authorization.py:134-164 | over every interleaving, with either guard, a stored key is that of a call whose verification succeeded, or of one whose consumption ran but whose answer was lost |
| `ControlProtocol.SpentExactly` | src/policy_model_router/adapters/runtime_authorization.py:79-96 | over every interleaving the shared store holds exactly the keys of calls found fresh that were accepted or whose answer was lost after the command ran |
| `ControlProtocol.LostAnswerSpends` | src/policy_model_router/adapters/runtime_authorization.py:79-96 | a fresh consumption that ran but whose answer was lost is not accepted, and its identifier is refused exactly until the deadline it set |
| `ControlProtocol.AcceptedAgainOnlyAfterExpiry` | src/policy_model_router/application/runtime_authorization.py:117-169 | over every interleaving, with either guard, a second acceptance of an identifier comes at or after the first expiry, when the clock the guard decides by never goes back and, for the shared guard, no command runs before the reading it carries |
| `ControlProtocol.AcceptedOnce` | src/policy_model_router/application/runtime_authorization.py:117-169 | over every interleaving of any number of replicas, with either guard, no identifier that determines its expiry is accepted twice when every consumption is decided before that expiry on a clock that never goes back |
| `ControlProtocol.TimelyWithoutSkew` | src/policy_model_router/application/runtime_authorization.py:236-240 | at zero skew the expiry check makes consumptions timely when the guard decides at the reading they carry |
| `ControlProtocol.AcceptedOnceWithoutSkew` | src/policy_model_router/application/runtime_authorization.py:117-169 | at zero skew, with clocks that never go back and identifiers that determine their expiry, no identifier is accepted twice: with the process-local guard, and with the shared one when commands run without delay |
| `ControlProtocol.UninterruptedIsVerify` | src/policy_model_router/application/runtime_authorization.py:117-169 | the steps of one call with nothing in between accept exactly when one verification succeeds |
| `Routing.FirstFailureUnique` | src/policy_model_router/domain/constraints.py:207-217 | a candidate has one first failing constraint |
| `Routing.CodesNameConstraints` | src/policy_model_router/domain/constraints.py:36-204 | a reason code names the one constraint that failed |
| `Routing.PassesAllNine` | src/policy_model_router/domain/constraints.py:36-217 | a candidate has no failing constraint exactly when class, risk, output, tools, context, cost, latency, availability and agent are all in order |
| `Routing.RouteModelUseCase.FirstFailure` | src/policy_model_router/application/route_model.py:113-117 | the code of the first failing condition, each written out in the order of the nine, or none when all pass |
| `Routing.FirstFailureExactly` | src/policy_model_router/domain/constraints.py:36-217 | the first failure of a candidate is that of the nine conditions, in their order and each under its own code |
| `Routing.OutcomeExactly` | src/policy_model_router/application/route_model.py:88-140 | every outcome condition by condition: which groups are asked for, which group decides, and under which code it is refused |
| `Routing.ExplainedExactly` | src/policy_model_router/application/route_model.py:142-171 | an explained candidate carries the code of its own first failing condition, or passes all nine |
| `Routing.RouteModelUseCase.Route` | src/policy_model_router/application/route_model.py:88-171 | the outcome a declarative relation assigns to the policy and request, explained or not, with its error cases |
| `Routing.RouteModelUseCase.Explanation` | src/policy_model_router/application/route_model.py:142-171 | the rejected list is strictly sorted and gives every other declared group once, with its first failing constraint, or the mapped-elsewhere code exactly when it passes all nine |
| `Routing.PathsAgreeExactly` | src/policy_model_router/application/route_model.py:95-140 | for a provider that answers each group by itself, both paths choose the same exactly when the mapped group is declared |
| `Routing.DecisionUnique` | src/policy_model_router/application/route_model.py:88-171 | policy, provider and request determine the whole outcome |
| `Routing.DecidesExactly` | src/policy_model_router/application/route_model.py:88-171 | the relation is the graph of a function: every request has exactly one outcome |
| `Routing.CostMonotone` | src/policy_model_router/domain/catalog.py:37-43 | fewer tokens never cost more |
| `Routing.FirstFailureMonotone` | src/policy_model_router/domain/constraints.py:75-180 | an easier request or more availability never moves a candidate's first failure earlier |
| `Routing.RoutingMonotone` | src/policy_model_router/application/route_model.py:95-140 | an accepted request stays accepted, for the same group, when it asks for less or the provider grants more |
| `Routing.AcceptedStaysAccepted` | src/policy_model_router/application/route_model.py:95-140 | the general form: an accepted request stays accepted, for the same group, when it asks for less, of a policy that differs only by more available flags, under a provider that grants as much |
| `Routing.RoutingMonotoneInFlags` | src/policy_model_router/adapters/availability.py:8-13 | the same for the provider that returns the policy's own flags, when the second policy declares more groups available |
| `PolicyReload.ConstructMapping` | src/policy_model_router/adapters/routing_policy_loader.py:36-48 | a mapping is built exactly when its keys are distinct, and holds each pair |
| `PolicyReload.IntegrityExactly` | src/policy_model_router/adapters/routing_policy_loader.py:97-122 | integrity accepts exactly the configurations without dangling groups or unstaged unreferenced ones |
| `PolicyReload.LoadsExactly` | src/policy_model_router/adapters/routing_policy_loader.py:59-187 | a file loads exactly when it can be read, parses and is acceptable, condition by condition; the policy is then the file's own, every group and workload kept, under the digest of its text |
| `PolicyReload.LoadedIsSound` | src/policy_model_router/adapters/routing_policy_loader.py:125-187 | every loaded policy maps each workload to a declared group |
| `PolicyReload.AppState.ReloadRoutingPolicy` | src/policy_model_router/entrypoints/http.py:392-434 | a reload installs a new use case on the loaded policy or keeps the running one |
| `PolicyReload.InstalledIsLoaded` | src/policy_model_router/entrypoints/http.py:392-434 | over every interleaving of reloads the installed policy is one the loader accepted |
| `PolicyReload.InstalledExactly` | src/policy_model_router/entrypoints/http.py:392-434 | over every interleaving the installed policy is that of the last reload that loaded, or the one at startup |
| `PolicyReload.UseCasesKept` | src/policy_model_router/entrypoints/http.py:392-434 | a use case, once built, stays what it was through every later reload |
| `PolicyReload.DecisionsUseOnePolicy` | src/policy_model_router/entrypoints/http.py:643-646 | over every interleaving a decision, made when the request finishes, is that of the policy installed when it started, with its digest, and never meets an undeclared group |
| `RuntimeViolation.BuildsExactly` | src/policy_model_router/entrypoints/runtime_violation.py:55-111 | evidence is built exactly from denials consistent in code, authorization, trust and group; it is then valid, reports that denial with the digest of its signed bytes, carries what the service added, and its digest is that of its own bytes |
| `RuntimeViolation.SemanticsExactly` | src/policy_model_router/entrypoints/runtime_violation_contract.py:125-140 | what the semantic validator asks, in terms of the denial's code |
| `RuntimeViolation.CategoryExactly` | src/policy_model_router/entrypoints/runtime_violation.py:19-52 | the category of every code |
| `RuntimeViolation.StateValidExactly` | src/policy_model_router/entrypoints/runtime_violation_contract.py:80-95 | each identifier is present exactly when there was an authorization |
| `RuntimeViolation.ContextValid` | src/policy_model_router/entrypoints/runtime_violation_contract.py:80-95 | every context the builder makes satisfies the state validator |
| `RuntimeViolation.EventBytesInjective` | src/policy_model_router/entrypoints/runtime_violation_contract.py:142-144 | the bytes under the evidence digest determine the event |
| `RuntimeViolation.EventBytesLayout` | src/policy_model_router/entrypoints/runtime_violation_contract.py:98-144 | the digested bytes are the canonical bytes of one object that holds every fact under its own name, the constants, and nothing else |
| `RuntimeViolation.LabelsRoundTrip` | src/policy_model_router/entrypoints/runtime_violation_contract.py:33-48 | categories and states are written as the texts that read as them |
| `RuntimeViolation.EvidenceBytesBind` | src/policy_model_router/entrypoints/runtime_violation_contract.py:142-167 | the digest of one event is taken over the bytes of no other |
| `RouteHandler.RouterApp.Authorize` | src/policy_model_router/entrypoints/http.py:842-866 | the gate's outcome and the whole replay store it leaves: passing it spends the identifier; failing it adds none unless the store is reported unavailable, when the consumption may have run |
| `RouteHandler.RouterApp.Decide` | src/policy_model_router/entrypoints/http.py:868-928 | routing on the captured use case, then the check of its group against the signed scope |
| `RouteHandler.RouterApp.Route` | src/policy_model_router/entrypoints/http.py:810-946 | the answer, the evidence left in the request's state and the whole replay store; rate-limited and unauthorized under exactly the stated conditions, which touch no verifier state, and under enforcement a decision, an unroutable outcome and a model-scope denial have all spent the identifier |
| `RouteHandler.RouterApp.HandleDenial` | src/policy_model_router/entrypoints/http.py:727-770 | evidence is answered exactly once a request is bound; it is built exactly when what the handler left is consistent, and then valid and about this denial |
| `RouteHandler.RouterApp.Serve` | src/policy_model_router/entrypoints/http.py:727-946 | one request end to end: a denial comes with evidence that both validators accept, that reports the routed group exactly for a model-scope denial and says verified exactly for a model-scope or a control denial; a decision under enforcement is authorized, permitted, unspent and scoped; the whole replay store afterwards |
| `RouteHandler.LimiterKeysExactly` | src/policy_model_router/entrypoints/http.py:826-829 | two callers share a budget exactly when address and agent are equal, or one address continues the other by what the other's agent name starts with |
| `RouteHandler.PlainNamesHaveOwnBudgets` | src/policy_model_router/entrypoints/http.py:826-829 | agent names without a colon give distinct callers distinct budgets |
| `RouteHandler.CallersShareBudget` | src/policy_model_router/entrypoints/http.py:826-829 | two callers at different addresses, under different agent names, that share a budget |
| `RouteHandler.DenialsAreConsistent` | src/policy_model_router/entrypoints/http.py:727-770 | every run that ends in a denial leaves facts that both validators accept |
| `RouteHandler.EvidenceOfDenial` | src/policy_model_router/entrypoints/http.py:912-928 | the evidence carries the routed group and a verified authorization exactly for a model-scope denial |
| `RouteHandler.VerifiedMeansStagesPassed` | src/policy_model_router/entrypoints/http.py:735-747 | a denial is reported as verified only for an authorization that passed every stage through policy provenance |
| `RouteHandler.DecisionIsAuthorized` | src/policy_model_router/entrypoints/http.py:842-928 | with enforcement on and a loaded policy, a decision implies an authorized, permitted, unspent authorization and a mapped group that passes all nine constraints and is signed for the request's own data class |
| `RouteHandler.RequestSpendsExactly` | src/policy_model_router/entrypoints/http.py:842-928 | under enforcement a request makes its unspent identifier refused exactly if it got past the gate, or its consumption ran at the shared guard and only the answer was lost |
| `RouteHandler.UnavailableExactly` | src/policy_model_router/application/runtime_authorization.py:134-164 | a call is told the replay store is unavailable exactly when it reaches the guard and no answer arrives |
| `SpentUnreturned.ModelScopeDenialSpends` | src/policy_model_router/entrypoints/http.py:857-928 | a request that passes the gate and routes, is denied because its group is not signed, and whose identifier is then refused |
| `SpentUnreturned.LostAnswerDenialSpends` | src/policy_model_router/adapters/runtime_authorization.py:79-96 | a request denied because the answer of its consumption was lost, and whose identifier is then refused |
| `Service.RunsProject` | src/policy_model_router/entrypoints/http.py:810-928 | a run of the whole service is a run of the verification protocol and of the policy machine at once |
| `Service.RunsAreTraced` | src/policy_model_router/entrypoints/http.py:810-928 | in every run, each request in flight, each acceptance and each returned decision goes back to the arrival event of its own request, with the same request, authorization and explain flag |
| `Service.StateIsLatest` | src/policy_model_router/entrypoints/http.py:810-928 | in every run the projection holds the last snapshot Governance wrote for each agent, and the installed policy is that of the last reload that loaded |
| `Service.DecisionsHaveTheirAcceptance` | src/policy_model_router/entrypoints/http.py:857-928 | over every interleaving of requests, Governance writes and reloads, each returned decision has an accepted authorization of its own, for its own request and scope |
| `Service.IdentifiersDecideOnce` | src/policy_model_router/entrypoints/http.py:857-928 | over every such interleaving no identifier that determines its expiry yields two decisions when consumptions are decided before that expiry on a clock that never goes back |
| `Service.DecisionsAreAuthorized` | src/policy_model_router/entrypoints/http.py:842-928 | over every such interleaving a returned decision was authorized, was permitted by the snapshot Governance had last written when its control read ran, is that of the policy last loaded when this very request arrived, and selects a constraint-passing group signed for the request's data class |
| `Service.AloneIsTheHandler` | src/policy_model_router/entrypoints/http.py:842-928 | a request whose events follow one another gets a decision exactly when one call of the handler returns it |
| `JsonSchema.JsonEqualIsImageEquality` | scripts/_vendor_loop_schemas/_stdlib_jsonschema.py:54-75 | equality of documents is equality after reading numbers by value |
| `JsonSchema.JsonEqualEquivalence` | scripts/_vendor_loop_schemas/_stdlib_jsonschema.py:54-75 | equality of documents is an equivalence relation |
| `JsonSchema.AssertSupportedSchema` | scripts/_vendor_loop_schemas/_stdlib_jsonschema.py:110-139 | a schema is accepted exactly when it is supported throughout |
| `JsonSchema.SupportedExactly` | scripts/_vendor_loop_schemas/_stdlib_jsonschema.py:110-139 | a schema is supported exactly when every schema inside it uses supported keywords only |
| `JsonSchema.SupportedKeywordsExactly` | scripts/_vendor_loop_schemas/_stdlib_jsonschema.py:20-47 | the supported keywords are those evaluation reads and four annotations |
| `JsonSchema.OnlyEvaluatedMatters` | scripts/_vendor_loop_schemas/_stdlib_jsonschema.py:142-288 | schemas that agree on the keywords evaluation reads are satisfied by the same documents |
| `JsonSchema.TypeErrors` | scripts/_vendor_loop_schemas/_stdlib_jsonschema.py:142-156 | no error exactly when a listed type matches; it raises exactly on a type of another shape or an unknown name met before a match |
| `JsonSchema.MatchesTypeExactly` | scripts/_vendor_loop_schemas/_stdlib_jsonschema.py:78-98 | the type names of each kind of document: an integer is also a number, a boolean is not |
| `JsonSchema.TypeMeans` | scripts/_vendor_loop_schemas/_stdlib_jsonschema.py:142-156 | what `type` asks, in terms of those names |
| `JsonSchema.RequiredMeans` | scripts/_vendor_loop_schemas/_stdlib_jsonschema.py:161-165 | what `required` asks of an object |
| `JsonSchema.EnumMeans` | scripts/_vendor_loop_schemas/_stdlib_jsonschema.py:248-253 | what `enum` and `const` ask |
| `JsonSchema.ArrayBoundsMean` | scripts/_vendor_loop_schemas/_stdlib_jsonschema.py:187-195 | what `minItems`, where a boolean counts as 0 or 1, and `uniqueItems` ask of an array |
| `JsonSchema.StringBoundsMean` | scripts/_vendor_loop_schemas/_stdlib_jsonschema.py:222-231 | what `minLength`, `pattern` and `format` ask of a string |
| `JsonSchema.NumberBoundsMean` | scripts/_vendor_loop_schemas/_stdlib_jsonschema.py:233-238 | what `minimum` and `exclusiveMinimum` ask of a number |
| `JsonSchema.ObjectErrors` | scripts/_vendor_loop_schemas/_stdlib_jsonschema.py:159-182 | no error exactly when required members are present and every member satisfies its schema; it raises exactly on malformed `properties` or when the evaluation of a member does |
| `JsonSchema.UniqueErrors` | scripts/_vendor_loop_schemas/_stdlib_jsonschema.py:185-203 | no error exactly when there are enough items and, if asked, no two are equal |
| `JsonSchema.ArrayErrors` | scripts/_vendor_loop_schemas/_stdlib_jsonschema.py:185-217 | no error exactly when size, uniqueness, items and contains are satisfied; it raises exactly when an item evaluated for `items`, or for `contains` up to the first that satisfies it, does |
| `JsonSchema.ScalarErrors` | scripts/_vendor_loop_schemas/_stdlib_jsonschema.py:220-239 | no error exactly when length, pattern, format and bounds are satisfied |
| `JsonSchema.ConditionalErrors` | scripts/_vendor_loop_schemas/_stdlib_jsonschema.py:266-277 | the branch chosen by the condition, or neither, decides; the condition and that branch, and no other schema, are evaluated |
| `JsonSchema.ValidationErrors` | scripts/_vendor_loop_schemas/_stdlib_jsonschema.py:242-288 | no error exactly when the document satisfies the schema; it raises exactly when some evaluation it comes to has a bad `type` or `properties`, and goes through exactly the evaluations it comes to |
| `JsonSchema.RaisesStep` | scripts/_vendor_loop_schemas/_stdlib_jsonschema.py:242-288 | a type error ends an evaluation; otherwise what raises is its own `properties` or an evaluation under one of its keywords |
| `JsonSchema.EvaluatesInside` | scripts/_vendor_loop_schemas/_stdlib_jsonschema.py:159-288 | whatever the document, only schemas inside the given one are evaluated |
| `JsonSchema.WellFormedNeverRaises` | scripts/_vendor_loop_schemas/_stdlib_jsonschema.py:142-288 | a schema with known type names and object `properties` throughout raises on no document |
| `JsonSchema.ValidateSupported` | scripts/_vendor_loop_schemas/_stdlib_jsonschema.py:110-139 | on an accepted schema every schema evaluated, for any document, contains supported keywords only; accepted schemas can still raise, exactly on the same condition |

## Left out

- Floating point: window arithmetic, latencies and prices are exact reals or integers.
- Verifier.CostMicrosExactly: does not model decimal-context rounding, which starts beyond 28 significant digits.
- JsonSchema.JsonEqualEquivalence: numbers are finite and represented exactly by a float; larger integers, infinities and NaN are excluded.
- RouteHandler.RouterApp.WithinRate: uses the process-local limiter; the shared one is modelled on its own.
- RedisRateLimiter.LifetimeBound: calls admitted because the backend failed open are not counted; the same holds for `RedisRateLimiter.SlidingBound`.
- RuntimeViolation.BuildsExactly: the field patterns and lengths of the framework, which can also refuse evidence, are not modelled.
- Service.DecisionsAreAuthorized: one policy table serves all requests; replicas that reload at different times would each have their own.
- Service: requests that the limiter or authentication refuses, and deployments without enforcement, take no part in the runs; `RouteHandler` covers them.
- Ed25519, SHA-256, HMAC and signature decoding: an uninterpreted predicate and uninterpreted digests; injectivity is proved of the bytes only.
- Timestamp texts: an uninterpreted injective function.
- Field patterns and length bounds, whitespace stripping and the other framework validators of parsed records.
- Regular expressions, the date-time format and YAML parsing: abstract functions.
- The wording of messages, error paths, and observed and required values.
- Constructor checks on configured ranges, and the rounding of the window to milliseconds.
- Cancellation and failures of awaited calls, startup, shutdown, readiness probes and signal handling.
- Constant-time comparison of API keys: plain equality.
- Redis itself: a key is taken to be gone once the server's clock reaches its deadline; the fixed prefix of rate-limit keys is omitted.
- Logging, tracing, metrics, settings and identifier generation.
- Parsing of stored control snapshots: the projection is a map of parsed snapshots.
- Quality-gate, architecture and vendor-manifest scripts: file-system plumbing.
