# FunPot core services: a verified model

This project models the stateful services of the FunPot Go core in Dafny and proves what they promise: the
refresh-session protocol over Redis and its in-memory twin, the submission limiter, the streamer pages, the log of
LLM decisions, the media worker and its lease lock, the prompt history, the game catalogue, and the signed data of a
Telegram Mini App. `dafny verify dfyconfig.toml` checks all of it.

## How the pieces fit

**Refresh sessions** (`Redis`, `RefreshSessions`, `RefreshProtocol`, `RefreshInvariant`, `RefreshTheorems`,
`RefreshCap`, `RefreshTtl`, `RefreshSolo`, `RefreshOutcomes`, `RefreshOrphanRun`, `RefreshStaleReads`, `RefreshStaleRuns`).
Redis is a state of hashes, sorted sets, deadlines, a
version per session key, and one clock. Every single command and every MULTI/EXEC block is one step. A call of
`Create`, `Refresh`, `Logout` or `LogoutAll` is a program counter (`RefreshProtocol.NextPc`, `NextDb`, `CommitSession`,
`CommitRotation`), and any number of calls interleave with ticks of the clock, expiring keys and calls that die at
any step. An EXEC under WATCH fails if the version of the key has moved; expiry moves it, as in Redis 6.0.9 and later.
The hypotheses are in the `Enabled` predicate: session ids and tokens are drawn fresh, and tokens stand for their
hashes, so hashing is injective. Three facts are carried by the model rather than assumed away: `Rotate` extends the
hash of a session but not the TTL of the user's index, so a session can outlive the index key that lists it (the
model calls it an orphan, and `RefreshOrphanRun` shows one); a revocation writes `revoked_at` without WATCH and can
recreate a hash that holds nothing else; and eviction is a DEL and then a ZREM, with other calls in between.

**The two stores** (`RedisRefreshStore`, `RedisCreate`, `MemoryRefreshStore`, `RefreshRefinement`, `RefreshDivergence`,
`RefreshCodec`, `RefreshTokens`). The same store again as a class with the source's loops and pipeline queues, each
method proved against a function on values; the lock-based store as a class over a map; a simulation between them,
revocations included; and the exact condition under which a step keeps it.

**Streamers** (`SubmissionLimiter`, `StreamerCatalogue`, `DecisionLog`), **media** (`MediaWorker`, `MediaLease`),
**admin** (`Prompts`, `Games`) and **Telegram** (`TelegramData`): classes with the source's loops, whose methods are
proved against functions on values, and theorems about all runs of those functions or, where calls run at once, about
all interleavings of their critical sections. `Sorting`, `Text` and `Basics` are shared. Walks over a map pick the
next key nondeterministically, so every method proof covers every iteration order.

Where an expected property is false of the code, the exact condition under which it holds is proved, with a concrete
input or run on which it fails:

- A live session is in its user's index exactly if it is no orphan (`IndexAgreement`). As time passes it is lost exactly
  if the index key has the earlier deadline (`IndexLosesSessionIff`), which `IndexCanLoseALiveSession` shows on a run;
  on runs on which no Rotate outlasts that key and no Create shortens it, nothing is lost (`NothingIsLost`).
- The stores go on agreeing after a step exactly if it is agreeable (`AgreesIff`): no login at the cap with a revoked
  session among those it counts, no LogoutAll over a listed session that has expired or one revoked at another time,
  and no wait in which an index key runs out before a session it lists. `LoginAfterLogout` and `LogoutAllAfterExpiry`
  are runs on which the map store can not give the answers of Redis.
- `List` shows the right page exactly if the offset fits in an int64, or wraps past the list (`PageIsRightIff`, `OffsetsThatWrap`).
- A second worker gets the lease exactly if the deadline of the holder has come (`SecondWorkerGetsInIff`), and because
  `Unlock` checks no owner, a late worker can let two in that are both in time (`LateUnlockFreesAnothersLock`).
- The log of decisions can store two in the order opposite to their numbers (`AppendsCanOvertake`): calls between
  their two critical sections can break the order of a list exactly unless it is one at most, with a number after all
  that are stored (`OrderCanBreakIff`), so a list is in order until two calls of its streamer are there at once
  (`OrderUntilTwoArePending`). The lease does not prevent that. Timely leases order what workers record, whoever else
  writes (`DecisionsFollowRuns`), but the admin's POST takes no lease: the order of the whole list can break exactly
  from when a POST is there together with another call (`OrderUntilAPostMeetsACall`), and one worker and one POST are
  enough (`WorkerAndPostBreakTheOrder`).
- A Logout revokes as a check and revocation in one step would, exactly if no Rotate of the session has completed since
  it checked the token and the session can still be read (`LogoutIsAtomicIff`); otherwise it can end a session whose
  token it does not have (`LogoutTakesARotatedSession`).
- An eviction deletes the lowest ranked session exactly if that still ranks below those created or rotated since the
  pick, and below all others if it was rotated itself (`EvictionTakesTheLowestIff`); on a run it deletes the newest
  (`EvictionTakesTheNewest`). A cleanup deletes what it found expired exactly if that was not rotated since
  (`CleanupTakesWhatItSawIff`); on a run it deletes a session with time left (`CleanupTakesALiveSession`).
- The string Telegram signs can be read back exactly if the signed values are plain (`RecoveredIff`, `SameStringForDifferentValues`).

The limiter admits at most 3 * (floor(L / (W + 1)) + 1) calls of a key in a closed interval of L nanoseconds, and two
more if L is no multiple of W + 1: three at one instant, five in a minute. For every L that is reached (`SlidingBound`,
`BoundIsReached`).

## Model

| member | source | states |
|---|---|---|
| RefreshInvariant.StepKeeps | internal/auth/refresh_store.go:76-248 | Every step of every call, clock tick and expiry keeps the invariant that ties hashes, index, tokens, rotations and program counters together |
| RefreshInvariant.ReachableInv | internal/auth/service.go:127-228 | The invariant holds in every state that any interleaving of service calls can reach |
| RefreshInvariant.RevokeKeeps | internal/auth/refresh_store.go:203-228 | A revocation written without WATCH, of sessions that may be gone, keeps the store part of the invariant |
| RefreshInvariant.PassKeeps | internal/auth/refresh_store.go:130-132 | Expiry keeps it too, and the orphans after it are those before and the sessions that an index key lists which runs out |
| RefreshInvariant.ReadFacts | internal/auth/refresh_store.go:137-146 | What Get finds is a session that was created, with its own user and a token that was once its own; a session is alive under a token if and only if Get finds it unrevoked with that token |
| RefreshTheorems.TokenIsSingleUse | internal/auth/service.go:148-164 | No two Refresh calls of any run succeed with the same token |
| RefreshTheorems.RotationsFormOneChain | internal/auth/refresh_store.go:157-188 | Each success on a session consumes the token the success before it handed out |
| RefreshTheorems.ChainEnds | internal/auth/refresh_store.go:122-188 | The chain starts at the token Create stored and ends at the token a live session holds |
| RefreshTheorems.ExecIsAtomic | internal/auth/refresh_store.go:178-192 | A Rotate succeeds at its EXEC if and only if an atomic check-and-set would at that instant, and then stores what that stores; otherwise it stores nothing |
| RefreshTheorems.ReadIsAtomic | internal/auth/refresh_store.go:157-177 | A Rotate that gives up at its read reports the error of the atomic check-and-set at that instant, and gives up only then |
| RefreshTheorems.DeadForever | internal/auth/refresh_store.go:195-248 | A session once created and no longer alive never comes back and is never rotated again, whatever runs |
| RefreshTheorems.RevocationIsPermanent | internal/auth/refresh_store.go:195-229 | After revoked_at is written for an id no Rotate of it completes, and its key is absent, revoked, or a remnant that does not parse |
| RefreshTheorems.IndexAgreement | internal/auth/refresh_store.go:113-133 | A live session is in its user's index, with its expiry as score, if and only if the index key has not expired since it was last written; also between the DEL and the ZREM of an eviction |
| RefreshTheorems.LogoutAllCovers | internal/auth/refresh_store.go:210-229 | Every session live and indexed at the ZRANGE is dead after the EXEC, for good, whatever runs in between |
| RefreshTheorems.SessionEndsIff | internal/auth/refresh_store.go:98-248 | A live session dies at a step if and only if its deadline passes, a Create or LogoutAll of its own user takes it, a Logout of its id is carried out, or a Rotate of it has no time to live left; no call of another user ends it |
| RefreshTheorems.LogoutAllSparesOthers | internal/auth/refresh_store.go:222-228 | The EXEC of LogoutAll leaves every session it does not list as alive as it was |
| RefreshStaleReads.LogoutIsAtomicIff | internal/auth/service.go:174-193 | At its EXEC a Logout does what checking the token and revoking in one step would, if and only if the session can be read and no Rotate of it completed since the check, that is, if and only if it still holds the token; a call that comes to its EXEC reports success and ends the session in any case |
| RefreshStaleReads.TokenStaysIff | internal/auth/refresh_store.go:137-193 | Two reads of one session give one token if and only if no Rotate of it completed in between |
| RefreshStaleReads.RefreshCanOvertakeLogout | internal/auth/service.go:185-192 | From any reachable state between the two reads of a Logout, a Refresh leads to one in which the atomic Logout would refuse and this one ends the session |
| RefreshStaleReads.EvictionTakesTheLowestIff | internal/auth/refresh_store.go:98-119 | A listed session about to be evicted is the lowest ranked if and only if it ranks below all that were created or rotated since the pick and, if it was itself rotated since, below all others |
| RefreshStaleReads.RefreshCanOvertakeEviction | internal/auth/refresh_store.go:107-118 | From any reachable state between the pick and the DEL, a Refresh of the picked session makes it the highest ranked, if its new expiry is the latest, and the DEL still ends it |
| RefreshStaleReads.CleanupTakesWhatItSawIff | internal/auth/refresh_store.go:231-248 | A live session about to be cleaned up is what it was at the scan if and only if no Rotate of it completed since; then it has expired |
| RefreshStaleReads.RefreshCanOvertakeCleanup | internal/auth/refresh_store.go:231-248 | From any reachable state between the scan and the DEL, a Refresh gives a listed session time to live that the DEL takes |
| RefreshStaleRuns.LogoutTakesARotatedSession | internal/auth/service.go:185-192 | A run from the empty store on which a Logout ends a session that has been rotated since its check |
| RefreshStaleRuns.EvictionTakesTheNewest | internal/auth/refresh_store.go:107-118 | A run with a cap of two on which an eviction ends the session that expires last |
| RefreshStaleRuns.CleanupTakesALiveSession | internal/auth/refresh_store.go:231-248 | A run on which a cleanup ends a session that was refreshed after the scan and has time left |
| RefreshCap.CapUnderConcurrency | internal/auth/refresh_store.go:98-133 | With at most n Create calls of a user in flight, the index holds at most max - 1 + n members and those a Rotate brought back since a Create last saw room; the same bounds the live sessions that are no orphans, and if the index key never expired these are all and none was brought back |
| RefreshCap.SeeingRoomRestoresTheCap | internal/auth/refresh_store.go:98-119 | Whatever ran before, after a Create sees room the index and the creates past the check together are at most max - 1 + n |
| RefreshTtl.IndexLosesSessionIff | internal/auth/refresh_store.go:130-132 | As time passes, a listed live session stays alive unlisted if and only if the index key has run out and the hash has not |
| RefreshTtl.NothingIsLost | internal/auth/refresh_store.go:178-186 | On a run on which no Rotate of a user sets a deadline beyond the index key's and no Create brings that forward, every live session of the user is listed with its expiry and outlived by the key |
| RefreshTtl.LogoutAllCoversAll | internal/auth/refresh_store.go:210-229 | On such a run LogoutAll ends every session of the user that was live at its ZRANGE, for good |
| RefreshSolo.SoloCreate | internal/auth/refresh_store.go:76-135 | The steps of an uninterrupted Create add up to the sequential Create, error cases included |
| RefreshSolo.SoloRefresh | internal/auth/service.go:138-164 | An uninterrupted Refresh of a session that is alive with the token presented and not expired succeeds and ends as the atomic rotate |
| RefreshSolo.SoloEvict | internal/auth/refresh_store.go:98-119 | The uninterrupted steps of the eviction loop evict what the sequential loop evicts |
| RefreshOutcomes.RefreshGetAnswers | internal/auth/service.go:138-151 | For every stored state the answer of the first read of Refresh: not found if absent or expired, malformed, revoked, a mismatch for any other token, and otherwise it goes on |
| RefreshOutcomes.RefreshGoesOnIff | internal/auth/service.go:138-151 | In a reachable store Refresh goes on to Rotate if and only if the session is alive with the token and its stored expiry is not before the time of the call |
| RefreshOutcomes.RotateReadAnswers | internal/auth/refresh_store.go:157-177 | The same for the read under the WATCH, and what the EXEC is then given, TTL included |
| RefreshOutcomes.RotateExecAnswers | internal/auth/refresh_store.go:188-192 | An EXEC on a key that was touched changes nothing and reports a concurrent update |
| RefreshOutcomes.CreateStores | internal/auth/refresh_store.go:121-135 | Field by field and deadline by deadline what the transaction of Create leaves |
| RefreshOutcomes.RotateStores | internal/auth/refresh_store.go:178-186 | The same for Rotate: three fields and the TTL of the session, and its score, but no deadline of the index key |
| RefreshOutcomes.RevocationStores | internal/auth/refresh_store.go:203-228 | The same for both revocations: revoked_at in every hash, created without a TTL where there was none, and no other field |
| RefreshOutcomes.SoloRefreshAnswers | internal/auth/service.go:127-172 | An uninterrupted Refresh does what the operation of the service does, errors included, and succeeds if and only if the session is alive with the token and unexpired, a token is drawn and the lifetime is not negative |
| RefreshOutcomes.RefreshesGoOn | internal/auth/service.go:127-172 | Such a session can be refreshed any number of times in a row, each time with the token handed out last |
| RefreshOutcomes.LogoutGetAnswers | internal/auth/service.go:185-192 | For every stored state the answer of the check of Logout: a mismatch for any token but the stored one |
| RefreshOutcomes.RevokeGetAnswers | internal/auth/refresh_store.go:195-199 | The same for the read of RevokeSession |
| RefreshOutcomes.LoggedOutMeansRevoked | internal/auth/service.go:174-193 | On every run a Logout that reports success has carried out its revocation, and the session is dead |
| RefreshOutcomes.SoloLogout | internal/auth/service.go:174-193 | An uninterrupted Logout is the check and revocation in one step: its store on success, its error otherwise |
| RefreshOutcomes.SoloLogoutAll | internal/auth/refresh_store.go:210-229 | An uninterrupted LogoutAll revokes exactly what is listed and always reports success |
| RefreshOutcomes.SoloLoginAnswers | internal/auth/service.go:203-228 | An uninterrupted login does what the operation of the service does, errors included |
| RefreshOrphanRun.IndexCanLoseALiveSession | internal/auth/refresh_store.go:178-186 | A run with the default TTL after which a live session is in no index, and LogoutAll returns without killing it |
| Redis.ZFirst | internal/auth/refresh_store.go:106-112 | ZRANGE 0 0 gives the one member with the lowest score, then the lowest id, and nothing only on an empty set |
| Redis.UnlistedScores | internal/auth/refresh_store.go:116 | ZREM removes exactly the given members of that user's set, also where Redis deletes the emptied key |
| Redis.KeyLivesIff | internal/auth/refresh_store.go:130-185 | A session key given a TTL is there d seconds later if and only if the TTL is positive and at least d |
| Redis.TimeTouchesOnlyDeadlines | internal/auth/refresh_store.go:130-185 | Time removes exactly the keys whose deadline it passes, and changes no other |
| Redis.WritesMoveVersions | internal/auth/refresh_store.go:157-192 | A command moves the version that a WATCH compares for exactly the keys it writes or deletes |
| Redis.SessionKeysAndUserKeysDiffer | internal/auth/refresh_store.go:68-74 | No session key is a user key, and different ids have different keys |
| RedisRefreshStore.Store.constructor | internal/auth/refresh_store.go:59-65 | A cap below 1 becomes 5 and an empty key prefix the default one |
| RedisRefreshStore.NewRedisRefreshSessionStore | internal/auth/refresh_store.go:55-66 | There is a store if and only if there is a client, with the defaults filled in |
| RedisRefreshStore.Store.Create | internal/auth/refresh_store.go:76-135 | Create checks, cleans up, evicts and commits as the function Created does; on an error nothing changes |
| RedisRefreshStore.CreatedIff | internal/auth/refresh_store.go:77-84 | A session is created if and only if no field is blank and its expiry lies ahead, and which error comes first |
| RedisRefreshStore.WithDefaultsSays | internal/auth/refresh_store.go:86-91 | Missing times are filled in, nothing that was given changes, and no session starts revoked |
| RedisRefreshStore.Store.EvictOldest | internal/auth/refresh_store.go:98-119 | The loop ends, with the size of the index as measure, and does what Evicted does |
| RedisRefreshStore.Store.CleanupExpired | internal/auth/refresh_store.go:231-248 | Purges exactly the members below the clock, in whatever order the reply lists them, and sends nothing if there are none |
| RedisRefreshStore.Store.QueueDeletions | internal/auth/refresh_store.go:241-245 | Executing the queue the loop builds is one purge of all the ids |
| RedisRefreshStore.Store.Commit | internal/auth/refresh_store.go:121-133 | The four queued commands are one transaction that stores and lists the session |
| RedisRefreshStore.Store.Rotate | internal/auth/refresh_store.go:148-193 | Alone on its key, Rotate is the atomic check-and-set, with its order of errors |
| RedisRefreshStore.Store.RevokeSession | internal/auth/refresh_store.go:195-208 | Revokes and unlists exactly that session of its own user, or reports the error of the read |
| RedisRefreshStore.Store.RevokeUserSessions | internal/auth/refresh_store.go:210-229 | Revokes and unlists exactly the sessions the user's index lists |
| RedisRefreshStore.Store.QueueRevocations | internal/auth/refresh_store.go:222-226 | Executing the queue the loop builds is one revocation of all the ids |
| RedisCreate.CreateKeepsHighestRanked | internal/auth/refresh_store.go:93-134 | From any starting size, Create keeps exactly the max - 1 unexpired members of highest rank next to the new session; the others lose their hash too, and nothing else changes |
| RedisCreate.SurvivorsAreHighestRanked | internal/auth/refresh_store.go:93-119 | Cleanup and eviction together leave the max - 1 highest ranked by score and id among the unexpired |
| RedisCreate.EvictedKeepsHighest | internal/auth/refresh_store.go:98-119 | Eviction alone keeps the max - 1 highest ranked of whatever the index holds |
| RedisCreate.HighestRankedIsUnique | internal/auth/refresh_store.go:106-112 | Only one set of that size is highest ranked, so the two lemmas above determine the result |
| RedisCreate.CleanupDropsOnlyExpired | internal/auth/refresh_store.go:231-248 | While scores agree with the hashes, cleanup changes no session that has not expired, and keeps it listed |
| MemoryRefreshStore.Store.constructor | internal/auth/refresh_store_memory.go:10-23 | Starts empty; a cap below 1 becomes 5 |
| MemoryRefreshStore.Store.Create | internal/auth/refresh_store_memory.go:25-54 | The expired are dropped, one of the user's sessions of earliest expiry makes room if the cap is reached, and the new one is stored; on an error nothing changes |
| MemoryRefreshStore.Store.Rotate | internal/auth/refresh_store_memory.go:69-93 | The locked check-and-set, with its order of errors; on an error nothing changes |
| MemoryRefreshStore.Store.RevokeSession | internal/auth/refresh_store_memory.go:95-106 | Marks exactly that session, or reports that it is missing |
| MemoryRefreshStore.Store.RevokeUserSessions | internal/auth/refresh_store_memory.go:108-120 | Marks exactly the user's sessions, in any iteration order |
| MemoryRefreshStore.Store.CleanupExpired | internal/auth/refresh_store_memory.go:122-128 | Keeps exactly the sessions that have not expired |
| MemoryRefreshStore.Store.UserSessions | internal/auth/refresh_store_memory.go:130-138 | Lists each of the user's sessions once |
| MemoryRefreshStore.LookupIff | internal/auth/refresh_store_memory.go:56-67 | A session is found, as stored, if and only if it is there and its expiry is not before now |
| MemoryRefreshStore.RotatedIff | internal/auth/refresh_store_memory.go:69-93 | Which sessions can be rotated, the three fields that changes, and which error comes first |
| MemoryRefreshStore.MarkedSays | internal/auth/refresh_store_memory.go:95-120 | Marking sets the time of revocation of exactly the given sessions |
| MemoryRefreshStore.FirstIsOldest | internal/auth/refresh_store_memory.go:46-49 | The first entry after the sort expires no later than any other of the user |
| MemoryRefreshStore.CreateKeepsCap | internal/auth/refresh_store_memory.go:42-53 | Create keeps every user within the cap and every key equal to its entry's id |
| MemoryRefreshStore.RotateKeepsCap | internal/auth/refresh_store_memory.go:76-92 | So does Rotate |
| MemoryRefreshStore.MarkKeepsCap | internal/auth/refresh_store_memory.go:95-120 | So do both revocations |
| MemoryRefreshStore.CreateRemovesLittle | internal/auth/refresh_store_memory.go:42-53 | With a fresh id, Create removes only the expired and at most one more, of the same user, that expires first |
| RefreshRefinement.RedisRefinesMemory | internal/auth/refresh_store_memory.go:25-120 | Every sequence of answers the Redis store gives to logins, reads, refreshes, logouts, logouts everywhere and waits is one the map store can give, if every step is agreeable |
| RefreshRefinement.StepSim | internal/auth/refresh_store.go:76-229 | One agreeable operation keeps the simulation and gives the same outcome on both sides |
| RefreshRefinement.ReadSim | internal/auth/refresh_store_memory.go:56-67 | In simulated states Get finds the same on both sides, errors included |
| RefreshRefinement.EvictionSim | internal/auth/refresh_store_memory.go:44-50 | What the ranked eviction drops is one session of earliest expiry, as the map store may choose |
| RefreshDivergence.AgreesIff | internal/auth/refresh_store_memory.go:25-120 | From any simulated state the map store can answer as Redis does and go on agreeing if and only if the step is agreeable, which the state of Redis before it decides |
| RefreshDivergence.LoginDiverges | internal/auth/refresh_store_memory.go:44-53 | At a login that is not agreeable the map store drops a session, and Redis keeps every one it drops, as the next read of it shows |
| RefreshDivergence.RevokedCrowdsOutLive | internal/auth/refresh_store_memory.go:44-53 | If then one of the user's sessions expires before all revoked ones, the map store drops one that could still be refreshed |
| RefreshDivergence.RevokedCountInMemoryOnly | internal/auth/refresh_store_memory.go:44-45 | Revoked sessions still count for the map store, and leave the Redis index |
| RefreshDivergence.LogoutAllDiverges | internal/auth/refresh_store.go:222-228 | LogoutAll turns a listed session that has expired into a hash that does not parse, where the map store finds nothing, and keeps the time of an earlier revocation, where the map store has the new one |
| RefreshDivergence.WaitDiverges | internal/auth/refresh_store.go:132 | After a wait that is not agreeable a LogoutAll marks a session in the map that it misses over Redis |
| RefreshDivergence.LoginAfterLogout | internal/auth/refresh_store_memory.go:44-53 | A run of four calls with a cap of one whose answers over Redis no run of the map store gives |
| RefreshDivergence.LogoutAllAfterExpiry | internal/auth/refresh_store.go:210-229 | A run of four calls on which a LogoutAll after an expiry makes the answers differ |
| RefreshCodec.DecodeInvertsEncode | internal/auth/refresh_store.go:250-286 | Parsing the strings of a hash gives what parsing its fields gives if and only if its numbers are int64s or a required one is missing; the only error is a malformed hash |
| RefreshCodec.WireNames | internal/auth/refresh_store.go:122-129 | Every field stands under its name, numbers in decimal, and nothing else is stored |
| RefreshCodec.DecodeIff | internal/auth/refresh_store.go:250-286 | Which hashes parse, whoever wrote them, and to what |
| RefreshCodec.EncodeWritten | internal/auth/refresh_store.go:179-183 | HSET on the strings is HSET on the fields |
| RefreshCodec.CreatedSessionReadsBack | internal/auth/refresh_store.go:122-129 | What Create writes reads back as the session, with times cut to the whole second |
| RefreshCodec.UpdatedSessionReadsBack | internal/auth/refresh_store.go:250-286 | Rotate changes three fields of what is read and a revocation one; a hash with only revoked_at does not parse |
| RefreshTokens.ParseInvertsBuild | internal/auth/service.go:230-244 | Every token that is built from a generated id parses to that id |
| RefreshTokens.ParsedIdIsBeforeFirstDot | internal/auth/service.go:238-244 | A token parses to an id if and only if, trimmed, it is the id, a dot and something more, with no dot in the id |
| RefreshTokens.EncodeInjective | internal/auth/service.go:246-252 | Different random bytes of one length never print alike (base64 of section 5 of RFC 4648, unpadded) |
| RefreshTokens.EncodedShape | internal/auth/service.go:246-252 | The print is in the alphabet without a dot, and as long as unpadded base64 is |
| RefreshTokens.KnownPrints | internal/auth/service.go:246-252 | The test vectors of section 10 of RFC 4648 |
| RefreshTokens.TokensDiffer | internal/auth/service.go:205-236 | Tokens of different ids or secrets differ |
| SubmissionLimiter.Limiter.AllowSubmission | internal/streamers/service.go:232-256 | Admits as the window of the sender says, and leaves every other sender's window as it was |
| SubmissionLimiter.SlidingBound | internal/streamers/service.go:232-256 | In any closed interval of length L one key is admitted at most 3 * (floor(L / (W + 1)) + 1) times, and twice more if W + 1 does not divide L |
| SubmissionLimiter.BoundIsReached | internal/streamers/service.go:232-256 | For every L there are calls that reach this bound |
| SubmissionLimiter.RejectionIsJustified | internal/streamers/service.go:249-252 | Each rejection has three admissions of the same key within the window before it |
| SubmissionLimiter.KeysAreIndependent | internal/streamers/service.go:236-245 | Leaving out the calls of other keys changes nothing for a key |
| SubmissionLimiter.KeysAreSenders | internal/streamers/service.go:236-239 | Two users share a window if and only if their trimmed ids are equal or both are blank or "anonymous" |
| SubmissionLimiter.UserIsBounded | internal/streamers/service.go:232-256 | The bound for sequences of users and times |
| SubmissionLimiter.RefusalIsOwnFault | internal/streamers/service.go:232-256 | A user is refused only after three grants to that same user within the window before |
| SubmissionLimiter.UsersAreIndependent | internal/streamers/service.go:232-256 | Leaving out what others submit changes nothing for a user |
| SubmissionLimiter.FiveInAMinute | internal/streamers/service.go:232-256 | So five admissions, and no more, fit in one minute |
| StreamerCatalogue.Catalogue.Submit | internal/streamers/service.go:105-141 | A blank name costs nothing, any other submission counts against the limit of its sender even if Twitch does not answer, and only one that passes all three adds a streamer |
| StreamerCatalogue.Catalogue.List | internal/streamers/service.go:71-103 | The page of the items that match, in their order, with Go's int64 arithmetic |
| StreamerCatalogue.FilteredIsTheMatches | internal/streamers/service.go:80-89 | What is filtered is exactly the matching items, each once, in the order of the catalogue |
| StreamerCatalogue.MatchesIff | internal/streamers/service.go:78-88 | An item matches if and only if the trimmed query stands anywhere in its username or display name and the status is its own, case aside; blank ones ask for nothing |
| StreamerCatalogue.PageIsRightIff | internal/streamers/service.go:91-102 | List gives the items that belong on the page if and only if the offset fits in an int64 or wraps past the list |
| StreamerCatalogue.OffsetsThatWrap | internal/streamers/service.go:92-101 | A page whose negative offset panics, and a page that shows page one again |
| StreamerCatalogue.FirstPagesArePrefix | internal/streamers/service.go:91-102 | The first n pages in a row are the first 20n items |
| StreamerCatalogue.PagesPartition | internal/streamers/service.go:91-102 | All pages in a row are the filtered catalogue, and every later page is empty |
| DecisionLog.Log.RecordLLMDecision | internal/streamers/service.go:143-184 | Alone, a call stores under a new id, at the end of its streamer's list, exactly the trimmed fields of the request, or reports the first thing wrong and changes nothing |
| DecisionLog.Log.ListLLMDecisions | internal/streamers/service.go:186-212 | The last min(limit, n) items, newest first; 20 if the limit is not positive |
| DecisionLog.IdsAreDistinct | internal/streamers/service.go:164-181 | However the two critical sections of calls interleave, no two stored items share an id |
| DecisionLog.StoredExactlyOnce | internal/streamers/service.go:164-183 | However they interleave, an item a call returned is stored in exactly one place |
| DecisionLog.NothingElseIsStored | internal/streamers/service.go:164-183 | Every stored item was returned by a call, and a call before its append has stored nothing |
| DecisionLog.ListsOnlyGrow | internal/streamers/service.go:179-181 | What is stored stays where it is |
| DecisionLog.OrderCanBreakIff | internal/streamers/service.go:164-181 | The pending calls can leave a list out of order if and only if they are two or more, or one with a number below a stored one, or the list is out of order already |
| DecisionLog.OrderUntilTwoArePending | internal/streamers/service.go:164-181 | Until two calls of one streamer are between their critical sections at once its list is in the order of the numbers; from then on it can be broken |
| DecisionLog.AppendsCanOvertake | internal/streamers/service.go:164-181 | For any two requests about one streamer a run that stores the second number before the first |
| DecisionLog.NewcomerBreaksTheOrder | internal/app/router.go:403-430 | A request that begins while another call of the streamer is under way can leave the list out of order |
| DecisionLog.SoloCall | internal/streamers/service.go:143-184 | The steps of one call with nothing in between do what the method does, refused calls included |
| MediaWorker.InMemoryLocker.TryLock | internal/media/store_memory.go:33-44 | Fails exactly while an entry of the key lies in the future, and otherwise sets a new deadline |
| MediaWorker.InMemoryLocker.Unlock | internal/media/store_memory.go:46-50 | Removes the entry of the key, whoever holds it |
| MediaWorker.InMemoryRunStore.CreateRun | internal/media/store_memory.go:15-18 | Numbers runs one by one |
| MediaWorker.RunIdsDiffer | internal/media/store_memory.go:15-18 | Two run ids are equal if and only if streamer and number are, underscores in the streamer id notwithstanding |
| MediaWorker.OnlyConfidenceIsRefused | internal/media/worker.go:117-123 | The log takes a worker's request unchanged if and only if the confidence is not below 0 or above 1; a NaN is neither |
| MediaWorker.Worker.constructor | internal/media/worker.go:67-83 | The TTL is positive; the minimal confidence is the configured one unless that is below 0 or above 1, so it lies in 0 to 1 or is NaN |
| MediaWorker.Worker.ProcessStreamer | internal/media/worker.go:85-124 | A call that gets the lock frees the key on every exit and records at most one decision, about that streamer and its new run, with the verdict JudgedIsVerdict describes; a call that does not get it changes nothing |
| MediaWorker.JudgedIsVerdict | internal/media/stage_a.go:14-24 | The verdict is uncertain below the minimal confidence, and otherwise cs_detected for exactly six spellings, not_cs for exactly four, and uncertain for the rest; a NaN on either side is not below |
| MediaLease.MutualExclusion | internal/media/worker.go:91-95 | If every holder of a streamer unlocks before its deadline, at most one worker is ever between TryLock and Unlock of it; workers of other streamers may be late |
| MediaLease.TryLockIsExact | internal/media/worker.go:91-95 | Then a call gets the lock if and only if nobody holds the streamer: no exit leaks it |
| MediaLease.DecisionsFollowRuns | internal/media/worker.go:97-123 | Then what workers recorded about a streamer is stored in the order of their runs, each once, and of its own numbers, whatever others write to the list |
| MediaLease.WorkersKeepTheOrder | internal/media/worker.go:97-123 | So a list that only workers wrote to is in the order of its numbers |
| MediaLease.OrderUntilAPostMeetsACall | internal/app/router.go:403-430 | While leases are timely a list is in order until a call that takes no lease and another one are between their critical sections at once, and can be broken if and only if two such are |
| MediaLease.AnyPostCanBreakTheOrder | internal/app/router.go:403-430 | From any timely state in which a worker has called the log, a POST about its streamer can leave the list out of order on a timely run |
| MediaLease.WorkerAndPostBreakTheOrder | internal/app/router.go:403-430 | A timely run of one worker and one POST that does |
| MediaLease.NoWorkerIsStuck | internal/media/worker.go:97-123 | On any run, timely or not, a worker that has classified can record, and one that records can go on |
| MediaLease.SecondWorkerGetsInIff | internal/media/store_memory.go:37-43 | When time passes, a second worker gets in if and only if the deadline of the holder has come |
| MediaLease.LateUnlockFreesAnothersLock | internal/media/store_memory.go:46-50 | A run on which a late Unlock lets two workers in that are both in time |
| MediaLease.SoloCall | internal/media/worker.go:85-124 | The steps of an uninterrupted call that gets the lock do what ProcessStreamer does to locks, runs and log, whichever way the call ends |
| Prompts.Service.Create | internal/prompts/service.go:40-70 | Appends the next version of the stage under the next id, or reports the first invalid field and changes nothing; keeps the invariant |
| Prompts.FirstFault | internal/prompts/model.go:71-104 | Each of the ten errors is reported if and only if it applies and none before it does, NaN being in range |
| Prompts.CreatedSays | internal/prompts/service.go:47-69 | The new version carries the trimmed fields of the request under the next id and number, inactive |
| Prompts.ActivatedSays | internal/prompts/service.go:72-97 | The version becomes active with actor and time, the others of its stage only lose their flag, and other stages stay |
| Prompts.ListingSays | internal/prompts/service.go:23-38 | Stages in alphabetical order, each from newest to oldest, and every version there is |
| Prompts.Service.Activate | internal/prompts/service.go:72-100 | In whatever order the stages are tried, flags the version with the id and unflags the rest of its stage; keeps the invariant |
| Prompts.Service.List | internal/prompts/service.go:23-38 | In whatever order the map is walked, the stages in alphabetical order, each from newest to oldest |
| Prompts.Service.IndexOf | internal/prompts/service.go:77-83 | The first version with the id, or -1 if there is none |
| Prompts.Service.Flag | internal/prompts/service.go:88-94 | Exactly the chosen version is active, with who and when; the others only lose their flag |
| Prompts.AlwaysValid | internal/prompts/service.go:48-97 | After any run each stage holds versions 1 to n in order with at most one active, ids differ, and the counter is the number of versions |
| Prompts.IdsAreOneToCounter | internal/prompts/service.go:49-53 | After any run a number is in use as an id if and only if it is between 1 and the counter, and every id is such a number |
| Prompts.LocateLocates | internal/prompts/service.go:76-86 | An id is found at its one place in one stage, if it is anywhere |
| Prompts.ActiveIsLastActivated | internal/prompts/service.go:72-97 | After any run the active version of a stage is the one activated last |
| Prompts.ActiveStays | internal/prompts/service.go:88-95 | Once a stage has an active version it always has exactly one |
| Prompts.HistoryIsKept | internal/prompts/service.go:40-100 | No step removes, reorders or rewrites a version; Activate changes only activation fields of one stage |
| Games.Service.List | internal/games/service.go:34-49 | Every stored game once, strictly ordered by creation time and id, in whatever order the map is walked |
| Games.Service.Create | internal/games/service.go:51-75 | Stores under the new id a game that says what the trimmed request says, with rules that are not blank kept in their order, or reports the first error and changes nothing; keeps the invariant |
| Games.Service.Update | internal/games/service.go:77-104 | Rewrites the game but not its id and creation time, or reports the first error and changes nothing; keeps the invariant |
| Games.Service.Delete | internal/games/service.go:106-117 | Removes exactly that game, or reports why not; keeps the invariant |
| Games.Service.SlugExists | internal/games/service.go:143-150 | True exactly if a game other than the excepted one has the slug |
| Games.Service.SanitizeUpsert | internal/games/service.go:119-141 | The loop drops blank rules and trims the others; the errors come in the source's order |
| Games.AlwaysValid | internal/games/service.go:51-117 | After any run slugs are pairwise distinct, keys are ids, and every stored game is a fixed point of sanitising |
| Games.SanitizingIsIdempotent | internal/games/service.go:119-141 | Sanitising what is sanitised changes nothing |
| Games.UpdateWithItself | internal/games/service.go:77-104 | Sending a game back as it is stored succeeds and changes only the time of the update |
| Games.OthersStay | internal/games/service.go:51-117 | A step changes at most the game it names, and never an id or a creation time |
| Games.ListingIsUnique | internal/games/service.go:42-47 | Only one list of the stored games is strictly ordered so |
| TelegramData.BuildDataCheckString | internal/auth/telegram.go:97-112 | In whatever order the map is walked, the lines of all keys but hash in the order of the keys |
| TelegramData.HashIsIgnored | internal/auth/telegram.go:99-103 | Maps that differ at most in their hash have one and the same string |
| TelegramData.RecoveredIff | internal/auth/telegram.go:97-112 | Splitting at line breaks and the first = gives the signed values back if and only if every key has a single value and neither holds a separator |
| TelegramData.PlainStringsDiffer | internal/auth/telegram.go:97-112 | Among such values two maps have the same string if and only if they agree but for the hash |
| TelegramData.SameStringForDifferentValues | internal/auth/telegram.go:108-111 | Outside them two different maps can have the same string |
| TelegramData.VerifyInitData | internal/auth/telegram.go:44-95 | The first guard that fails gives the error; data are too old if and only if their age in plain integers exceeds a positive maximum that is not the greatest int64; the signature decides on the canonical string, whatever the map order |
| TelegramData.DecodeHexIff | internal/auth/telegram.go:114-126 | A hash decodes if and only if it is pairs of hexadecimal digits, the high one first |
| TelegramData.OneHashOneMessage | internal/auth/telegram.go:74-76 | With an injective code, all plain values accepted with one hash carry the same data, user and date |
| Text.DecimalRoundTrip | internal/auth/refresh_store.go:250-266 | Printing an integer in decimal and parsing it as an int64 gives it back, exactly if it fits |
| Text.TrimSpaceIff | internal/streamers/service.go:144-158 | Trimming gives the one string without a space at either end that has nothing but spaces around it |
| Basics.LessIff | internal/games/service.go:42-47 | One string comes before another if and only if it ends first, or has the smaller character where they first differ |

## Left out

- RefreshTheorems.IndexAgreement: scores are integers; the float64 scores of the source lose precision beyond 2^53 seconds, which no expiry reaches.
- RedisRefreshStore.Store.Create: one clock in whole seconds for the service and Redis, so the sub-second part of a TTL, clock skew between hosts and the repeated readings of the time within one call do not appear.
- RefreshRefinement.RedisRefinesMemory: ids are fresh, expiries are at whole seconds, and calls come one after the other; the rejection of a blank user id by LogoutAll of the service is the same over both stores and not modelled.
- MediaWorker.Worker.ProcessStreamer: the capture, the classifier and a failing run store are answers given to the method; the method form has nobody in between, which `MediaLease` adds.
- TelegramData.VerifyInitData: url.ParseQuery, HMAC-SHA256 and the JSON of the user are parameters; the message code is only assumed injective where a lemma says so, and auth dates beyond Go's range of times are not wrapped.
- Games.Service.Create: the UUID is a parameter, required to be new and not blank.
- Network and Redis failures with a reply: a call may die at any step, but an EXEC whose reply is lost, retries by the client, replication and failover are not modelled.
- SHA-256, HMAC, JWT signing and random bytes: tokens stand for their hashes and are drawn fresh.
- Rounding of float64: confidences and temperatures are compared only, and are real numbers, infinities or NaN.
- Letter case beyond ASCII in ToLower, and strings that are not valid UTF-8: strings are sequences of code points.
- Counters are unbounded; the int64 counters of the source wrap after 2^63 calls.
- The errors of strconv are not told apart, and ParseInt takes no underscores, as in base 10.
- Aliasing of Go slices: the slices of versions, items and decisions are sequences; every list the source hands out is a copy.
- StreamerCatalogue.Catalogue.Submit: what Twitch says is given to the method; the append has its own lock, and nothing else of Submit is shared but the limiter.
- The Twitch validator, IsSupportedStatus, users, events, config, HTTP routing, middleware, Postgres and process wiring: single branches, plain filters or clients of systems that cannot be seen from here.
- Authenticate: a sequence of calls to VerifyInitData, the user store, the token issuer and createRefreshSession with no state of its own.
