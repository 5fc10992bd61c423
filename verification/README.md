# A verified model of the worker's and the registry's stateful cores

The repository has two halves that guard each other: a Cloudflare worker
(`worker/src/index.ts`) that accepts, signs, limits and forgets requests, and an AO
registry process in Lua (`ao/registry/process.lua` with `ao/shared/auth.lua` and
`ao/shared/idempotency.lua`) that keeps releases, gateways and sites. This project
models the parts of both that keep state over many messages, and proves what they keep.

| file | what it models |
|---|---|
| `ReplayLocks.dfy` | replay protection with Durable Object locks: the lock object, the claim map of an isolate, and the protocol that any number of concurrent calls run, one step per `await` |
| `ReplayFallback.dfy` | the KV-only replay check inside one isolate, beside the cron janitor and `/forget` |
| `MemoryKv.dfy`, `Forget.dfy` | the KV store with expiry, and the `/forget` endpoint over it |
| `WorkerLimits.dfy`, `SubjectSpray.dfy`, `FixedWindow.dfy` | the KV-backed limiters, and what a fixed window admits |
| `Breaker.dfy` | the circuit breaker and the retry loop of `/notify` |
| `TextOrder.dfy`, `JsonText.dfy`, `StableStringify.dfy` | the text that is signed, against a parser for the JSON grammar of RFC 8259 |
| `LuaJson.dfy` | the registry's own JSON encoder over graphs of tables |
| `TtlStore.dfy`, `NonceGate.dfy`, `Idempotency.dfy`, `AtMostOnce.dfy` | nonces, cached responses, and the gates of `route` together |
| `AuthRate.dfy` | the registry's rate limiter |
| `Integrity.dfy`, `IntegrityRuns.dfy`, `IntegrityAnswers.dfy` | releases, revocation, policy and audit commitments; their runs; what each message does |
| `Gateways.dfy`, `GatewayAnswers.dfy` | the gateway directory and the choice of a gateway for a host; what each message does |
| `RuntimePointers.dfy`, `SiteRegistry.dfy` | runtime pointers, site registration and the repair on load |

Objects that the source changes in place are classes; each of their methods is proved to
compute a function (or, where a table's iteration order leaves a choice, to satisfy a
relation) of the old state, and the theorems are about runs of that function or relation.

## Assumptions

- A Durable Object runs `/claim` (read, compare, write), `/forget` and the read-then-delete
  of its alarm each as one atomic step.
- A remote effect takes place, if at all, before its caller learns the outcome or gives up;
  one that lands later is not modelled. (The janitor's delayed delete is.)
- KV is linearizable and an entry is visible exactly until its expiry has passed.
- There is one monotone clock in whole seconds; one message, attempt or call reads it once.
- Strings are sequences of units, order on them is the order of their units, numbers in
  JSON are known by their printed text, and -0 does not occur. Numbers in registry
  messages are reals or not numbers at all.
- Message fields that Lua would convert with `tostring` are text already. The outcomes of
  signature, token, device, role and schema checks are inputs.
- Limits and lifetimes in the environment are numbers and do not change during a run.

## Where the code promises less than it seems to

Each of these is a lemma with a concrete run or an exact condition.

- Replay locks: two successes for one key are a lock lifetime apart unless `/forget` cleared
  the key, but it is not enough that no `/forget` lies between the two claims. A `/forget`
  while a failing call is under way frees that call's lock early, and the call's own late
  clear then removes the lock of the next winner (`ForgetInsideFailureAdmitsTwo`). A clear
  that outlives its own lock does the same (`LateClearAdmitsTwo`). `EarlyReclaim` shows that
  nothing else does: a lock granted early goes back to a `/forget` between the two claims,
  or to a failed call that claimed before and cleared between them, whose own lock had been
  taken over early for one of these two reasons.
- KV fallback: the janitor takes an unfinished `claim:` marker for a malformed item, and its
  delayed delete can remove the winner's marker (`JanitorAdmitsTwo`). It decides to delete a
  key exactly if it reads an unfinished claim there (`DoomedExactly`), and if it never does,
  a key is admitted once per lifetime of its marker (`QuietJanitorAdmitsOnce`).
- At-most-once: the registry demands a `Request-Id`, a repeated nonce passes with an equal
  one, and so the nonce lifetime plays no part. What counts is that a response is cached
  until its message's timestamp stops being acceptable, and not less (`NeverRunsTwice`,
  `ShortCacheRunsTwice`); twice the clock skew is always enough, and once the skew for a
  timestamp that is not in the future (`ExecutionsAreClose`). An empty
  `Request-Id` passes every gate and is never cached (`EmptyRequestIdRunsTwice`), and neither
  is the response of a handler that raises an error (`RaisedRunsAgain`).
- Breaker: the cooldown never half-opens it. A refusal stores the state again, so requests
  that keep coming keep it shut (`BreakerStaysShut`).
- `/forget` of a subject can delete markers and leave their locks exactly if the subject is
  `replay` or begins with `replay:` (`MarkersWithoutLocks`), and replay keys are ambiguous
  if subjects contain `:` (`ReplayKeyCollision`).
- Spray guard: addresses contain `:` in IPv6, so one can be the beginning of another, and
  then its prefix covers markers it never counted (`SharedPrefixIsUncounted`); addresses
  without `:` keep apart (`ColonFreeApart`).
- Replay locks: a call that was granted its lock but never heard of it fails, and its key
  stays locked for the whole lifetime of that lock (`LostAnswerBlocks`).
- Repair on load: a site whose stored pointer is dropped takes up the pointer inside the
  site only at the next load, so one repair is not always enough
  (`RepairIsIdempotentExactly`).
- Signing: with a `|` in one of the six leading fields different commands share one text
  (`BarCollision`).
- `SetIntegrityPolicyPause` and `UpdateGatewayStatus` write before they have checked
  everything; `PauseErrorLeavesTrace` and `UpdateErrorLeavesTrace` say exactly when an error
  leaves a trace.
- The second sweep of the registry's rate pruning never removes anything
  (`SecondSweepIsIdle`).

## Model

| member | source | states |
|---|---|---|
| ReplayLocks.ReplayLockDurableObject.Claim | worker/src/index.ts:3321-3340 | a claim is granted exactly when no live lock stands, sets the expiry to now plus the clamped ttl, and otherwise changes nothing |
| ReplayLocks.ReplayLockDurableObject.Forget | worker/src/index.ts:3313-3316 | removes the lock |
| ReplayLocks.ReplayLockDurableObject.Alarm | worker/src/index.ts:3343-3349 | whatever it removes blocked no one from now on |
| ReplayLocks.ReplayClaims.Prune | worker/src/index.ts:450-454 | leaves exactly the claims that have not expired |
| ReplayLocks.ReplayClaims.ClaimReplayKey | worker/src/index.ts:456-464 | admits exactly the keys without an unexpired claim and records the claim for 1 to 15 seconds |
| ReplayLocks.StepKeepsInv | worker/src/index.ts:456-558 | every atomic step of every call, with lost answers, failing writes, alarms and forgets, keeps the protocol invariant |
| ReplayLocks.RunKeepsInv | worker/src/index.ts:456-558 | the invariant holds after every interleaving of steps |
| ReplayLocks.EarlyReclaim | worker/src/index.ts:466-558 | a lock granted again before it ran out is explained by a /forget between the two claims, or by a failed call that claimed before the first and cleared between them and whose own lock the first claim took early, explained in the same way |
| ReplayLocks.WinsAreSeparated | worker/src/index.ts:510-558 | in every interleaving two successes for a key are a full lock lifetime apart in claim time, or the second claim is explained in that way, back to a /forget, provided compensating clears come before their own lock expires |
| ReplayLocks.ExplainedByForget | worker/src/index.ts:466-531 | every such explanation ends in a /forget of the key before the second claim |
| ReplayLocks.WithoutForgetOneWinner | worker/src/index.ts:510-558 | without a /forget of the key nothing admits a second winner within min(ttl, 86400) seconds, neither alarm nor claim map nor lost answers |
| ReplayLocks.RunKeepsClaimsOwned | worker/src/index.ts:456-558 | over every interleaving, whatever key an isolate has claimed, one of its unfinished calls is at work on |
| ReplayLocks.NextCallWins | worker/src/index.ts:510-558 | in every reachable state a call that meets no fault, in an isolate without unfinished call for its key, succeeds exactly when no live lock stands, and leaves lock and marker behind; no finished call stands in its way |
| ReplayLocks.CallFinishes | worker/src/index.ts:556-558 | the whole call, finally block included, leaves the isolate idle and the key unclaimed |
| ReplayLocks.WinsAgainAfterForget | worker/src/index.ts:510-558 | a success, /forget, and the same request in the same isolate, however soon: the second succeeds as well |
| ReplayLocks.OverlapIsRefused | worker/src/index.ts:456-464 | while a call is younger than its claim, a second one for the key in its isolate fails without reaching the lock |
| ReplayLocks.LostAnswerBlocks | worker/src/index.ts:466-484 | a call that was granted the lock but never heard of it fails, and nobody else wins the key until that lock has run out |
| ReplayLocks.BusyTwice | worker/src/index.ts:497-531 | two busy marker writes leave the outcome to a third, which wins only if it stores the marker and else clears the lock |
| ReplayLocks.FailedCallFreesLock | worker/src/index.ts:517-531 | a call whose marker write fails ends with its lock and its claim given back |
| ReplayLocks.ForgetInsideFailureAdmitsTwo | worker/src/index.ts:517-531 | a run with two winners at one instant, every clear timely, although no /forget lies between their claims; the failed call around the first explains it |
| ReplayLocks.LateClearAdmitsTwo | worker/src/index.ts:486-531 | a run with two winners, without any /forget, because a compensating clear came too late |
| ReplayLocks.RunKeepsMarkers | worker/src/index.ts:497-508 | a winner's KV marker stays for the full ttl unless /forget erases it |
| ReplayLocks.LiveLockHasMarker | worker/src/index.ts:519-524 | whenever the lock of a finished winner is live, its marker is in KV for /forget to find |
| ReplayFallback.MoveKeepsInv | worker/src/index.ts:450-558 | every step of the KV-only path, of the janitor and of /forget keeps the invariant while all calls are prompt |
| ReplayFallback.FreeKeyIsAdmitted | worker/src/index.ts:533-558 | in every reachable state a call that meets no fault, for a key that no call is at work on and KV holds nothing for, succeeds and leaves the marker and no claim |
| ReplayFallback.TakenKeyIsRefused | worker/src/index.ts:535-538 | a call for a key that KV holds a marker or a claim for fails and writes nothing |
| ReplayFallback.BusyThrice | worker/src/index.ts:533-555 | busy answers start the check over twice; the third ends it |
| ReplayFallback.FallbackAdmitsOnce | worker/src/index.ts:533-558 | inside one isolate, if every call ends within its claim's lifetime, a key admits no second call before the first winner's marker expired or was deleted |
| ReplayFallback.JanitorAdmitsTwo | worker/src/index.ts:3376-3390 | a prompt run in which the janitor deletes the winner's marker and a second call wins |
| ReplayFallback.DoomedExactly | worker/src/index.ts:3376-3390 | over every history the janitor decides to delete a key exactly if it reads an unfinished claim there at some moment |
| ReplayFallback.QuietJanitorAdmitsOnce | worker/src/index.ts:533-558 | if all calls are prompt, /forget leaves the key alone and the janitor never reads an unfinished claim there, any two admissions of the key are separated by the expiry of the first marker |
| ReplayFallback.JanitorOff | worker/src/index.ts:3376-3390 | a history in which the janitor does not read the key meets that condition |
| ReplayFallback.SlowCallAdmitsTwo | worker/src/index.ts:533-558 | a run with two winners because one call outlived its claim; the ownership check does not stop it |
| Kv.MemoryKv.Get | worker/src/index.ts:172-183 | returns exactly what is visible now and drops the entry if it is dead |
| Kv.MemoryKv.Put | worker/src/index.ts:184-190 | stores the value with the expiry that the time to live gives, and touches nothing else |
| Kv.MemoryKv.Delete | worker/src/index.ts:191-193 | removes that key only |
| Kv.MemoryKv.List | worker/src/index.ts:194-209 | distinct visible keys with the prefix, at most the limit, all of them if fewer, and no visible entry changes |
| Forget.Worker.DeleteKeys | worker/src/index.ts:2986-2991 | removes exactly the listed keys |
| Forget.Worker.ForgetReplayLocks | worker/src/index.ts:2992-3009 | clears exactly the listed locks except those whose clear fails |
| Forget.Worker.Forget | worker/src/index.ts:2974-3033 | without overflow every visible key under both prefixes goes and nothing else; on overflow that many and nothing else; if markers index the locks and no clear fails, no live lock of the subject is left |
| Forget.ForgetReachesWinners | worker/src/index.ts:2974-3033 | after any run of requests, a /forget without overflow whose clears succeed removes marker and lock of every winner of the subject whose lock would still be live |
| Forget.MarkersWithoutLocks | worker/src/index.ts:2974-3009 | a /forget that does not overflow and whose clears succeed can take a replay marker away and leave its lock exactly for the subjects that are "replay" or begin with "replay:" |
| Forget.ReplayKeyExact | worker/src/index.ts:513 | replay keys tell subject and nonce apart as long as subjects have no colon |
| Forget.ReplayKeyCollision | worker/src/index.ts:513 | two different pairs of subject and nonce with one replay key |
| FixedWindow.AtMostTwice | worker/src/index.ts:347-379 | windows of one length that never overlap, each with at most max requests, admit at most 2*max in any stretch of that length |
| WorkerLimits.RateLimit | worker/src/index.ts:347-379 | up to three attempts with busy retries leave exactly the store and the answer of the attempt function |
| WorkerLimits.BusyIsRetried | worker/src/index.ts:355-378 | after two busy attempts the third one decides |
| WorkerLimits.ExpiryIsHarmless | worker/src/index.ts:358-372 | the KV entry outlives its reset, so reading through expiry and reading the bare counter agree |
| WorkerLimits.AddressPassesAtMostTwice | worker/src/index.ts:347-379 | in every run of sequential requests, whatever other addresses do and whichever KV operations fail, an address passes at most 2*max in any window's length |
| WorkerLimits.LimiterIsWindowCounter | worker/src/index.ts:358-372 | without KV faults every request is decided as by a plain window counter without a store |
| SubjectSpray.SubjectSprayGuard | worker/src/index.ts:408-434 | store and verdict are those of the guard function; known subjects pass uncounted |
| SubjectSpray.GuardDecidesExactly | worker/src/index.ts:408-434 | over every run the guard decides without a store: a subject that was new within the last window is known, any other is refused exactly while the streak of new subjects less than a window apart has reached the maximum |
| SubjectSpray.AtMostMaxNewSubjects | worker/src/index.ts:408-434 | over any run an address is allowed at most max new subjects in any window of that length, wherever it starts |
| SubjectSpray.CounterCoversMarkers | worker/src/index.ts:408-434 | the address's markers that expire later than now number at most the live counter, and the counter is at most max |
| SubjectSpray.ColonFreeApart | worker/src/index.ts:408-420 | addresses without a colon never write markers under each other's prefix |
| SubjectSpray.SharedPrefixIsUncounted | worker/src/index.ts:408-434 | a run in which the prefix of ::1 covers a marker of ::1:2 that its counter never counted |
| Breaker.FailuresFirst | worker/src/index.ts:3224-3255 | the number of leading HTTP failures among the first n answers |
| Breaker.Channel.BreakerState | worker/src/index.ts:3160-3172 | the stored state while visible, otherwise closed with count zero |
| Breaker.Channel.BreakerAllows | worker/src/index.ts:3174-3197 | allows exactly when not open and below the threshold; a refusal by count stores the state again, open for a cooldown |
| Breaker.Channel.BreakerNote | worker/src/index.ts:3199-3221 | success resets, failure counts and opens at the threshold |
| Breaker.Channel.SendWithRetry | worker/src/index.ts:3224-3255 | fetches until the first answer that is no HTTP failure, at most max(1, maxRetry) times, notes a failure exactly when all fail; the trailing throw is unreachable |
| Breaker.Channel.Deliver | worker/src/index.ts:3223-3299 | outcome, number of fetches and stored state of one delivery, with or without a configured channel |
| Breaker.DeliveryEndsExactly | worker/src/index.ts:3199-3255 | a delivery is settled by the first answer that is no HTTP failure within max(1, maxRetry) fetches and else given up; success clears the count, giving up adds one |
| Breaker.SuccessReopens | worker/src/index.ts:3199-3205 | a delivery that follows a success is never refused |
| Breaker.EpochsAreBounded | worker/src/index.ts:3160-3255 | between two successes or expiries at most threshold deliveries end in an HTTP failure, with at most threshold*max(1, maxRetry) fetches |
| Breaker.RefusedIffFull | worker/src/index.ts:3174-3197 | a delivery is refused, without any fetch, exactly while the live count is at the threshold, and open implies that |
| Breaker.OnlyExpiryReopens | worker/src/index.ts:3174-3197 | a tripped breaker lets a delivery through exactly once its state has expired |
| Breaker.BreakerStaysShut | worker/src/index.ts:3174-3197 | requests whose gaps never exceed the cooldown keep a tripped breaker shut for ever |
| Breaker.LastFailureTrips | worker/src/index.ts:3199-3221 | the failure that reaches the threshold leaves the breaker in the state that BreakerStaysShut starts from |
| TextOrder.LessExact | worker/src/index.ts:1815-1823 | the order of keys is the lexicographic one: a proper prefix, or the smaller unit at the first difference |
| JsonText.PrintRoundTrip | worker/src/index.ts:1815-1823 | parsing a printed value gives the value back and stops exactly at its end, for the worker's and for the registry's quoting |
| StableStringify.StringifyPrintsCanon | worker/src/index.ts:1815-1823 | stableStringify prints the value with its keys sorted |
| StableStringify.StableStringifyExact | worker/src/index.ts:1815-1823 | two signing texts, each followed by anything that may follow a value, are equal exactly when the values are equal up to key order and the rests are equal |
| StableStringify.StableStringifyParses | worker/src/index.ts:1815-1823 | a JSON parser reads the signing text back as the same value with sorted keys |
| StableStringify.DetachedMessageText | worker/src/index.ts:1825-1837 | the signed text is action, tenant, actor, time, nonce, role, payload and request id in this order, each under the first spelling that is not empty, with an empty object for a falsy payload |
| StableStringify.FullCommandText | worker/src/index.ts:1825-1837 | a command in its first spellings is signed field by field |
| StableStringify.DetachedMessageExact | worker/src/index.ts:1825-1837 | if the six leading fields have no bar, canonical messages are equal exactly when fields, payload up to key order and request id are equal, even with bars in payload or request id |
| StableStringify.BarCollision | worker/src/index.ts:1825-1837 | two commands with different fields and one canonical message, given a bar in the action |
| LuaJson.CheckArray | ao/registry/process.lua:2905-2927 | a table is an array exactly when its keys are 1 to its size, and the length is that size |
| LuaJson.FiveGsubsEscape | ao/registry/process.lua:2929-2937 | five successive replacements over the whole text escape every unit once |
| LuaJson.JsonQuote | ao/registry/process.lua:2929-2937 | the quoted text that the grammar of strings defines |
| LuaJson.SortedKeyList | ao/registry/process.lua:2973-2979 | the key texts in sorted order, whatever order the table is walked in |
| LuaJson.Encoder.Encode | ao/registry/process.lua:2939-2985 | ends on every finite graph of tables, cyclic ones included, restores seen, and prints the tree of the graph with every way back cut to __cycle__ |
| LuaJson.EncodedParses | ao/registry/process.lua:2939-2985 | a JSON parser reads the encoded text back as exactly that tree |
| LuaJson.NoCycleNoCut | ao/registry/process.lua:2960-2963 | in a graph without cycles nothing is cut, however tables are shared |
| LuaJson.AcyclicRoundTrip | ao/registry/process.lua:2939-2985 | on graphs without cycles parsing inverts encoding, up to empty table = empty array |
| TtlStore.EvictionNeedsCrowd | ao/shared/auth.lua:240-252 | an entry is evicted only if more than max insertions expire no earlier than it |
| NonceGate.Auth.PruneNonces | ao/shared/auth.lua:228-253 | drops what expired and then, above the maximum, one oldest entry, any of several equally old |
| NonceGate.Auth.LoadNonceDb | ao/shared/auth.lua:255-269 | fails exactly if the database is wanted, not open yet and cannot be opened |
| NonceGate.Auth.RequireNonce | ao/shared/auth.lua:299-341 | memory, database and answer after one call, for every choice the prunings have |
| NonceGate.UnusedNonceIsFresh | ao/shared/auth.lua:299-341 | in every run a nonce that nobody used within its lifetime is let in as new, unless the database is wanted and cannot be opened |
| NonceGate.MissingNonce | ao/shared/auth.lua:299-306 | without a nonce a call is refused exactly if one is required |
| NonceGate.MemoryIsBounded | ao/shared/auth.lua:228-341 | between calls the memory never exceeds NONCE_MAX, over every run with restarts |
| NonceGate.NonceIsRemembered | ao/shared/auth.lua:299-341 | through its lifetime an accepted nonce is refused to every other Request-Id and given back to its own, unless at least NONCE_MAX other nonces were accepted in the same second or later |
| NonceGate.CrowdAdmitsReplay | ao/shared/auth.lua:240-252 | a run in which one other nonce, with room for one, lets the first in again |
| NonceGate.DatabaseRefinesUnboundedMap | ao/shared/auth.lua:299-341 | with SQLite, memory and table decide every call as an unbounded map with lifetimes would, across restarts, except that a call which cannot open the database is refused |
| NonceGate.DatabaseNeverForgets | ao/shared/auth.lua:299-341 | with SQLite, refusal to other requests is unconditional through the lifetime |
| Idempotency.Idem.Prune | ao/shared/idempotency.lua:12-32 | drops what expired and then, above the maximum, one entry recorded first |
| Idempotency.Idem.Lookup | ao/shared/idempotency.lua:34-41 | prunes, then returns the cached response if there is one |
| Idempotency.Idem.Record | ao/shared/idempotency.lua:49-56 | prunes, then stores the response for its lifetime |
| AtMostOnce.Registry.Enforce | ao/shared/auth.lua:756-768 | nonce first, then timestamp; passes exactly if both do, and only the nonce gate changes state |
| AtMostOnce.Registry.Answer | ao/registry/process.lua:2864-2897 | a cached response is replayed; otherwise the handler runs, and its response is recorded unless it raised an error |
| AtMostOnce.Registry.Route | ao/registry/process.lua:2817-2903 | order of the gates: required tags, nonce, timestamp, the other checks, cache, handler |
| AtMostOnce.DeniedExactly | ao/registry/process.lua:2817-2860 | a message is denied exactly if it has no Request-Id, a check outside objects, or authorisation is needed and its nonce is refused or its timestamp missing or further off than the skew |
| AtMostOnce.OthersAreAnswered | ao/registry/process.lua:2862-2903 | every other message gets the cached response of its request and scope if there is one, and else what its handler ends with |
| AtMostOnce.GateIsAskedExactly | ao/registry/process.lua:2836-2847 | the nonce gate is asked, with the nonce and Request-Id of the message, exactly if authorisation is needed and nothing objected before; else it stays as it is |
| AtMostOnce.HonestIsAnswered | ao/registry/process.lua:2817-2903 | over every run a message that nothing outside objects to is answered if it needs no authorisation, or if its nonce is unused and its timestamp on time, unless the nonce database cannot be opened |
| AtMostOnce.ReplayIsRecorded | ao/registry/process.lua:2864-2903 | over every run a replayed response is word for word the one that an earlier execution of the same request in the same scope gave, within its lifetime |
| AtMostOnce.CachedIsNotRerun | ao/registry/process.lua:2864-2897 | within the lifetime of its response a request does not run again, unless as many other requests as the cache holds ran in the same second or later |
| AtMostOnce.ExecutionsAreClose | ao/shared/auth.lua:343-360 | the second execution of a message comes before its timestamp runs out, so within twice the clock skew of the first, or once if its timestamp was not in the future |
| AtMostOnce.NeverRunsTwice | ao/registry/process.lua:2817-2903 | absent count-based eviction an authenticated message with a Request-Id that was executed is never handled again, if its response lives until its timestamp stops being acceptable |
| AtMostOnce.NonceServesOneRequest | ao/shared/auth.lua:299-341 | a new nonce serves no other request for its lifetime |
| AtMostOnce.ShortCacheRunsTwice | ao/shared/idempotency.lua:49-56 | for every acceptable timestamp and every response lifetime that ends before it does, a run in which the message runs twice, however long nonces live |
| AtMostOnce.RaisedRunsAgain | ao/registry/process.lua:2893-2898 | a run in which a message whose handler raised an error is handled again at once, however long responses live |
| AtMostOnce.EmptyRequestIdRunsTwice | ao/registry/process.lua:2862-2878 | a run in which a message with an empty Request-Id runs twice in one second |
| AuthRate.SecondSweepIsIdle | ao/shared/auth.lua:538-545 | after the first sweep the second finds nothing |
| AuthRate.RateLimiter.PruneRate | ao/shared/auth.lua:531-570 | ends, leaves only running buckets, as many as there is room for, and evicts none that ends after one it keeps |
| AuthRate.RateLimiter.CheckRateLimit | ao/shared/auth.lua:585-640 | prunes, then counts for sender, site and caller in that order up to the first that is over its limit |
| AuthRate.LimiterIsPlainCounter | ao/shared/auth.lua:585-640 | over every run, as long as its buckets are not evicted, a request is refused, for its sender, its site or its caller, exactly by how many requests were counted before it in the windows that are running |
| AuthRate.BucketAdmitsAtMostTwice | ao/shared/auth.lua:531-640 | over every run a bucket that is never evicted admits at most 2*max in any stretch no longer than its window, even if senders, sites and callers share it |
| AuthRate.TableIsBounded | ao/shared/auth.lua:546-570 | after pruning at most RL_MAX_BUCKETS buckets are left, and at most three more after the request |
| Integrity.Handlers.GetActiveRelease | ao/registry/process.lua:1922-1950 | the active version's release, else the active root's release if the component fits |
| Integrity.Handlers.PublishTrustedRelease | ao/registry/process.lua:1952-2086 | new state and reply for every message, errors in the source's order |
| IntegrityAnswers.PublishAnswersExactly | ao/registry/process.lua:1952-2040 | exactly when a publication is faulty, known already, in conflict over version or root, or accepted |
| IntegrityAnswers.PublishDoesAsAsked | ao/registry/process.lua:2041-2086 | an accepted publication stores its release and root as they came and is activated exactly if it does not say no; what else changes and what does not |
| Integrity.Handlers.RevokeTrustedRelease | ao/registry/process.lua:2088-2173 | new state and reply for every message, with the pause if the active root is revoked |
| IntegrityAnswers.RevokeAnswersExactly | ao/registry/process.lua:2088-2144 | a revocation takes effect exactly if it names, by root or by version, a release that is not revoked yet |
| IntegrityAnswers.RevokeDoesAsAsked | ao/registry/process.lua:2145-2173 | it marks that release with time and reason, pauses the policy exactly if that is the active root, and changes nothing else |
| Integrity.Handlers.SetIntegrityPolicyPause | ao/registry/process.lua:2293-2377 | new state and reply for every message, early writes included |
| IntegrityAnswers.BoolExact | ao/registry/process.lua:1898-1920 | yes is true, 1 and the words 1, true and yes in any case; no their opposites; nothing else is either |
| IntegrityAnswers.PauseAcceptedExactly | ao/registry/process.lua:2293-2351 | a pause is set exactly if it says yes or no and reason, hash and age are in order |
| IntegrityAnswers.PauseDoesAsAsked | ao/registry/process.lua:2327-2377 | it pauses on yes and resumes on no, now, by the role of the message and for its reason, writes the hash and the age it brings, and leaves releases, roots, active versions, active root and audit alone |
| IntegrityAnswers.PauseIsShown | ao/registry/process.lua:2250-2291 | afterwards GetTrustedRoot and GetIntegritySnapshot show the same roots and release under the new policy |
| Integrity.Handlers.AppendIntegrityAuditCommitment | ao/registry/process.lua:2512-2597 | new state and reply for every message |
| IntegrityAnswers.AppendDoesAsAsked | ao/registry/process.lua:2512-2597 | in every reachable state a commitment is accepted exactly if its range is a non-empty range of whole numbers beyond the stored one and its texts are in order, and then stored as it came |
| Integrity.Handlers.GetTrustedRoot | ao/registry/process.lua:2250-2291 | the active release of a component unless there is none or it is revoked |
| IntegrityAnswers.TrustedRootIsLastActivated | ao/registry/process.lua:2250-2291 | over every run a component's root is that of the release last activated for it, whatever was activated for others, and there is none exactly if there is no such release or it is revoked |
| Integrity.Handlers.GetIntegritySnapshot | ao/registry/process.lua:2623-2681 | the active release as such unless there is none or it is revoked |
| IntegrityAnswers.SnapshotIsLastActivated | ao/registry/process.lua:2623-2681 | over every run the snapshot shows the release last activated of all, with policy and audit as stored, unless it is revoked |
| IntegrityRuns.ReleaseKeyExact | ao/registry/process.lua:1820-1841 | a release key determines component and version, even against unvalidated ones |
| IntegrityRuns.EffectKeepsInv | ao/registry/process.lua:2022-2072 | adding and revoking keep both indexes inverse and the active release in them |
| IntegrityRuns.RunKeepsInv | ao/registry/process.lua:1952-2377 | the invariant holds after every sequence of publications, revocations, pauses and appends |
| IntegrityRuns.IndexesAreInverse | ao/registry/process.lua:2041-2060 | in every reachable state a key has a root exactly when the root has that key |
| IntegrityRuns.PublicationsNeverChange | ao/registry/process.lua:2022-2060 | component, version, root, hashes and time of a published release never change |
| IntegrityRuns.RevocationIsPermanent | ao/registry/process.lua:2145-2161 | once revoked, a release's root is never again returned by GetTrustedRoot or GetIntegritySnapshot, under no component and after no further messages |
| IntegrityRuns.FallbackIsIdle | ao/registry/process.lua:1922-1950 | in every reachable state the fallback through the active root does not change the answer for a component |
| IntegrityRuns.ActiveIsLastActivated | ao/registry/process.lua:2062-2072 | the active release of a component is the one last activated for it, and the active release as such the last activated of all |
| IntegrityRuns.ActiveRootIsLastActivated | ao/registry/process.lua:2062-2072 | in every reachable state the active root of the policy is the root of the active release as such, and the root last activated of all |
| IntegrityRuns.NeverActivatedTwice | ao/registry/process.lua:2022-2040 | no release is ever activated twice, so an older one never becomes active again |
| IntegrityRuns.PublishedIsServed | ao/registry/process.lua:2041-2072 | after an activating publication GetTrustedRoot and GetIntegritySnapshot return exactly the fields of that message |
| IntegrityRuns.RevokedIsServedNoMore | ao/registry/process.lua:2145-2161 | revoking a component's active release takes its root away at once, and pauses the policy if it is the active root |
| IntegrityRuns.RunKeepsPolicy | ao/registry/process.lua:2062-2072 | over every run the policy is paused exactly while it has a time and a reason, and its age limit is a positive integer |
| IntegrityRuns.RevokedActiveIsPaused | ao/registry/process.lua:2153-2161 | without SetIntegrityPolicyPause the policy is paused for as long as the active root is a revoked one |
| IntegrityRuns.ErrorsChangeNothing | ao/registry/process.lua:1952-2173 | publishing, revoking and appending leave the state alone on errors and on repetitions |
| IntegrityRuns.PauseErrorLeavesTrace | ao/registry/process.lua:2327-2352 | an error of a pause changes the state exactly if a valid new policy hash came with a faulty age |
| IntegrityRuns.CommitmentsIncrease | ao/registry/process.lua:2538-2583 | accepted commitments are non-empty, disjoint, increasing ranges, and the stored state is the last of them |
| Gateways.ValidatedIsStable | ao/registry/process.lua:1034-1057 | a validated label validates to itself |
| GatewayAnswers.LabelText | ao/registry/process.lua:937-955 | a label is the text in lower case without the spaces around it and the dots at its end |
| GatewayAnswers.LabelAcceptedExactly | ao/registry/process.lua:1034-1057 | exactly the plain labels are accepted as hosts, and plain labels after "*." as domains too |
| Gateways.NormalizeGatewayDomains | ao/registry/process.lua:1103-1129 | first fault or the sorted labels without repetition |
| GatewayAnswers.DomainsExactly | ao/registry/process.lua:1103-1129 | a list of domains is accepted exactly if each one is, and stored as the labels of those given, sorted, each once |
| Gateways.NormalizedIsValid | ao/registry/process.lua:1103-1129 | the stored domains are sorted, distinct and valid |
| Gateways.WildcardExact | ao/registry/process.lua:1149-1159 | a wildcard matches the hosts below its suffix and not the suffix itself |
| Gateways.GatewayDirectory.RegisterGateway | ao/registry/process.lua:1161-1266 | new directory and reply for every message; a registered id is left alone |
| GatewayAnswers.RegisterAnswersExactly | ao/registry/process.lua:1161-1250 | a gateway is registered exactly if all fields are in order and its id is new |
| GatewayAnswers.RegisterDoesAsAsked | ao/registry/process.lua:1234-1266 | it is stored under its id as it came, status in lower case and domains normalised; no other changes |
| Gateways.GatewayDirectory.UpdateGatewayStatus | ao/registry/process.lua:1268-1352 | new directory and reply for every message, early writes included |
| GatewayAnswers.UpdateAnswersExactly | ao/registry/process.lua:1268-1352 | an update succeeds exactly if the gateway is known and the fields it brings, at least one, are in order |
| GatewayAnswers.UpdateDoesAsAsked | ao/registry/process.lua:1311-1352 | every field that the message brings is written, domains included, every other keeps its value, no other gateway changes |
| GatewayAnswers.UpdatedDomainResolves | ao/registry/process.lua:1338-1345 | a host that a domain of the update covers resolves afterwards, to a gateway with no lower score, if the gateway is online |
| GatewayAnswers.UpdatedAwayIsNotChosen | ao/registry/process.lua:1338-1345 | a gateway whose new domains do not cover a host is not chosen for it |
| Gateways.UpdateErrorLeavesTrace | ao/registry/process.lua:1311-1345 | an error of an update changes the directory exactly if a field before the first faulty one is present and different |
| Gateways.RunKeepsDirectory | ao/registry/process.lua:1161-1352 | over every run gateways stay filed under their ids with sorted valid domains |
| Gateways.GatewayDirectory.ResolveGatewayForHost | ao/registry/process.lua:1354-1417 | the online gateway with a matching domain that beats every other by score, capacity and id, or none if none is eligible |
| GatewayAnswers.ResolvesToTheBest | ao/registry/process.lua:1354-1417 | a host in order resolves exactly if some online gateway covers it, to the highest score, then the highest capacity, then the first id, through the first of its domains that covers the host |
| Gateways.ResolutionIsDetermined | ao/registry/process.lua:1380-1410 | the answer does not depend on the order in which the table is walked |
| Gateways.GatewayDirectory.ListGateways | ao/registry/process.lua:1419-1481 | exactly the gateways that pass the filters, by id |
| Gateways.ResolvesToListed | ao/registry/process.lua:1354-1481 | a host resolves exactly if the list of online gateways for it is not empty, and then to a member of it |
| Gateways.RegisteredResolves | ao/registry/process.lua:1234-1266 | registering an online gateway makes the hosts of its domains resolve, to a gateway with no lower score |
| Gateways.OfflineIsNeverChosen | ao/registry/process.lua:1311-1316 | a gateway that an update took offline is chosen for no host |
| RuntimePointers.NormalizedIsValid | ao/registry/process.lua:435-625 | what normalisation accepts is a pointer of canonical values with a process or template in it |
| RuntimePointers.NormalizeAcceptsExactly | ao/registry/process.lua:435-625 | normalisation accepts exactly the tables with allowed keys only, a process or template among them, and acceptable values under the first spelling present of each field |
| RuntimePointers.NormalizeReads | ao/registry/process.lua:339-347 | the pointer has exactly the fields present, each with the canonical form of its value under that spelling |
| RuntimePointers.DigestForms | ao/registry/process.lua:393-418 | a digest with sha256-, 0x or both before it is stored as the bare digits |
| RuntimePointers.ValidIsFixed | ao/registry/process.lua:435-625 | a valid pointer is a fixed point of normalisation |
| RuntimePointers.NormalizeIsIdempotent | ao/registry/process.lua:393-625 | normalising twice is normalising once, digest prefixes included, and a pointer from a message passes as stored |
| RuntimePointers.MergeIsValid | ao/registry/process.lua:723-737 | merging keeps validity, drops no pointer and takes the new values |
| RuntimePointers.ValidIsShown | ao/registry/process.lua:627-707 | a valid pointer is shown whole, because no canonical value is empty |
| RuntimePointers.MergedIsShown | ao/registry/process.lua:627-741 | whatever a normalised pointer is merged into, the snapshot is not nil and shows every field of it |
| SiteRegistry.Sites.UpsertSiteRuntime | ao/registry/process.lua:716-741 | the merged pointer with its time and its snapshot, or nil with the error and no change; the snapshot is nil only for a refused pointer |
| SiteRegistry.Sites.RegisterSite | ao/registry/process.lua:1483-1572 | new state and reply, with the pointer shown, for every message; all or nothing, because the error after the writes is unreachable |
| SiteRegistry.RegisterAnswersExactly | ao/registry/process.lua:1483-1553 | a faulty registration is refused, a known site left alone and shown, every other one carried out |
| SiteRegistry.RegisterDoesAsAsked | ao/registry/process.lua:1549-1572 | over every run a registration stores its configuration and time, makes its version active, and stores and shows its pointer with that time or none; all other sites stay as they are |
| SiteRegistry.Sites.SetSiteRuntime | ao/registry/process.lua:1574-1620 | new state and reply, with the pointer shown, for every message |
| SiteRegistry.SetAnswersExactly | ao/registry/process.lua:1574-1612 | a pointer is set exactly for a registered site and a pointer in order |
| SiteRegistry.SetLeavesOthers | ao/registry/process.lua:1608-1620 | setting a pointer leaves all other sites, their pointers and all versions alone |
| SiteRegistry.Sites.EnsureSiteRuntimeState | ao/registry/process.lua:743-790 | the repaired state for every stored state, whatever order the tables are walked in |
| SiteRegistry.RunKeepsState | ao/registry/process.lua:1483-1620 | over every run stored pointers are valid, timed, canonical and belong to registered sites |
| SiteRegistry.ReloadIsIdentity | ao/registry/process.lua:743-790 | on every state that messages can reach the repair on load changes nothing |
| SiteRegistry.RepairIsIdempotentExactly | ao/registry/process.lua:743-790 | on every stored state repairing twice is repairing once, except exactly if the repair drops the stored pointer of a site that still holds a good one itself |
| SiteRegistry.PointersAreNeverDropped | ao/registry/process.lua:716-741 | no message takes a pointer away from a site |
| SiteRegistry.SetIsShown | ao/registry/process.lua:709-741 | over every run, what readers and the reply show after a pointer was set is what was shown before with the fields of the new pointer and the new time put in |

## Left out

- ReplayLocks.WinsAreSeparated: says nothing about claims for one key that fall under different lock objects, because a lock object is named by its key.
- ReplayLocks.ReplayLockDurableObject.Claim: a fractional ttl in the request is not modelled; the worker sends whole seconds.
- Kv.MemoryKv.List: the cursor is not modelled, as `/forget` does not pass one, nor the order in which keys were inserted.
- LuaJson.Encoder.Encode: tables with two keys of one text (1 and "1") are excluded, because their order in the output is unspecified.
- WorkerLimits.RateLimit: the clock is read once for the read and the write of one attempt.
- SubjectSpray.CounterCoversMarkers: asks that no other address writes markers under this address's prefix, which can happen only with colons in addresses, and that KV writes succeed; a failing second write would leave a marker uncounted.
- WorkerLimits.AddressPassesAtMostTwice: requests of one address come one after the other; concurrent ones can read the same counter.
- AtMostOnce.NeverRunsTwice: a restart, which empties the cache, is not modelled.
- AtMostOnce.Registry.Route: the cached response is the recorded one; that it may share tables with live state is not modelled.
- Breaker.Channel.Deliver: one time stands for every read of the clock after the last answer.
- Integrity.Handlers.GetIntegritySnapshot: the authority record in the snapshot is left out.
- Integrity.Handlers.PublishTrustedRelease: unexpected fields are rejected before the model begins, and numbers that are infinite are not modelled.
- RuntimePointers.NormalizedIsValid: keys are known as spellings of a field; that the spellings in the source are distinct names is not modelled.
- SiteRegistry.Sites.EnsureSiteRuntimeState: sites, configurations and ids of a wrong type in the stored state, which are dropped or replaced, are not modelled.
- SiteRegistry.Sites.RegisterSite: schema and size checks of the configuration are an input.
- Gateways.GatewayDirectory.RegisterGateway: labels, ids and domains are units, other fields text; infinite scores are not modelled.
- The authority record of the integrity state: plain assignments after token checks.
- The reads by version and by root, the read of the policy, and domain binding: single look-ups.
- The switches around the replay check: a window of zero or less turns it off, and strong mode without lock objects refuses every call.
- The KV replay check across several isolates: the code does not give one winner there.
- Cryptography, transport to AO, routing, metrics, logs, inbox contents, file-backed rate state and the ingest process.
