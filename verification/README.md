# Verification of cextauthz

`cextauthz` is an Envoy Proxy-Wasm filter that asks an ext_authz service about each request and can
cache the answers in shared data, split over 16 shards that every worker reads and writes with
compare-and-swap. This project models the filter and its cache in Dafny 4.11 and proves, for every
schedule of any number of workers and for every sequence of host callbacks, what the cache and the
filter promise. `dafny verify dfyconfig.toml` checks all of it.

## How it is organised

| file | content |
|---|---|
| `Ordering.dfy`, `Ascii.dfy`, `Wrappers.dfy` | string order, sorting, case folding, trimming, number parsing and printing |
| `Cache.dfy` | entries, shards, expiry and quota; the class `CacheShard` updates a shard in place |
| `CacheKey.dfy`, `Config.dfy`, `RequestKeys.dfy` | what is hashed, which headers count, which shard a key lives in |
| `Decision.dfy`, `HeaderMap.dfy`, `Replay.dfy` | answers, header mutations, storing and replaying decisions |
| `SharedStore.dfy` | the host's shared data and the log of committed writes, used by the next two groups |
| `CacheClient.dfy` | the three retry loops as methods, with other workers' writes between any two host calls |
| `LogTheory.dfy`, `Protocol.dfy`, `ProtocolTheorems.dfy` | many workers at once as a state machine, its invariant, and the theorems about every schedule |
| `SerialRuns.dfy`, `SoloRuns.dfy`, `Freshness.dfy` | operations one at a time, without interference, and how long an answer keeps being found |
| `Filter.dfy`, `AuthzHttp.dfy` | one request's filter: the class whose methods are the callbacks, and the function they are proved against |
| `FilterTheorems.dfy`, `BodyReassembly.dfy` | the theorems about every sequence of callbacks |
| `Requests.dfy`, `Outcomes.dfy` | what a request is, read off the raw callbacks, and what comes of it, callback by callback, in those terms |
| `EndToEnd.dfy` | one request over any schedule of the cache: nothing is forwarded without a fresh authorization |
| `Fleet.dfy`, `FleetTheorems.dfy`, `LostPurge.dfy` | the composition: many requests on many workers over one cache, the theorems about every run, and the run that loses a purge |

The central device is the log of committed shard writes. `Ideal(log)` is one unbounded map that only
knows stores and purges; `IdealIff` characterises it without recursion. The invariant of the state
machine says that each write is atomic and timely, and from that alone follow refinement, placement,
capacity, no resurrection, and the exact reason of every miss.

`Fleet` puts the two halves together: its state holds every request's filter, the cache's state
machine and, per worker, the callback that waits for its cache operation. Which operation a callback
starts is read off what its filter records (`NeedOf`), so an answer enters the cache only through
`on_grpc_call_response` of some request, and a lookup only at the end of one's stream. `FleetKeeps`
shows that this machine's cache is always in a state of `Protocol` and each filter in the state that
`Filter` reaches on what it really read, so the theorems about both halves hold of the whole.

## Assumptions about the host

- Shared data: a write that names a version succeeds only if the shard still has that version or is
  absent; a write that names none always succeeds; versions are never reused.
- Request headers: for each name, compared without regard to case, an ordered list of values; adding
  appends, setting replaces them all by one value, removing deletes them all.
- Workers are identified by a number, and one worker runs one callback at a time. In `Fleet` any free
  worker may run a request's next callback; that a request stays on one worker is a special case.
- The clock may do anything. Theorems that need it not to run backwards say so (`monotone`).

## Where the code and its documentation differ

- The documentation says that a successful invalidation returns 204. The code also returns 204 when a
  purge has given up: `NoContentWithoutPurge` is such a run. A purge of a key gets through unless the
  shard was there when it was first read and others wrote it between each of the three reads and the
  write that follows, and exactly then it does not (`CacheClient.SharedData.PurgeCacheKey`).
- The documentation ties ignoring `x-request-id` to one header mode. In the code its value never
  reaches the key under any mode, even an allowlist that names it (`RequestIdNeverMatters`).
- Body bytes whose read returns nothing are never asked for again, so the checked body then has a gap
  (`FailedReadLeavesGap`); `BufferIsBodyIff` and `CheckedBodyIff` give the exact condition.
- Two first writers of a shard can lose a live entry (`FirstWritersCanLoseAnEntry`). `LiveMissIff` gives
  the exact condition for losing one: a store that found a full quota of entries outranking it, or a
  write for another key that named no version, over a shard that held the entry. Such a write read
  the shard before the first write to it (`WritesAreAtomic`), so without that race only the quota
  is left (`SerialMissIff`).
- A lookup reads the clock before it reads the shard, and in between a store may evict an entry that
  the lookup's clock has still alive (`LateReadCanMiss`); `AnswerIsFoundIff` is the exact condition.

## Model

| member | source | states |
|---|---|---|
| Cache.CacheShard.EnforceQuota | src/cache.rs:198-215 | repeatedly removing the minimum by (expiry, key), found in any iteration order, leaves exactly the entries outranked by fewer than `quota` others |
| Cache.CacheShard.MinKey | src/cache.rs:200-209 | the fold over the entries, in any order, finds the one entry that every other outranks |
| Cache.CacheShard.EvictExpired | src/cache.rs:192-196 | exactly the entries that expire after `now` remain |
| Cache.TopKUnique | src/cache.rs:198-215 | the kept set is the only upward closed set of min(n, quota) entries, so iteration order cannot matter |
| Cache.TopKSize | src/cache.rs:198-215 | min(n, quota) entries of the shard are kept |
| Cache.TopKUpwardClosed | src/cache.rs:198-215 | no removed entry outranks a kept one |
| Cache.TopKDropMin | src/cache.rs:198-215 | removing the minimum of an over-full shard does not change the final result |
| Cache.EvictIsInvisible | src/cache.rs:192-196 | eviction changes no lookup at that time or later |
| Cache.FreshSurvivesIff | src/lib.rs:471-493 | a stored entry survives its own store iff fewer than `quota` unexpired others outrank it |
| Cache.FreshLostOnlyToTies | src/lib.rs:464-493 | if nothing expires later, it is lost only to at least `quota` entries of the same expiry with larger keys |
| Cache.ShardQuotaIs | src/cache.rs:182-184 | the quota is the least positive number with which 16 shards hold `max_entries` |
| Cache.SaturatingAdd | src/lib.rs:464-466 | never more than the sum, and less only at the largest 64-bit number |
| CacheKey.FedAlikeIff | src/cache.rs:104-159 | two requests feed the hasher alike, whatever the map iteration orders, iff their fields and body fingerprints agree and their included lowercased headers are equal as multisets |
| CacheKey.FeedInjective | src/cache.rs:93-102 | what the hasher is fed determines the whole key input |
| CacheKey.PairsCount | src/cache.rs:116-127 | each (name, value) pair is collected as often as included headers yield it |
| CacheKey.ValueMattersIff | src/cache.rs:116-128 | changing a header's value changes what is hashed iff the policy includes its lowercased name |
| CacheKey.ComputeCacheKey | src/cache.rs:104-159 | the key is the printed hash of the one normal form, for every order in which the header map may be iterated, and of the empty input when there is no HTTP request |
| CacheKey.CollectHeaders | src/cache.rs:116-127 | the loop over the map yields the included, lowercased headers of some iteration order, each pair as often as included headers yield it |
| CacheKey.KeyPlacement | src/cache.rs:158-176 | for every u64 hash the printed key parses back to it and belongs to shard hash mod 16 |
| CacheKey.ShardIdWordIndependent | src/cache.rs:171-176 | truncation to a 32-bit `usize` never changes the shard, which is below 16 for every string |
| CacheKey.OtherKeysInShard0 | src/cache.rs:171-176 | a string that is not `cache:` and a hexadecimal 64-bit number belongs to shard 0 |
| Ascii.HexRoundTrip | src/cache.rs:158-173 | printing n hexadecimal digits and parsing them with overflow checks is the identity |
| Ascii.ParseUintIff | src/cache.rs:171-176 | a string parses iff it is digits after at most one `+` and their place-value number fits, and to that number |
| Ascii.TrimIs | src/config.rs:250-264 | trimming takes white space off both ends and leaves none there |
| Ordering.SortDecidesMultiset | src/cache.rs:128 | two lists sort alike iff they are equal as multisets |
| Ordering.StrLessIff | src/cache.rs:200-209 | one key precedes another iff it is a proper prefix or smaller at the first difference |
| Config.NormalizeHeaderNames | src/config.rs:250-264 | rejects iff some name is blank, else returns the strictly increasing list of exactly the trimmed lowercased names |
| Config.NormalFormUnique | src/config.rs:250-264 | two inputs normalise alike iff they have the same set of normal names, so order and repetition do not matter |
| Config.NormalFormIdempotent | src/config.rs:250-264 | normalising a normal form gives it back |
| Config.CacheHeaderPolicy | src/config.rs:236-264 | an accepted configuration includes a header, in any capitalisation, iff its raw mode and names select it; it is rejected iff a name is blank or the mode unknown |
| RequestKeys.RequestIdNeverMatters | src/lib.rs:258-268 | under every policy the values of `x-request-id` never change the filter's key |
| RequestKeys.HeaderMattersIffSelected | src/lib.rs:245-271 | from the client's header list to the hasher: adding, removing, repeating or changing headers of one name matters iff the configuration selects the name, it is not `x-request-id`, and the name's last value differs |
| RequestKeys.ConfiguredPolicy | src/config.rs:236-264 | the policy built from an accepted configuration is one for which the row above holds, by the raw mode and names alone |
| RequestKeys.LastHeaderWins | src/lib.rs:245-271 | of an ordinary name, in any capitalisation, only the last value is kept, wherever its headers stand in the list |
| Decision.DecisionShape | src/decision.rs:22-122 | only an OK answer allows; denials have a status in 100..599, a body and lowercase header names; every emitted removal passes the guard |
| Decision.DenialIs | src/decision.rs:23-48 | a denied or failed answer keeps its own status in 100..599 and becomes 403 otherwise, keeps its own body and gets `Forbidden` if it has none, and keeps its named headers in order |
| Decision.AllowMutations | src/decision.rs:51-63 | the loop and the extension build all removals followed by all additions; `HeaderMap.AllowedValues` says what the list does |
| HeaderMap.RequestHeaders.ApplyMutations | src/lib.rs:508-543 | the loop over host calls leaves the headers that folding the mutations describes |
| HeaderMap.AppliedNameByName | src/lib.rs:508-543 | the final values of a name are the fold of that name's mutations, in order, over its original values |
| HeaderMap.AllowRemovesFirst | src/decision.rs:51-63 | an allow decision clears the removable names it lists before any addition acts |
| HeaderMap.OneMoreOption | src/decision.rs:65-105 | for each kind of header option (no header, no key, empty value, append true or false, each action number): what one more of it does to the values of a name upstream |
| HeaderMap.AllowedValues | src/decision.rs:51-105 | an OK answer leaves of each name's values what its options, in order, make of those its removals left |
| HeaderMap.ProtectedNamesStay | src/lib.rs:533-540 | no mutation list takes away `host` or a name starting with a colon |
| Replay.ReplayEqualsLiveIff | src/lib.rs:364-386 | for every decision, replay from the cache equals the live effect iff it is not a denial with an empty body |
| Replay.AnswersReplayAsLive | src/lib.rs:164-208 | for every answer of the service a stored decision replays as the live one |
| Replay.MutationsRoundTrip | src/cache.rs:217-305 | converting mutations for storage and back drops and changes none |
| Replay.HeadersRoundTrip | src/lib.rs:637-642 | converting reply headers for storage and back is the identity |
| Replay.LocalReplyHeadersAre | src/lib.rs:651-667 | a local reply without a content type, in any capitalisation, gets `text/plain` in front; any other keeps its headers |
| CacheClient.SharedData.StoreCacheEntry | src/lib.rs:451-506 | under any foreign writes between host calls: one atomic write of this entry, evicting by a clock reading of its attempts, unless the shard was there when first read and others wrote it between each of the three reads and writes; exactly then nothing is written |
| CacheClient.SharedData.PurgeCacheKey | src/lib.rs:593-613 | one atomic removal, after which the shard lacks the key, unless all three attempts are beaten in that way; exactly then nothing is written |
| CacheClient.SharedData.PurgeAllCacheShards | src/lib.rs:615-634 | the caller writes each emptied shard once, in ascending order, and no other; a shard that stays was written by others between each of the three reads and writes, and one that was there at the start and beaten so does stay |
| CacheClient.SharedData.SetSharedData | src/lib.rs:499-504 | a write is accepted by the host rule, appends one log entry, and otherwise changes nothing |
| SharedStore.AcceptedSawCurrent | src/lib.rs:470-504 | an accepted versioned write read what the shard still holds; a refused one means another worker wrote the shard since the read |
| LogTheory.IdealIff | src/lib.rs:469-505 | the ideal map holds exactly the entries stored last and not purged since |
| LogTheory.ShardsRefineIdeal | src/lib.rs:469-505 | each shard fits its quota and agrees with the ideal map on every key it holds, all of which belong to it |
| LogTheory.MissingIffDropped | src/cache.rs:192-215 | an ideal entry is missing from its shard iff, since it was last stored, a store found a full quota of entries outranking it, a first write for another key replaced the shard that held it, or a store found it expired |
| LogTheory.LiveMissingIff | src/cache.rs:192-215 | if no write read a later clock, an ideal entry alive at that time is missing iff one of the first two happened: eviction is never the reason |
| LogTheory.NothingOutlivesPurge | src/lib.rs:593-634 | what a shard holds under a purged key was stored by a later write |
| Protocol.NextKeeps | src/lib.rs:437-634 | every step of every worker keeps the invariant of the protocol |
| Protocol.RunKeeps | src/lib.rs:437-634 | the invariant holds after every schedule |
| ProtocolTheorems.WritesAreAtomic | src/lib.rs:469-505 | every committed write is its transform of the shard's value at that moment, with no write between its read and its commit, or, when it named no version, of the empty shard, and then it read before the first write to the shard; and the shards are what the log says |
| ProtocolTheorems.CacheRefinesIdealMap | src/lib.rs:437-449 | in every reachable state every entry is the ideal map's, in its key's own shard, so a lookup finds the ideal entry or nothing |
| ProtocolTheorems.HitsAreIdeal | src/lib.rs:437-449 | every hit ever returned is the ideal map's answer when the shard was read |
| ProtocolTheorems.LiveMissIff | src/lib.rs:437-505 | without clock regression, a lookup of an entry that the ideal map holds alive misses iff, since it was last stored, a store found a full quota of entries outranking it or a first write for another key replaced a shard that held it |
| ProtocolTheorems.NoResurrection | src/lib.rs:593-634 | after a committed purge, what is found under the key was committed by a store after the purge, whenever that store read its snapshot |
| ProtocolTheorems.CapacityHolds | src/cache.rs:182-215 | in every reachable state each shard respects its quota, nothing lies outside the 16 shards, and together they hold at most max_entries + 15 |
| ProtocolTheorems.HitsReplayFreshAnswers | src/lib.rs:437-449 | every hit replays, with the live effect, a decoded answer given to the cache for the same key before and less than the TTL ago; `FleetTheorems.EveryForwardIsAuthorized` ties these answers to the requests sent |
| Freshness.AnswerIsFoundIff | src/lib.rs:437-506 | a lookup whose key was last stored from a given answer, and not purged since, finds it iff the lookup's clock is less than the TTL after the answer and before the end of time and no write since met the condition of a loss; what is found acts as the answer acted live |
| Freshness.FreshAnswerIsFound | src/lib.rs:437-506 | without clock regression, an answer whose TTL is not over when the shard is read is found iff neither the quota nor an overwriting first write has dropped it |
| Freshness.SerialAnswerIsFoundIff | src/lib.rs:437-506 | when operations run one at a time, it is found iff the lookup's own clock is within the TTL and no store has found a full quota of entries outranking it |
| Freshness.LateReadCanMiss | src/lib.rs:437-449 | a concrete schedule in which a lookup misses an answer still alive by its own clock, because a store evicts it before the shard is read |
| SoloRuns.UndisturbedStore | src/lib.rs:451-506 | from every reachable state, an answer stored without interference is committed, expires one TTL later, replays as it acts live, and is found iff fewer than a quota of unexpired entries outrank it |
| SoloRuns.UndisturbedPurgeKey | src/lib.rs:593-613 | from every reachable state, a purge of a key without interference removes that key and nothing else |
| SoloRuns.UndisturbedPurgeAll | src/lib.rs:615-634 | from every reachable state, a purge of everything without interference leaves no entry |
| SoloRuns.UndisturbedLookup | src/lib.rs:437-449 | a lookup finds an entry iff the shard holds an unexpired one under the key, and finds that one |
| ProtocolTheorems.GivingUpTakesThreeRivals | src/lib.rs:469-505 | giving up means at least three committed foreign writes to the shard during the attempts, and none of its own |
| ProtocolTheorems.RefusedIffOverwritten | src/lib.rs:499-504 | a write is refused iff it named a version and another worker committed to the shard between its read and its write |
| ProtocolTheorems.FirstWritersCanLoseAnEntry | src/lib.rs:469-505 | a concrete schedule in which two first writers lose a live entry |
| SerialRuns.SerialMissIff | src/cache.rs:192-215 | when operations run one at a time, a lookup of an entry that the ideal map holds alive at the lookup's clock reading misses iff a later store found a full quota of entries outranking it |
| SerialRuns.SerialStoreLostToTies | src/lib.rs:464-493 | in such runs a store loses its own entry only to a quota of same-expiry entries with larger keys |
| AuthzHttp.Instance.OnHttpRequestHeaders | src/lib.rs:237-295 | the headers callback moves the object's fields and effects as the filter function says, carries out on the shared data what it asks for, and returns `Continue` iff it forwarded the request or the request is an invalidation still awaiting its body |
| AuthzHttp.Instance.OnHttpRequestBody | src/lib.rs:297-326 | the body callback accumulates, rejects, checks or invalidates as the filter function says, and returns `Continue` iff it forwarded the request |
| AuthzHttp.Instance.OnGrpcCallResponse | src/lib.rs:140-233 | only the pending token is acted on, once: a decoded answer is stored in the shared data, in at most three attempts, and applied; anything else is a local reply and leaves the shared data alone; `Outcomes` says what the client sees |
| AuthzHttp.Instance.DispatchCheckRequest | src/lib.rs:344-428 | a check request is built and keyed, answered from the shared data or sent, and `Continue` is returned iff a hit forwarded it; `Outcomes.ChecksIff` says what it contains |
| AuthzHttp.Instance.HandleInvalidationRequest | src/lib.rs:545-591 | replies 401, 400 or 204, as `Outcomes.InvalidationAnswered` says; only in the last case it purges what the request names, and the shared data says whether the purge got through, which the reply does not |
| AuthzHttp.Instance.ReadHeaders | src/lib.rs:242-271 | the loop over the headers fills the fields; the last value of a name counts |
| AuthzHttp.Serve | src/lib.rs:115-136 | a new object, given any callbacks while others write the shared data before and during each of them, ends in the state the theorems are about, for what each callback found there |
| Filter.KeyIsWellDefined | src/lib.rs:360-362 | the key of a built request does not depend on the iteration order of its headers |
| FilterTheorems.ExactlyOneAction | src/lib.rs:140-428 | at most one gRPC call and one action ever; once the stream has ended, exactly one of: the call is unanswered, the action is taken |
| FilterTheorems.ForwardedOnlyIfAllowed | src/lib.rs:140-428 | the callback that forwarded a request, with exactly those header changes, brought a live OK answer to its call or found an unexpired allowed entry under its key |
| FilterTheorems.OnlyAnswersAreStored | src/lib.rs:144-233 | at most one store, asked for by a callback that brought a decoded answer with status 0 to the pending call, of its decision, under the key of the request that was sent |
| FilterTheorems.StepDelta | src/lib.rs:140-428 | what any single callback can do to the actions, stores and calls of any consistent state |
| EndToEnd.ForwardingIsAuthorized | src/lib.rs:140-449 | for any callbacks that read the cache at any points of one given schedule of all workers, a request is forwarded only on a live OK answer to its own call or on an OK answer that this schedule had brought to the cache, before that point, for the same key and less than the TTL ago, with exactly that answer's header changes |
| EndToEnd.CacheForwardIsAuthorized | src/lib.rs:359-373 | a cache hit that forwards rests on such an answer in every history that explains what was read, and acts as that answer acted live |
| Fleet.FleetKeeps | src/lib.rs:138-634 | many requests on many workers: a callback starts just the lookup, store or purge that its filter asks for, and the cache, every filter and the origin of every answer stay consistent in every run |
| Fleet.SaveAnswersCall | src/lib.rs:140-233 | an answer goes to the cache only from a callback that answers the request's own pending call, under the key of the request that was sent |
| FleetTheorems.NeedIff | src/lib.rs:138-634 | a callback starts a lookup iff it completes a request to be checked, a store iff it brings a decoded answer to the pending call, both with the cache on, and a purge iff it completes a request that may ask for it |
| FleetTheorems.EveryForwardIsAuthorized | src/lib.rs:138-634 | in every run of any number of requests and workers, a request is forwarded only on an OK answer: to its own gRPC call, or to the gRPC call of a request that was sent with the same key, received before the cache was read and less than the TTL ago |
| FleetTheorems.ForwardAfterPurgeIsNewer | src/lib.rs:593-634 | a request forwarded from the cache after a purge of its key was committed replays an entry that a store committed after the purge |
| FleetTheorems.FilterActsOnItsLookup | src/lib.rs:357-386 | what a worker's lookup finds is what the waiting request acts on: same key, clock reading and result |
| LostPurge.NoContentWithoutPurge | src/lib.rs:545-613 | a concrete run in which a purge gives up, its request is answered 204, and the key is still found in the cache |
| BodyReassembly.BufferIsBodyIff | src/lib.rs:297-326 | until hand-off the buffer is exactly the body seen so far, within the limit, iff no read of new bytes returned nothing |
| BodyReassembly.CheckedBodyIff | src/lib.rs:344-357 | the checked request carries its length and, under the same condition, exactly the body seen so far |
| BodyReassembly.WholeBodyIsChecked | src/request.rs:16-40 | if the last callback reports the whole body and no read failed, the whole body is checked |
| BodyReassembly.FailedReadLeavesGap | src/lib.rs:306-312 | a concrete request whose first byte could not be read and is missing from the body that is checked |
| Outcomes.PurgesIff | src/lib.rs:237-326 | a request asks for at most one purge, and for this one iff it was completed, within the limit, as a POST to the invalidation path, the last value of its secret header is the configured, non-empty secret, and its body asks for it |
| Outcomes.InvalidationAnswered | src/lib.rs:545-591 | a completed invalidation request gets 401 without the secret, 204 and its one purge when its body asks for one, and 400 otherwise; it is never checked |
| Outcomes.BadRequestSays | src/invalidation.rs:22-47 | which of the four complaints a 400 carries |
| Outcomes.TooLargeIsRejected | src/lib.rs:273-278 | the first declared length or body size over the limit gets a 413 at once, and nothing is checked |
| Outcomes.NothingYet | src/lib.rs:237-326 | until a request is completed or too large nothing is done |
| Outcomes.NothingElse | src/lib.rs:140-144 | after that only the answer to its pending call changes anything |
| Outcomes.ChecksIff | src/lib.rs:344-357 | a request is checked iff it was completed and is no invalidation, and what is checked is what the client sent: method, authority, scheme and identifier from the last header of that name, path and query split at the first `?`, the last value of each ordinary header, and the body |
| Outcomes.HitIsReplayed | src/lib.rs:359-386 | an unexpired entry under the request's key is acted on at once: forwarded with the stored changes to the client's headers, or denied with the stored reply; the service is not called |
| Outcomes.MissIsAsked | src/lib.rs:388-427 | without one the service is called with the checked request; 500 if it cannot be encoded, 503 if the call is refused |
| Outcomes.OkForwards | src/lib.rs:164-187 | an OK answer to the pending call forwards the client's headers as the answer changes them |
| Outcomes.DenialReplies | src/lib.rs:188-208 | a denied or failed answer gives the client its status, headers and body |
| Outcomes.FailureReplies | src/lib.rs:150-232 | a failed call gives 503, an empty or undecodable answer 500, one without a verdict 403 |
| Outcomes.AnswerIsStored | src/lib.rs:168-192 | with the cache on, a decoded answer to the pending call is stored under the key of the request that was sent |
| Outcomes.ForwardsIff | src/lib.rs:140-428 | a callback forwards a request iff it brings an OK answer to its own call or completes it while an unexpired allowed entry is held under its key |

## Left out

- Prost encoding: shards are stored as values; encoding failures of shards and data written by anyone but this filter are not modelled, so decoding inverts encoding and absent data is the empty shard.
- Serde JSON: the parser is an uninterpreted function; only the checks made on its result are modelled.
- `DefaultHasher`: both hashes are uninterpreted functions; no theorem assumes freedom from collisions.
- The library sorts are modelled by insertion sort; `Ordering.SortedUnique` shows that any sort gives the same list.
- Plug-in start-up, `AuthzRoot`, logging, `on_log`, the cluster name, service name and time-out of the gRPC call.
- Default values, range checks and error texts of the configuration other than the header names and mode.
- Passing on an invalidation request: its headers return `Continue` before its body has arrived, which is not counted as forwarding.
- Request trailers and other callbacks that the code does not define.
- The text form of the body and non-ASCII case folding.
- In `AuthzHttp` a callback reads the shared data as it is when the callback begins; writes by others between its clock reading and its read are covered by `Fleet`, where the two are separate steps.
- That a lookup's clock reading precedes its read of the shard is modelled; staleness is stated relative to that reading.
- Storing after a purge by a check that was already in flight is allowed by the code and by the theorems.
