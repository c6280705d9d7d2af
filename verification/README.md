# Verified model of a layer-4 load balancer

This project models the parts of the load balancer where concurrency, time and byte layout meet, and proves
what they guarantee in every run:

- **Backend selection** (`Rotation`, `Balancer`, `BalancerMachine` and the `Balancer*` theorem modules). `Balancer` has the
  objects, updated in place by one caller at a time. `BalancerMachine` is a transition system with one step per atomic
  operation: any number of connection tasks, the config watcher and the health checkers interleave freely, and `Backend`
  objects stay in the store after they leave the list. A run is any sequence of attempted actions; an action that is not
  enabled has no effect. `BalancerSolo` says what a call does that nothing interrupts, and `NextBackend` makes its choice.
- **Token bucket** (`TokenBucket`, `Gcra`, `Waiting`, `Limiter`): lazy refill, immediate and waiting acquisition.
- **Per-key limiters** (`RateLimiting`, `LimiterRegistry`).
- **Accepting connections** (`Accept`, `AcceptMachine`, `AcceptVerdict`): the loop of one acceptor, and a whole rule as a transition system
  in which any number of acceptors pass connections through the access-control list and the rate limiter on to
  connection tasks of `BalancerMachine`.
- **Rate-limited streams** (`Bandwidth`, `BandwidthLedger`, `BandwidthRuns`, `BandwidthOverrun`): the two poll methods over
  an arbitrary inner stream, and any number of stream directions sharing one bucket.
- **PROXY protocol v2 header** (`ProxyProtocol`): the writer, and a receiver that inverts it.

Modelling decisions:

- Counters and tickets are 64-bit words that wrap (`WORD` is 2^64): `fetch_add` always wraps, and `start_index + i` wraps
  because the release profile leaves overflow checks off (Cargo.toml:46-51).
- Atomic loads are taken as sequentially consistent. The counter/guard equality needs only atomic read-modify-write.
- Time and tokens are exact reals; `Instant::duration_since` saturates at zero. Clock readings, timer lateness and the inner
  stream's answers are parameters. A sleep may end late but never early.
- The rate of a limiter is at least 1 wherever a wait or the GCRA divides by it; both callers ensure it
  (src/traffic/limiter.rs:107, src/traffic/limiter.rs:149). Admission is proved for rate 0 too.
- The access-control list is an arbitrary predicate on addresses; health checks are arbitrary flag changes on objects that
  have been listed.
- Waiting has no bound in the source, so a wait runs through a given schedule of sleeps of any length, and "still waiting"
  is one of its results.
- Where bytes are compared with tokens, the hypothesis is `Covered`: every payment that came through after a wait found a
  buffer that needs no more than it paid for. `OverrunIffBufferGrew` shows that for every run this is exactly what is
  needed for no transfer to exceed its payment.

Properties that turn out not to hold, each with a run or input that breaks it and the exact condition under which it holds:

- The connection limit is not strict: `CeilingIsReached`, `LimitRespectedIff`.
- A call can miss an eligible backend when its probe index overflows: `MisalignedCallIsReached`, `ThreeBackendsCanFail`,
  `NeverMissesIffDivides`, `AlwaysFindsIffAligned`.
- A mixed-family PROXY header is one byte too long: `MixedFamilyLeaksOneByte`, `PayloadSurvivesIffSameFamily`.
- A transfer can move more bytes than were paid for it: `GrownBufferOverruns`, `OverrunIffBufferGrew`.
- All streams of a limiter together can move more than burst + rate x time: `UncoveredSizesOverrun`, `BoundIffCovering`.
- The connection gauge of an address can be wrong, even negative: `GaugeCanGoNegative`, `GaugeExactIff`.

Where code and documentation differ, the model follows the code: the comment at src/networking/proxy_protocol.rs:43-47
announces a LOCAL header, the code writes a PROXY command byte first; docs/LLD.md:153-157 has a refused stream return
`Pending` at once, the code first polls the payment it has just created; docs/LLD.md:86-89 has the acceptor select the
backend, the code selects in the spawned task.

## Model

| member | source | states |
|---|---|---|
| TokenBucket.ExactAdmission | src/traffic/limiter.rs:24-82 | after every run of requests at non-decreasing times, a request is refused if and only if some window since creation, ending now, would hand out more than burst + rate x length |
| TokenBucket.ContentIsMinimumSlack | src/traffic/limiter.rs:24-82 | the content after refill is the minimum over all windows since creation of what the rate still allows in them, and the minimum is attained |
| TokenBucket.WindowBound | src/traffic/limiter.rs:37-47 | no window of any run is ever overdrawn, also in the middle of the run |
| TokenBucket.AnyWindowBound | src/traffic/limiter.rs:37-47 | the same for windows that begin before the limiter was created |
| TokenBucket.RefillTokens | src/traffic/limiter.rs:72-81 | refill in closed form: old content plus accrual, capped at the burst, with the clock moved on |
| TokenBucket.RefillLater | src/traffic/limiter.rs:72-81 | refilling in two instalments equals refilling once |
| TokenBucket.CreationTimeIrrelevant | src/traffic/limiter.rs:25-34 | two full buckets created at different times before the first request hold the same at every later instant |
| Gcra.BucketIsGcra | docs/LLD.md:139 | after every run the bucket grants a request if and only if the virtual-scheduling GCRA finds it conforming |
| Gcra.ArrivalTimeIsFullInstant | src/traffic/limiter.rs:72-81 | at every instant after every run, the bucket will next be full at the GCRA's theoretical arrival time, or is full now if that time has passed |
| Waiting.WaitIsARun | src/traffic/limiter.rs:50-70 | a wait is a run of ordinary requests ending in the waiter's own; the waiter is served exactly if that one is granted |
| Waiting.NoEarlySuccess | src/traffic/limiter.rs:60-63 | whatever others do, a retry before the computed instant is refused |
| Waiting.LateFailureIsPaidFor | src/traffic/limiter.rs:60-68 | a retry at or after the computed instant succeeds, unless others were granted tokens meanwhile |
| Waiting.WaitIsExact | src/traffic/limiter.rs:60-63 | without competition the request becomes grantable exactly at the computed instant |
| Waiting.RetriesBoundedByCompetition | src/traffic/limiter.rs:50-70 | for n within the burst, failed retries number at most the tokens granted to others |
| Waiting.AboveBurstNeverReturns | src/traffic/limiter.rs:50-70 | for n above the burst no wait ever succeeds |
| Limiter.SimpleLimiter.constructor | src/traffic/limiter.rs:25-34 | a new limiter is full |
| Limiter.SimpleLimiter.RefillAt | src/traffic/limiter.rs:72-81 | the object's state becomes the refilled bucket |
| Limiter.SimpleLimiter.CheckN | src/traffic/limiter.rs:37-47 | one critical section is one acquisition of the bucket; the content stays within 0 and the burst |
| Limiter.SimpleLimiter.UntilNReady | src/traffic/limiter.rs:50-70 | the retry loop, with others served during the sleeps, ends in the state and with the result of the wait the theorems above are about |
| RateLimiting.ClientIsolation | src/traffic/limiter.rs:100-113 | in every interleaving of map entries and checks, a client is answered as by one bucket, full from the start, that sees only this client's ACL-admitted checks |
| RateLimiting.EachHasOwnBucket | src/traffic/limiter.rs:105-112 | each client's limiter is a full bucket run on its own checks only; unseen clients have none |
| RateLimiting.BurstThenRate | src/traffic/limiter.rs:105-112 | of a client's first checks, all at one instant, exactly the first burst pass, and the next passes exactly 1/requests_per_second later, configured zeros counting as one, whatever other clients do |
| RateLimiting.RateLimiter.Enter | src/traffic/limiter.rs:105-110 | lazy creation: a full limiter for a new client, nothing for a known one |
| RateLimiting.RateLimiter.Check | src/traffic/limiter.rs:100-113 | disabled: admits and changes nothing; enabled: an entry and a one-token check of this client's bucket, others untouched |
| LimiterRegistry.OneLimiterPerKey | src/traffic/limiter.rs:136-151 | with lookup and insert-if-absent as separate steps of any number of calls, two calls get the same object if and only if they asked for the same key |
| LimiterRegistry.AlwaysConsistent | src/traffic/limiter.rs:136-151 | in every reachable state the map is injective, agrees with everything ever returned, and holds every limiter ever made |
| LimiterRegistry.EveryCallReturns | src/traffic/limiter.rs:142-150 | however calls interleave, each has returned after at most two steps, with a limiter for the key it began with |
| LimiterRegistry.LimiterMap.GetOrCreate | src/traffic/limiter.rs:136-151 | the stored limiter, or a fresh full one with burst 65536 and the configured rate, or 1024 if that is more; other entries untouched |
| Accept.Handle | src/main.rs:180-189 | one connection at an acceptor: denied exactly if the list does not allow it, and then the limiter is untouched; otherwise one map entry and one check of the client's bucket |
| Accept.AcceptAll | src/main.rs:173-197 | over any sequence of connections at one acceptor, each is denied, rate-limited or spawned as the list and its own client's history entitle it to |
| Accept.CheckIsEntitlement | src/main.rs:186-189 | the check of one connection is the answer of the client's own bucket over its earlier ACL-admitted connections |
| AcceptMachine.EntitledIsSpawned | src/main.rs:186-207 | with any number of acceptors, tasks, reloads and health reports interleaved, a check is answered as by the client's own bucket, full from the start; if granted, exactly one new task is spawned, otherwise the balancer is untouched |
| AcceptVerdict.VerdictIsDue | src/main.rs:180-207 | in every run, a decided connection was denied exactly if the list does not allow the address it arrived with; otherwise it was spawned, as exactly one new task, if there is no rate limit or its client's own bucket granted it a token at that instant, and else turned away |
| AcceptVerdict.DecidedInThree | src/main.rs:180-207 | however everything interleaves, a connection is decided by the third operation of its acceptor at the latest |
| AcceptMachine.BalancerServesAdmitted | src/main.rs:180-207 | in every run of a rule the balancer is in a state of its own transition system, and works only for connections that the list allows and that were spawned |
| AcceptMachine.AccountedThroughout | src/main.rs:186-197 | in every run, the connections of a client spawned in a window number exactly the tokens its own bucket granted in it |
| AcceptMachine.ClientWindow | src/traffic/limiter.rs:105-110 | over all acceptors, at most burst + requests_per_second x length of a client's connections reach the balancer in any window, configured zeros counting as one |
| AcceptMachine.ClientLive | src/main.rs:186-207 | a client's open connections never exceed burst + requests_per_second x time since the start |
| Rotation.CoverageIffAligned | src/core/balancer.rs:117-122 | for each ticket and length, the probes visit every position exactly once if and only if the index does not overflow or the length divides 2^64; otherwise a named position is missed |
| Rotation.EveryTicketCoversIffDivides | src/core/balancer.rs:117-122 | all 64-bit tickets give full coverage if and only if the length divides 2^64 |
| Rotation.AlwaysFindsIffAligned | src/core/balancer.rs:120-161 | a call finds an eligible backend whenever there is one, whichever it is, if and only if it is aligned |
| Rotation.ThreeBackendsCanFail | src/core/balancer.rs:121 | the concrete failure: three backends, ticket 2^64 - 1, only the third eligible, none found; with ticket 2^32 - 1 it is found |
| Rotation.MisalignedCallCanFail | src/core/balancer.rs:120-161 | every misaligned call fails when its missed position is the only eligible one |
| Rotation.ProbingChoosesFirstInRotation | src/core/balancer.rs:117-161 | an aligned call picks the first eligible position counting up cyclically from its ticket, and none exactly if none is eligible, the empty list included |
| Rotation.FirstInRotationUnique | src/core/balancer.rs:117-161 | that choice is unique |
| Rotation.ExactShares | src/core/balancer.rs:117-158 | any lap of consecutive tickets picks an eligible position once plus once per ineligible position in the gap before it |
| Balancer.LoadBalancer.constructor | src/core/balancer.rs:24-50 | one distinct object per entry, healthy, idle, with the configured drain flag |
| Balancer.LoadBalancer.Scan | src/core/balancer.rs:120-161 | the probe loop takes the first backend in probing order that is open as the transition system has it; only its counter changes |
| Balancer.LoadBalancer.NextBackend | src/core/balancer.rs:109-162 | makes the choice of an uninterrupted call of the transition system; a guard is only on a backend that was undrained, healthy and below the limit; an aligned call takes the first such in rotation and returns None exactly if there is none; one ticket is taken unless the list is empty, the winner gains one connection and nothing else changes |
| Balancer.LoadBalancer.UpdateBackends | src/core/balancer.rs:52-85 | the list follows the configuration; known addresses keep object, counter and health; every other entry gets a fresh object of its own; drain flags as configured, the last entry of an address deciding |
| Balancer.LoadBalancer.SetBackendHealth | src/core/balancer.rs:88-107 | exactly the first listed backend with the address changes its flag |
| Balancer.ConnectionGuard.Drop | src/core/balancer.rs:171-177 | undoes one increment of its own counter, as a 64-bit word |
| Balancer.SelectThenDrop | src/core/balancer.rs:109-177 | selecting and dropping leaves every counter as it was |
| BalancerSolo.CallAlone | src/core/balancer.rs:109-162 | a call advanced without interruption takes one ticket, picks the first backend in probing order that is undrained, healthy and below the limit, and increments its counter; no backend picked, none changed; empty list, no ticket |
| BalancerAvailability.AlignedCallFinds | src/core/balancer.rs:120-161 | whatever else happens meanwhile, a call with an aligned ticket does not end without a backend if one in its list stays undrained, healthy and below the limit |
| BalancerAvailability.MisalignedCallMisses | src/core/balancer.rs:120-161 | from any state, a call about to probe with a misaligned ticket, with only the missed position open, ends without a backend though that one is open all along |
| BalancerMiss.MisalignedCallIsReached | src/core/balancer.rs:109-162 | for every list of addresses and every ticket misaligned for it, a new balancer with only the missed backend in service comes, call after call, to a call with that ticket, which misses it |
| BalancerMiss.NeverMissesIffDivides | src/core/balancer.rs:109-162 | over all runs of all balancers, no call on a list of a given length misses a backend that stays open if and only if the length divides 2^64 (or the limit is 0) |
| BalancerSafety.CounterEqualsGuards | src/core/balancer.rs:144-177 | in every reachable state, every object ever created has as many connections counted as live guards; a drop never underflows; no guards means zero |
| BalancerSafety.ConnectionLimit | src/core/balancer.rs:135-144 | with at most T calls between their first operation and their return, no counter ever exceeds limit + T - 1, and with limit 0 it stays 0; spawned connections that have not begun their call do not count |
| BalancerLimit.CeilingIsReached | src/core/balancer.rs:135-144 | for every limit and T some run with at most T calls in flight reaches exactly limit + T - 1 |
| BalancerLimit.LimitRespectedIff | src/core/balancer.rs:135-144 | for every 64-bit limit and every T, the limit holds in every run if and only if calls never overlap, or the limit is 0 or 2^64 - 1 |
| BalancerGauge.GaugeAgreement | src/core/balancer.rs:70-72 | in every run an address's gauge is its counted guards minus those alive when a reload last created an object for it |
| BalancerGauge.GaugeExactIff | src/core/balancer.rs:65-81 | the gauge of an address is exact in every state of a run if and only if no reload of the run creates an object for the address while guards on it are alive |
| BalancerGauge.GaugeCanGoNegative | src/core/balancer.rs:171-177 | the concrete failure: a connection open while its backend is removed and re-added leaves the gauge at -1 when it closes |
| BalancerQuiesce.LateGuardsBounded | src/core/balancer.rs:111-144 | while a backend stays draining, unhealthy or unlisted, the guards it gets number at most the calls already past that check, or holding an older list |
| BalancerQuiesce.DroppedForGood | src/core/balancer.rs:65-84 | an object that a reload dropped from the list is never listed again, whatever is reloaded later |
| BalancerQuiesce.Quiesced | src/core/balancer.rs:124-144 | in every run, once those calls are gone, a backend that stays draining or unhealthy, or was dropped from the list, gets no guard and its counter never rises again |
| BalancerQuiesce.CounterBounded | src/core/balancer.rs:124-144 | while those calls are under way its counter rises by at most their number |
| BalancerQuiesce.StragglersBoundConnections | src/core/balancer.rs:124-144 | its connections grow by at most the number of such calls |
| BalancerReload.PublishedList | src/core/balancer.rs:58-84 | whatever happens during a reload, the published list follows the configuration, with the drain flag of the last entry of each address; known addresses keep their object, new ones get one never listed, healthy and idle |
| BalancerReload.ReloadContinuity | src/main.rs:332-365 | over every sequence of reloads interleaved with anything, an address every published configuration mentions keeps its object |
| BalancerReload.HealthIsLastReport | src/core/balancer.rs:94-96 | over every run, an object is as healthy as the last report that reached it says, whatever reloads and connections do |
| BalancerRepeat.RepeatedReloadsLeaveNoTrace | src/core/balancer.rs:52-85 | over every run whose reloads all repeat the current address-unique configuration, interleaved with anything and cut anywhere, the balancer ends, up to the reload under way, as in the same run without reloads |
| BalancerRepeat.RepeatedReloadIsNoop | src/core/balancer.rs:52-85 | from every reachable state at rest, one such reload left undisturbed changes nothing at all |
| BalancerFairness.PicksByTicket | src/core/balancer.rs:117-158 | with list and flags fixed and no backend full, every finished call picked the first eligible position from its own ticket, whatever the interleaving |
| BalancerFairness.TicketsThroughout | src/core/balancer.rs:117 | every ticket handed out in such a run is served by exactly one call |
| BalancerFairness.FairShares | src/core/balancer.rs:117-158 | once a lap of consecutive tickets is served, each eligible position has been picked exactly 1 + gap times, whatever the interleaving |
| BalancerFairness.FairSharesAtRest | src/core/balancer.rs:117-158 | the same for every lap of tickets handed out, when no call is still probing |
| Bandwidth.ReadBuf.Append | src/traffic/bandwidth.rs:98-105 | the bytes read are appended in place and the filled part advanced over them |
| Bandwidth.RateLimitedStream.PollPermit | src/traffic/bandwidth.rs:50-57 | one poll of the pending payment is one attempt on the bucket, or none while it sleeps |
| Bandwidth.RateLimitedStream.PollRead | src/traffic/bandwidth.rs:40-122 | with a limiter: an error exactly if the inner stream was reached and failed; pending exactly if a payment is pending or the inner stream was reached and blocked; ready otherwise, with exactly the bytes the inner stream gave appended, or none if the buffer was full; unlimited streams pass through |
| Bandwidth.RateLimitedStream.PollWrite | src/traffic/bandwidth.rs:126-185 | the same answers for writes; what is sent is exactly the first bytes of the buffer, as many as are returned |
| BandwidthRuns.PollIsOneOrTwoEvents | src/traffic/bandwidth.rs:48-86 | a poll call is one attempt, or two when it starts a payment, so runs of attempts cover all interleavings of polls |
| BandwidthRuns.ChargeIsGrant | src/traffic/bandwidth.rs:70-86 | what a direction is charged is exactly what the bucket grants at that instant |
| BandwidthRuns.PermitsAreChunks | src/traffic/bandwidth.rs:65-78 | every pending payment is for 1 to 16384 bytes |
| BandwidthRuns.RequestsWithinBurst | src/traffic/limiter.rs:147-149 | every request to a bandwidth limiter is within its burst, so no stream waits hopelessly |
| BandwidthRuns.SleepIsExact | src/traffic/limiter.rs:60-68 | a refused payment sleeps until exactly the first instant at which, left alone, it would succeed |
| BandwidthRuns.SleepersWouldFail | src/traffic/bandwidth.rs:50-57 | in every run, a sleeping payment asked before its sleep ends would be refused |
| BandwidthRuns.PendingIsTried | src/traffic/bandwidth.rs:50-57 | in every run, a pending payment polled at any instant from the end of its sleep on, with the timer fired, is charged exactly if the bucket then holds its size, and is then no longer pending; otherwise it sleeps again; polled earlier nothing changes |
| BandwidthRuns.FreshIsTried | src/traffic/bandwidth.rs:58-86 | with nothing pending, an attempt asks for the buffer left or 16384, whichever is less: charged exactly if the bucket holds it, else that payment is pending; an empty buffer changes nothing |
| BandwidthRuns.UnbeatenComesThrough | src/traffic/limiter.rs:50-70 | a direction comes through at its first poll after its sleep, if no other direction was charged since it began |
| BandwidthRuns.LateRefusalWasBeaten | src/traffic/limiter.rs:50-70 | in every run, a payment refused when its sleep is over was beaten by a charge to another direction since its sleep began |
| BandwidthRuns.TokenLedger | src/traffic/bandwidth.rs:88-117 | tokens granted + bytes unpaid = bytes moved + unused parts of charges + charges whose inner stream blocked + charges whose inner stream failed + charges that found an empty buffer; unpaid is 0 if every payment after a wait covers its buffer |
| BandwidthRuns.AggregateBandwidth | src/traffic/bandwidth.rs:47-118 | for any number of streams on one bucket, bytes moved in every window are at most burst + rate x (length + duration of a poll call) |
| BandwidthRuns.ClientBandwidth | src/traffic/limiter.rs:136-151 | for a bandwidth limiter with charge and transfer at one instant: at most 65536 + configured rate (at least 1024) x length |
| BandwidthOverrun.OverrunIffBufferGrew | src/traffic/bandwidth.rs:88-117 | for the attempts of every run, no transfer can exceed its payment, however the inner streams answer, if and only if every payment that came through after a wait covers the buffer it found |
| BandwidthOverrun.BoundIffCovering | src/traffic/bandwidth.rs:65-96 | for a limiter of any rate: the window bound holds in every run in which payments of n may find r bytes of buffer, and all others cover theirs, if and only if n covers a chunk of r (or is 0, which no payment is) |
| BandwidthOverrun.UncoveredSizesOverrun | src/traffic/bandwidth.rs:65-96 | for every rate and every n and r otherwise: a run of whole poll calls from a new limiter that moves a chunk of r for n tokens and exceeds burst + rate x length |
| BandwidthOverrun.GrownBufferOverruns | src/traffic/bandwidth.rs:92-96 | the largest such growth: one token, 16384 bytes |
| ProxyProtocol.CreateV2Header | src/networking/proxy_protocol.rs:5-52 | the bytes written, as literals and field by field; for a same-family pair a receiver decodes them whatever follows |
| ProxyProtocol.RoundTrip | src/networking/proxy_protocol.rs:20-41 | decoding header ++ payload recovers both endpoints and exactly the payload |
| ProxyProtocol.UniquelyDecodable | src/networking/proxy_protocol.rs:9-52 | equal byte streams carry equal endpoints and payload, so no header is a proper prefix of another |
| ProxyProtocol.MixedFamilyLeaksOneByte | src/networking/proxy_protocol.rs:42-48 | a mixed-family pair yields 17 bytes that frame as a PROXY command with an empty body and leave one extra byte |
| ProxyProtocol.PayloadSurvivesIffSameFamily | src/networking/proxy.rs:61-65 | the payload survives framing if and only if the two families agree |

## Left out

- Cluster membership and gossip (src/cluster/mod.rs): the protocol lives in a library that is not part of this model.
- Sockets, TLS and `copy_bidirectional` (src/networking/proxy.rs, src/networking/tls.rs): library code; only the fact that the header precedes forwarded bytes is used.
- ACL parsing and matching (src/networking/acl.rs), configuration parsing and validation, logging, the metrics server and file watching: I/O or one-branch checks.
- Health probes (src/core/health.rs): network I/O; their verdicts are arbitrary events.
- The health-status gauge: it mirrors the flag writes.
- Floating-point rounding and timer granularity: tokens and times are exact.
- Weak memory orderings: loads are sequentially consistent.
- `ReadBuf` initialised-region bookkeeping and wakers.
- Starvation freedom of one waiter: the limiter has no queue and gives no such guarantee.
- Gauges shared by two rules of the same name: the machine has one balancer.
- IPv6 flow label and scope identifier: the header does not carry them.
- BandwidthRuns.AggregateBandwidth: assumes `Covered`, because without it the bound is false (`BoundIffCovering` says for which sizes).
- BandwidthRuns.ClientBandwidth: assumes `Covered` for the same reason.
- BalancerQuiesce.Quiesced: assumes that the guards on the backend fit a 64-bit word, because a wrapped counter can rise.
- AcceptMachine: the operations of connections are unordered between acceptors; that one acceptor finishes a connection before the next is in `Accept`.
