# A verified model of BurrowGate

BurrowGate is a reverse proxy that challenges, authenticates and forwards web traffic, and that can run as a
cluster with automatic failover. This project models the parts of it with the most intricate behaviour and proves,
for all inputs, all runs or all reachable states, what they promise. `dafny verify dfyconfig.toml` checks it.

## What is modelled and proved

**Failover (`HaTiming`, `HaCluster`, `HaSafety`, `HaSplitBrain`, `HaPrimary`).** The election, heartbeat, fencing and
vote-persistence code as a timed state machine over any number of members. One event is one atomic step of one node;
loss, reordering, partitions, half-open sockets and messages under way for up to a transit time are the freedom of a
run to choose which events happen when.
`docs/HIGH_AVAILABILITY.md:230` says that the fixed timings guarantee that replicas cannot elect before the old primary
is fenced. The code does not give that guarantee. Only the candidate has to be disconnected for the election timeout,
a voter merely has to be disconnected at all (`src/services/ha-election-service.ts:212-214`); and a replica that has
voted may reconnect to an old primary that vote requests have raised to its term or above
(`src/services/ha-mesh-service.ts:2253-2278`). The model keeps the code as it is and adds four precautions as
parameters, all zero or off in `SourceRules`: a vote wait, a lock on primaries up to the vote's term, a lock for a time
after the vote, and a wait before changing primaries. An old primary is one that was elected in an earlier term; its
epoch does not count. The hold time is transit + liveness + fence: the longest time for which something a replica said
can keep a primary accepting writes. Proved, over all cluster sizes, all runs, all timings and all rules:
- at most one node wins a term (`OneWinnerPerTerm`);
- a node accepts writes only if a majority was heard less than liveness + fence ago (`WriterHeardMajority`);
- an old primary is always fenced before its replacement is elected **if and only if** candidates and voters have been
  disconnected for the hold time and a voter then acknowledges no primary but its candidate for longer than a
  campaign can last; the lock up to the vote's term makes no difference (`FenceBeforeElectionIff`);
- two nodes never accept writes together **if and only if** a replica that acknowledged one primary stays away from
  others for at least the hold time, and nobody stands for election within transit + fence; nothing that voters do
  makes a difference (`WritersExclusiveIff`);
- so, for every configuration `validateHaConfig` accepts and every transit time, the code's own rules give neither
  guarantee, voter-side precautions alone never give a single writer, and one election timeout taken for all three
  waits gives both exactly if it is at least the hold time, hence whenever messages travel no longer than the guard's
  scheduling margin (`GuardedConfiguration`).

(Without a fence time nothing is ever written, and both hold trivially.) The failing runs are given event by event, and
every vote request in them comes from a campaign. Nothing is written before the partitions, so all replication cursors
are equal and the cursor check of a vote does not matter. Assumptions: clocks run at one rate, a replica's messages
arrive within the transit time or not at all, a campaign takes no longer than its two fetches may, membership is fixed,
and roles change by election or adoption only.

**Proof of work (`Words`, `Bits`, `JsNumbers`, `Fips180`, `PowSha256`, `PowWorker`).** The worker's SHA-256 on JavaScript numbers
(signed results of bitwise operators, sums that a double holds exactly, one truncation at the end) and typed arrays
equals FIPS 180-4 on every message its 32-bit padding arithmetic can handle, and what the operations and constants of
the standard are is stated bit by bit and root by root; the leading-zero test is a bound on the digest as a number;
and the search over any number of 3000-step slices finds the least accepted nonce of its class, the classes
partitioning all nonces.

**The request pipeline (`Gateway`).** Every service is an oracle; only origin attempts throw. A run is its ordered trace
of steps, its status and the quarantine it leaves. Every run does exactly what an 18-rule first-match list and a
declarative description of forwarding say, and from that follow the laws on events, authentication, challenges, rate
limiting, failover and quarantine.

**Load balancing (`SmoothRoundRobin`, `LoadBalancer`).** Smooth weighted round-robin gives exact shares over a full turn and
keeps every origin close to its share at any time; IP affinity depends on the set of candidates only, not on their order;
selection never returns an excluded origin (the assumption the pipeline makes about replacements) and returns nothing
only when nothing is usable.

**Smaller cores.** Full period of the benchmark's generator (`Lcg`); unpadded base64url (`Base64Url`); generation-guarded
polling and stale replies under every interleaving (`LivePolling`), and the traffic table, whose replies can ask
again (`TrafficTable`); the tabbed template editor as a plain map, with the one case in which opening a tab changes a
template (`TemplateEditor`); search terms and header lines as parser/printer pairs with the exact condition for their
round trips (`SearchTerms`, `HeaderAssignments`); the map zoom (`GeoZoom`); escaping and bullet grouping (`ReleaseNotes`).

## Model

| member | source | states |
|---|---|---|
| HaTiming.ValidateHaConfig | src/config.ts:329-348 | a configuration is accepted iff nothing is wrong with it, the timing margin included; otherwise the first error present, in the order of the checks, is reported |
| HaSplitBrain.FenceBeforeElectionIff | docs/HIGH_AVAILABILITY.md:230 | over all sizes, runs, timings and rules, every primary elected in an earlier term is fenced whenever an election can be won, iff candidates and voters wait the hold time and votes are locked for longer than a campaign lasts |
| HaSplitBrain.WritersExclusiveIff | src/services/ha-election-service.ts:288-341 | over all sizes, runs, timings and rules, no two nodes accept writes at once iff a replica waits the hold time before acknowledging a different primary and the election base is at least transit + fence |
| HaSplitBrain.GuardedConfiguration | src/config.ts:340-347 | for every accepted configuration and transit time the code's rules give neither guarantee, no voting rule gives a single writer, nothing short of a timed vote lock fences before election, and the election base as all three waits gives both iff it is at least the hold time, which the guard's margin ensures |
| HaSplitBrain.TwoWriters | src/services/ha-mesh-service.ts:581-584 | a concrete run of three members in which the old and the elected primary both accept writes, for every vote wait below transit + fence and switch wait below the hold time, or every election base below transit + fence |
| HaSplitBrain.TwoWritersWhateverVotersDo | src/services/ha-election-service.ts:466-494 | a concrete run of five members in which voters lose the primary they elected, learn of the old one with its higher epoch from another member, and both accept writes, for every switch wait below the hold time and whatever the voting rules |
| HaSplitBrain.ElectedOverWriter | src/services/ha-election-service.ts:212-214 | a concrete run in which an election can be won while the old primary accepts writes, for every voter or candidate wait below the hold time |
| HaSplitBrain.ElectedAfterReturn | src/services/ha-mesh-service.ts:2253-2278 | a concrete run of five members in which voters reconnect to the old primary, let it clear its fence, and the election can still be won, however long they waited, unless the vote lock outlasts a campaign |
| HaSafety.OneWinnerPerTerm | src/db/repository.ts:5268-5291 | in every run, two victories in one term have the same winner |
| HaSafety.VotesStep | src/db/repository.ts:5259-5274 | every step keeps votes persistent, at most one per term and voter, and never ahead of the epochs |
| HaSafety.WriterHeardMajority | src/services/ha-write-barrier.ts:31-46 | in every run, a node accepts writes only if a majority was heard less than liveness + fence ago |
| HaSafety.ContactAlways | src/services/ha-mesh-service.ts:770-786 | in every run, what a primary heard was really sent and arrived within the transit time, an unfenced primary's confirmation is backed by a majority of it, and a campaigner or primary has spoken to nobody for the election base |
| HaSafety.RequestFences | src/services/ha-election-service.ts:216-234 | a vote request that a primary handles stops its writes and fences it at that term, from now on unless a fence of that term was up already |
| HaSafety.FenceHolds | src/services/ha-election-service.ts:319-325 | in every run, a fence that is up keeps the node from accepting writes for a liveness, whatever happens |
| HaSafety.AuthorityFenceHolds | src/services/ha-mesh-service.ts:874-890 | in every run, a primary that met a newer epoch accepts no writes until it adopts another primary or is elected |
| HaSafety.TickDecides | src/services/ha-election-service.ts:311-332 | a tick with a majority makes a primary accept writes iff its fence has served its time; one without never does, and raises the fence after a fence time |
| HaSafety.MessageEvents | src/services/ha-mesh-service.ts:949-957 | a message sent is under way, its arrival makes the sender count as live, a closed socket does not, and a stale or just booted primary accepts no writes |
| HaSafety.CampaignEvents | src/services/ha-election-service.ts:501-588 | a granted vote closes the term to other candidates, a learnt term closes older ones, and who restarts, adopts a primary, abandons or wins cannot win again |
| HaSafety.RequestsHandled | src/services/ha-election-service.ts:201-256 | a vote request is acted on iff its term is not older: by a primary, which fences itself, and by a disconnected replica that has not voted for another candidate of the term or later |
| HaSafety.MessagesTaken | src/services/ha-mesh-service.ts:949-1085 | only a primary takes replicas' messages, an announcement iff it does not list the sender, any other iff it does |
| HaSafety.MeetingAPrimary | src/services/ha-mesh-service.ts:2253-2278 | a replica that knows a newer epoch than its primary cannot connect to it but can tell it so; any other can connect under the code's rules |
| HaSafety.WritersExclusive | src/services/ha-election-service.ts:288-341 | with a switch wait of the hold time and an election base of at least transit + fence, two nodes that accept writes in one state are the same node |
| HaSafety.FencedWhenElected | src/services/ha-election-service.ts:530-588 | with waiting voters that stay with their candidate for longer than a campaign, no primary elected in an earlier term accepts writes when an election can be won |
| HaPrimary.PrimaryNode.constructor | src/services/ha-mesh-service.ts:495-507 | an election-capable primary boots fenced, with no connections and no quorum tracking |
| HaPrimary.PrimaryNode.TickPrimaryQuorum | src/services/ha-election-service.ts:288-341 | in an election-capable cluster the in-place tick leaves exactly the bookkeeping and connections of the cluster model's tick; otherwise tracking stops and the fence comes down exactly when failover is off, or the cluster is too small and nothing else is going on |
| HaPrimary.PrimaryNode.HandleVoteRequest | src/services/ha-election-service.ts:201-234 | a primary never grants; for its own or a newer term its fields become what the cluster model's event makes of them; with failover off or too few members nothing changes |
| HaPrimary.PrimaryNode.AdmitWrite | src/services/ha-write-barrier.ts:31-46 | a write is admitted iff it is nested in an admitted one, or the cluster model's node accepts writes and no promotion is under way; the first fence that is up names the error |
| JsNumbers.RotrIsRotation | public/pow-worker.js:9-9 | shift-and-or on possibly negative numbers is rotation of the 32-bit word |
| JsNumbers.BitwiseIsWordwise | public/pow-worker.js:25-36 | signed results of the bitwise operators stand for the bitwise result of the words |
| Bits.XorBit | public/pow-worker.js:25-36 | every bit of an exclusive or is the sum of the two bits modulo 2 |
| Bits.AndBit | public/pow-worker.js:32-36 | every bit of an and is set iff both bits are |
| Bits.OrBit | public/pow-worker.js:9-9 | every bit of an or is the larger of the two bits |
| Bits.NotBit | public/pow-worker.js:32-32 | every bit of a complement is the other one |
| Bits.RotateBit | public/pow-worker.js:9-9 | rotation moves every bit n places, cyclically |
| Fips180.ChooseAndMajority | public/pow-worker.js:32-36 | bit by bit, Ch chooses by its first argument and Maj takes the majority |
| Fips180.SigmaBits | public/pow-worker.js:25-35 | every bit of the four sigmas is the sum modulo 2 of the bits that the rotations and shifts of section 4.1.2 of FIPS 180-4 bring there |
| Fips180.InitialHashIsRoots | public/pow-worker.js:8-8 | the initial hash value is the first 32 fractional bits of the square roots of the first eight primes |
| Fips180.RoundConstantsAreRoots | public/pow-worker.js:1-7 | the round constants are the first 32 fractional bits of the cube roots of the first 64 primes |
| Fips180.PaddingReads | public/pow-worker.js:11-19 | a padded message reads back as the message, one set bit, zeros and the 64-bit length |
| PowSha256.PaddedLengthIs | public/pow-worker.js:13-13 | the shifted length is message, 0x80 byte, least zero fill and 8 length bytes |
| PowSha256.PadMessage | public/pow-worker.js:11-19 | the buffer filled in place is the padded message of section 5.1.1 of FIPS 180-4 |
| PowSha256.ExpandBlock | public/pow-worker.js:23-28 | the 64-word schedule filled in place is the one of section 6.2.2 of FIPS 180-4 |
| PowSha256.OneRound | public/pow-worker.js:31-44 | one loop body over words, with signed intermediates and sums that a double holds exactly, is one round of section 6.2.2 of FIPS 180-4 |
| PowSha256.Run64Rounds | public/pow-worker.js:29-45 | the loop over the eight working variables is the 64 rounds |
| PowSha256.Sha256 | public/pow-worker.js:10-59 | for every message below 2^31 - 72 bytes the result is its FIPS 180-4 digest |
| PowWorker.ZeroBitsIff | public/pow-worker.js:60-71 | a byte string has at least d leading zero bits iff its big-endian value is below 2^(8n - d) |
| PowWorker.LeadingZeroBits | public/pow-worker.js:60-71 | the loop's total is at least d iff the value is below 2^(8n - d), for every d up to 8n |
| PowWorker.SolvesIff | public/pow-worker.js:81-81 | a nonce is accepted iff the digest as a number is below 2^(256 - difficulty) |
| PowWorker.MessageReads | public/pow-worker.js:79-79 | a hashed text reads back as the seed, a colon and the decimal digits of the nonce |
| PowWorker.WordValue | public/pow-worker.js:57-57 | a hash word written as four bytes has its own value, the first byte counting most |
| PowWorker.Worker.RunSlice | public/pow-worker.js:77-89 | a slice reports the first accepted candidate with its index plus 1, or has rejected exactly 3000 more |
| PowWorker.Worker.Run | public/pow-worker.js:72-91 | over any number of slices the least accepted nonce of the class is reported, or every candidate so far was rejected |
| PowWorker.WorkersPartitionNonces | public/challenges/pow-sha256.js:61-69 | every nonce is the k-th candidate of exactly one worker, for exactly one k |
| Gateway.FirstApplicableIsFirst | src/index.ts:300-821 | the reference answers with the one rule that applies and has none before it |
| Gateway.NetworkExits | src/index.ts:300-485 | the site, network, bot and route exits are taken iff one of their rules is first, with its status, event and no other effect |
| Gateway.RequestExits | src/index.ts:486-603 | the limit, CORS, protection and AppSec exits likewise, with a ban exactly on a protection block with a match |
| Gateway.AuthenticationExits | src/index.ts:605-711 | the challenge and login exits are taken iff one of their rules is first; otherwise exactly the lookups due were made, in order, and the visitor's user and access status are the reference's |
| Gateway.Handle | src/index.ts:300-1068 | every run conforms to the rule list and the forwarding reference in its status, its whole ordered trace and its quarantine |
| Gateway.Forward | src/index.ts:823-1068 | an attempt with one failover answers with the last attempt, takes the reference's steps in order and leaves quarantine plus failed minus serving |
| Gateway.OneEventPerRun | src/index.ts:360-1068 | past the 421 and 308 exits exactly one event is recorded, as the last step and with the returned status |
| Gateway.ReachedMeansAuthenticated | src/index.ts:605-749 | a run that reaches the cache or an origin brings a token or a session with a user when access lists are on, and a session when the IP rule, CrowdSec or a route without an allow rule demands a challenge; each access status told to an origin has its cause |
| Gateway.ChallengedOnlyAfterLookup | src/index.ts:605-680 | past the earlier exits and without a token, a session is looked up iff something asks for one, and a flow is created iff the lookup found nothing where lists or a challenge demand it, right after the lookup and right before the redirect's event |
| Gateway.RateLimitAndBans | src/index.ts:517-749 | the rate limit is consumed iff no earlier exit applies and the visitor is entitled to pass, cache and origins come only after it, and a ban is issued only by a protection block |
| Gateway.FailoverLaws | src/index.ts:845-906 | the selected origin is contacted iff the request is forwarded, a different one after it iff a GET or HEAD failed by the origin's own fault and there is another; the quarantine afterwards is the old one plus exactly the contacted origins at fault, less exactly the one that served |
| Gateway.EventsExplained | src/index.ts:300-1068 | every recorded event has the returned status and, by its decision, the status and the cause in the request that the decision stands for; 421 and 308 are answered without one |
| Gateway.NothingBefore | src/index.ts:360-749 | a recorded decision means that no reason that the pipeline looks for earlier was there |
| SmoothRoundRobin.Balancer.Next | src/services/load-balancer-service.ts:125-141 | the first largest raised weight is selected and pays back the total; other origins are untouched |
| SmoothRoundRobin.SmoothInvariant | src/services/load-balancer-service.ts:125-141 | in every run the current weights sum to zero and none reaches minus the total |
| SmoothRoundRobin.SharesAreExact | src/services/load-balancer-service.ts:125-141 | after total-weight many selections every origin was selected exactly its weight and all current weights are zero |
| SmoothRoundRobin.NoOriginAhead | src/services/load-balancer-service.ts:125-141 | after any number of selections no origin has a whole selection more than its share |
| SmoothRoundRobin.NoOriginFarBehind | src/services/load-balancer-service.ts:125-141 | nor is any behind its share by a whole selection for each of the other origins |
| SmoothRoundRobin.FullTurn | src/services/load-balancer-service.ts:125-141 | repeated in-place selection from clear weights gives every origin exactly its weight and clears the weights again |
| LoadBalancer.IpAffinityOrigin | src/services/load-balancer-service.ts:22-33 | the origin chosen owns the hash's bucket when buckets are dealt out by id order, weight-many or one each |
| LoadBalancer.OneOwner | src/services/load-balancer-service.ts:22-33 | at most one origin owns a bucket, so the choice does not depend on the order of the pool |
| LoadBalancer.OwnedIs | src/services/load-balancer-service.ts:25-31 | of as many consecutive hashes as there are buckets each origin gets as many as its weight says, at least one, and exactly one without weights |
| LoadBalancer.Balancer.ReportPassiveFailure | src/services/load-balancer-service.ts:75-80 | the origin is quarantined until 15 s from now, others as before, and the result says whether it was not already |
| LoadBalancer.Balancer.ClearPassiveFailure | src/services/load-balancer-service.ts:82-84 | the origin's entry is gone, others as before, and the result says whether there was one |
| LoadBalancer.Balancer.OriginAvailable | src/services/load-balancer-service.ts:86-103 | an origin is available iff it passes the four checks, and exactly then is a quarantine that has run out forgotten |
| LoadBalancer.Balancer.Candidates | src/services/load-balancer-service.ts:105-111 | the pool is the reference's, and exactly the expired quarantines of offered origins are forgotten |
| LoadBalancer.PoolIsPreferred | src/services/load-balancer-service.ts:105-111 | the pool holds exactly the eligible origins that no eligible one exceeds in health and, for failover, of least priority value among the equally healthy |
| LoadBalancer.BestPriorityOnly | src/services/load-balancer-service.ts:16-20 | exactly the origins of least priority value remain |
| LoadBalancer.Balancer.NextByAlgorithm | src/services/load-balancer-service.ts:113-142 | failover picks the first origin of its order, round-robin the cursor's, weighted the first with the largest raised smooth weight |
| LoadBalancer.Balancer.WeightedTurn | src/services/load-balancer-service.ts:125-141 | a full turn by weight selects every origin of the pool as often as its weight says, and at least once |
| LoadBalancer.FailoverOrder | src/services/load-balancer-service.ts:116-119 | the failover choice has the lowest priority value, then primary before not, then the oldest, then the first listed |
| LoadBalancer.OneChoice | src/services/load-balancer-service.ts:113-142 | there is never more than one right choice |
| LoadBalancer.Balancer.SelectOrigin | src/services/load-balancer-service.ts:144-162 | a session keeps its usable assigned origin; anyone else gets the algorithm's or the bucket's choice from the pool; the choice is enabled, not excluded, and drains only for its own session; a session is newly assigned exactly when its origin changes |
| LoadBalancer.ChoiceLaws | src/services/load-balancer-service.ts:144-162 | only offered, not excluded origins of acceptable health are ever chosen from, a quarantined one only as a last resort, and there is nothing to choose from iff nothing is usable |
| Lcg.StepIsExact | bench/11-crowdsec-lookup.bench.ts:22-22 | the unreduced step is below 2^53, so the double is exact |
| Lcg.UnstepUndoesStep | bench/11-crowdsec-lookup.bench.ts:22-22 | the step is injective on 32-bit states: it has a left inverse |
| Lcg.StepUndoesUnstep | bench/11-crowdsec-lookup.bench.ts:22-22 | the step is surjective on 32-bit states: the inverse is a right inverse |
| Lcg.FullPeriod | bench/11-crowdsec-lookup.bench.ts:19-25 | from every seed the state recurs after n steps iff 2^32 divides n |
| Lcg.Random.Next | bench/11-crowdsec-lookup.bench.ts:19-25 | the closure's state advances by one step and the result is in [0, 1) |
| Base64Url.BufferToBase64Url | public/webauthn-client.js:10-15 | the result is the URL-safe letters of the 6-bit digits, without padding |
| Base64Url.Alphabets | public/webauthn-client.js:10-15 | the letters are those of tables 1 and 2 of RFC 4648 |
| Base64Url.GroupsAre | public/webauthn-client.js:10-15 | group by group the digits stand for the same number as the bytes, most significant first, a short last group filled with zero bits |
| Base64Url.Base64UrlToBuffer | public/webauthn-client.js:1-8 | the result is the decoding of the re-padded text without its white space, or an error |
| Base64Url.RepaddingRestores | public/webauthn-client.js:2-3 | re-padding an encoding gives back exactly what btoa had produced |
| Base64Url.RoundTrip | public/webauthn-client.js:1-15 | decoding undoes encoding on every byte sequence |
| Base64Url.TextRoundTripIff | public/webauthn-client.js:1-15 | a text of URL-safe letters survives decoding and encoding iff it has no lone last letter and its unused bits are zero |
| LivePolling.Page.StartLivePolling | public/host-admin.js:599-609 | polling is on with exactly one pending timer, of the current generation |
| LivePolling.Page.StopLivePolling | public/host-admin.js:611-615 | no timer is pending and no in-flight tick carries the current generation |
| LivePolling.Page.CompleteFetch | public/host-admin.js:583-607 | only the newest request's successful reply is shown, and only a current tick reschedules |
| LivePolling.Page.Run | public/host-admin.js:583-615 | under every interleaving at most one timer is pending and it is livePollTimer, one token carries the current generation while polling, and shown request ids strictly increase |
| LivePolling.Page.RunStopped | public/host-admin.js:611-615 | whatever happens after a stop, short of a start, leaves no timer |
| TrafficTable.Table.CompleteReply | public/admin.js:1710-1761 | a stale reply changes nothing shown; the newest asks again, is shown or shows an error, and its rows match the filters shown iff the chosen origin is still listed |
| TrafficTable.Table.Run | public/admin.js:1687-1761 | under every interleaving shown request ids strictly increase and the loading row stands exactly while the newest request is in flight |
| TrafficTable.Table.Settle | public/admin.js:1711-1728 | with a server that answers consistently the two ways of asking again end within three replies, on an existing page |
| TemplateEditor.Editor.SwitchTo | public/admin.js:2403-2433 | switching tabs changes no other provider's text, and the opened one's iff it has a carriage return |
| TemplateEditor.Editor.Collect | public/admin.js:2447-2458 | exactly the listed providers whose text differs from the effective template are returned, with their text |
| TemplateEditor.Editor.Perform | public/admin.js:2403-2445 | after any typing and switching every provider has the last text typed under its tab, or its effective template, read through the textarea if its tab was ever open |
| TemplateEditor.CollectedUntouchedIff | public/admin.js:2447-2458 | a provider under whose tab nothing was typed is collected iff its tab was opened and its template has a carriage return |
| SearchTerms.SplitUndoesJoin | public/admin-shared.js:324-326 | terms joined by spaces are split back |
| SearchTerms.SplitUndoesJoinIff | public/admin-shared.js:324-324 | pieces are split back iff every one after the first has its quotes in pairs |
| SearchTerms.SearchClauseIff | public/admin-shared.js:310-318 | a clause from a plain field and any value is a whole piece iff the value's white space is outside its quotes, and has paired quotes iff the value has |
| SearchTerms.SearchClauseIsTerm | public/admin-shared.js:310-318 | a clause from a plain field and a value without quotes is a term |
| SearchTerms.EscapedReads | public/admin-shared.js:310-312 | escaping a value loses nothing |
| SearchTerms.OppositeClause | public/admin-shared.js:314-323 | including and excluding a value of a field are each other's opposite |
| SearchTerms.SplitFirst | public/admin-shared.js:324-324 | white space of any length and kind separates a piece from what follows |
| SearchTerms.KeptOne | public/admin-shared.js:325-325 | a term is dropped iff it is the clause or differs from it by a leading dash alone |
| SearchTerms.KeptConcat | public/admin-shared.js:325-325 | the other terms keep their order |
| SearchTerms.SearchInput.AddSearchClause | public/admin-shared.js:320-328 | the box becomes the kept terms followed by the clause |
| SearchTerms.TermsOfPieces | public/admin-shared.js:324-324 | any box text splits into whole pieces, all but the first with their quotes in pairs |
| SearchTerms.AddClauseIff | public/admin-shared.js:320-328 | whatever the box held and whatever the clause, the other terms and the clause are split back iff the clause is a whole piece and, unless alone, has paired quotes |
| SearchTerms.AddClauseLaws | public/admin-shared.js:320-328 | then the clause is there once and last, its opposite never, other terms keep their order, and adding again changes nothing |
| SearchTerms.OneOfThePair | public/admin-shared.js:314-328 | adding one of the two clauses of a field and a value leaves that one, once and last, and not the other |
| HeaderAssignments.ParsedIsClean | public/admin.js:941-951 | whatever parses has trimmed, non-empty, colon-free names, trimmed values and no line breaks |
| HeaderAssignments.FirstBadLine | public/admin.js:946-949 | parsing fails iff some line has no colon after a name, and reports the first such line by its number |
| HeaderAssignments.AssignmentsRead | public/admin.js:946-951 | otherwise every line gives what stands before and after its first colon, trimmed, in order |
| HeaderAssignments.FormatIs | public/admin.js:960-962 | a clean list is written one name, colon, space and value a line, in order |
| HeaderAssignments.RoundTripIff | public/admin.js:941-962 | the page gives back the list it was filled with iff it is of that form, empty values included |
| GeoZoom.ClampLaws | public/admin.js:4963-4969 | clamping lands inside the base with bounded width and the base's aspect ratio, and changes exactly the views that are not |
| GeoZoom.ClampNearest | public/admin.js:4963-4969 | clamping goes to the nearest width allowed and then to the nearest place |
| GeoZoom.CursorStays | public/admin.js:4981-4993 | before clamping the point under the cursor is fixed in both axes |
| GeoZoom.Map.ZoomAt | public/admin.js:4981-4996 | the view stays inside, and the cursor's point stays fixed whenever the clamp does not bind |
| GeoZoom.Map.Pan | public/admin.js:4998-5007 | the view stays inside and keeps its width |
| GeoZoom.Map.Reset | public/admin.js:5009-5012 | the view is the base again |
| ReleaseNotes.SequentialIsSimultaneous | public/update-check.js:2-9 | five successive replacements equal one simultaneous replacement |
| ReleaseNotes.EscapeHtmlLaws | public/update-check.js:2-9 | escaping is invertible and leaves no raw angle bracket or quote |
| ReleaseNotes.GroupBullets | public/update-check.js:23-38 | blocks flatten back to the lines in order, and every run of bullets is one non-empty list |
| ReleaseNotes.BulletTextIff | public/update-check.js:27-27 | a line is a bullet with a given text iff it is indentation, a dash or star, white space and that text |
| ReleaseNotes.OneGrouping | public/update-check.js:23-38 | there is only one such grouping |

## Left out

- Manual promotion, membership changes with their shrink grace window, replication of the changelog and the candidate's
  cursor check: the failover model has fixed membership and lets a vote be refused for any reason.
- Failover message delays other than from a replica to its primary: a primary's greeting and a vote request act when they arrive, and the order of messages on one connection is not kept.
- Campaign steps other than the two fetches: they are taken to need no time; a longer campaign needs a longer vote lock, as `FenceBeforeElectionIff` says for every campaign time.
- Adoption of a discovered primary: any node may adopt any primary at an epoch not below its own, which covers
  announcements, redirects, discovery polling and former-primary recovery without modelling their messages.
- HaSafety.WritersExclusive: the failover events are steps on values; only the primary's own code is modelled in place, in HaPrimary.
- PowSha256.Sha256: starts from the UTF-8 bytes of the text; `TextEncoder` is not modelled.
- Gateway.Handle: response bodies, headers, cookies, captures, latency and logging are not modelled, and errors thrown outside origin attempts are not either.
- LoadBalancer.Balancer.SelectOrigin: one site's origins only; the map of sites is not modelled, and `stableHash` is a parameter.
- LivePolling.Page.CompleteFetch: the error toast is not modelled.
- TrafficTable.Table.CompleteReply: the page and origin filters only; the search box and the ASN box load after a debounce, so rows may briefly lag behind their text.
- TemplateEditor.Editor.SwitchTo: the text and content-policy fields, which follow the same scheme, are not modelled.
- GeoZoom.Map.ZoomAt: arithmetic is over exact reals.
- ReleaseNotes.GroupBullets: headings, bold, code and link replacements, and line separators other than the newline inside a bullet, are not modelled.
- The ACME, CrowdSec, WAF, rate-limit, cache, stream, session and notification services, the database, the dashboard's
  rendering and the other benchmarks are outside this model.
