# Verification of the proxybroker model

A Dafny model of the stateful and byte-level parts of proxybroker, and proofs about it: the live pool
and the request relay, the check pipeline, the adaptive re-checker, the address scanners, the header,
SOCKS5, base64 and authority code, the three stores, and the statistics. `dafny verify dfyconfig.toml`
checks everything.

Objects that the source updates in place are classes (`Pools.Pool`, `Relay.Wire`, `Rechecker.Loop`,
`Socks5.Client`, the stores of `Stores`, `Statistics.StatsCollector`, `Grab.Grabber`); loops are loops
with invariants; pure code is functions. Two parts are concurrent and are transition systems with one
step per lock section or await: `Wakeups` (the pool with its waiters) and `Pipeline` (the check tasks).
Sockets, clocks, probes and random draws are parameters: whatever they do, the properties hold.
`f64` is `real`, `u32` and `u64` are `nat` except where a width decides the result (`Stores`, ports,
status codes).

| file | part |
|---|---|
| Proxies, Selection, Pools | the proxy record, `best_for`, and the pool with its conservation books |
| Wakeups, Rotation, Pinning | the pool over whole runs: wake-ups, round-robin coverage, sticky clients |
| Relay, Connector | the two retry loops over the pool |
| Streams, Upstreams | all that upstreams are sent, and the credentials in it |
| Heads, BareLf, Responses, Base64, Socks5, Authority | bytes on the wire |
| Pipeline, Grab, Checker, Statistics | finding and checking proxies |
| Rechecker, Stores | what goes on after a proxy was found |
| Numbers, Scanner, Provider | from text to candidates |

## Where the code does less than is said of it

- The scanners are said to mirror two Python patterns (`src/parse.rs:1-13`, `src/parse.rs:50-61`). They do
  not on every text: a backtracking matcher may give back digits of an address's last octet so that its
  look-ahead finds a port in them. On `1.2.3.456` the pattern reports 1.2.3.4 with port 56, the scanner
  nothing (`Scanner.TheyDiffer`). `Scanner.GlobalEqualsLookahead` and `Scanner.LinesEqualPattern` give the
  exact condition, which a caller could evaluate on the text beforehand.
- A `CONNECT` authority cannot be read back for every host: an empty one, one that keeps a pair of
  brackets without a colon inside, or one with `]:` inside (`Authority.AuthorityReads`,
  `Authority.BracketColonCuts`).
- The client's proxy secret is said to be stripped (`src/server.rs:1246-1249`). It reaches the upstream all the
  same in three ways. The head is stripped once, and what the client writes after it is spliced: a second
  request on the same connection goes out as it is (`Upstreams.SecondHeadReachesUpstream`). `strip_header`
  splits at CRLF and `header_value` at LF, so a header behind a bare LF is seen by the one and passed over by
  the other (`Relay.SecretReachesUpstream`). And a head cut at its cap of 65537 bytes has a last line without
  end, which is copied (`Streams.CutHeadIsCopied`). `Upstreams.NoClientCredentialsUpstream` is the exact
  condition for all of them.
- The allow-list tests the first status line of a connection, in at most 256 bytes. Later answers are not
  tested (`Relay.LaterStatusReachesTheClient`). When the cap falls inside the code, the client may read
  another one (`Relay.CutStatusReachesTheClient`). The code is final iff white space follows it in those
  bytes (`Responses.GateIsFinal`); a line that ends in LF is never affected.
- Round robin over n proxies needs n + 1 requests to serve them all, unless the cursor starts on the last
  position, when n do (`Rotation.NRequestsLeaseAll`).
- With `max_conn` 0 the pipeline finishes only if there is nothing to check or the limit is 0, unless the
  consumer leaves (`Pipeline.FinishesUnlessStarved`).
- The map store saturates where the other two go on counting (`Stores.FoldThrice`).
- The re-checker is said never to resurrect a deleted address (`src/scheduler.rs:197-198`). It asks whether
  an address is still pooled only before a probe, and not for one that is being retried. A deletion holds
  unless the address is re-checked with success after it; that takes an address that was being retried or
  whose probe was running (`Rechecker.Loop.Pass`, `Rechecker.DeletedInFlight`,
  `Rechecker.DeletedWhileRetrying`). A deleted address that is neither stays out as long as nobody inserts
  it or gives it back (`Rechecker.Loop.Run`).
- With verify-on-lease, `Pool::get` hands out what its last look after the end of the source finds without a
  probe (`Wakeups.LastLookSkipsTheProbe`), and that is the only such case (`Wakeups.WhoWasProbed`).

## Model

| member | source | states |
|---|---|---|
| `Proxies.Round2Monotone` | src/proxy.rs:131-133 | Rounding to two decimals, ties to even, keeps order |
| `Proxies.AccountingBalances` | src/proxy.rs:307-323 | After any run of attempts on a fresh proxy errors plus successes are the requests, and the error rate is in [0, 1] |
| `Proxies.ReportKeepsBalance` | src/proxy.rs:387-397 | One more attempt is one more request, and either one error or one runtime; address and types stay |
| `Proxies.RestoredIsFaithful` | src/proxy.rs:181-215 | A restored record answers with the stored error total, the stored latency, rounded, and the stored types |
| `Proxies.LeasedProxyHasProtocol` | src/connector.rs:138-142 | For a proxy that serves the scheme the connector always has a protocol, so its no-tunnel branch is dead, and no picker terminates the client's TLS |
| `Selection.ChoiceIsEligible` | src/server.rs:531-575 | Nothing is picked iff nothing serves the scheme; a benched proxy is picked only when no ready one serves it |
| `Selection.TierIsBestTier` | src/server.rs:531-549 | The candidates are exactly the ready proxies for the scheme, or all benched ones when none is ready |
| `Selection.BestIsFirstLexicographicMinimum` | src/server.rs:605-617 | `Best` picks the first lexicographic minimum of error key, response time and connect preference among the candidates |
| `Selection.StickyReusesPin` | src/server.rs:561-573 | A pin that is among the candidates is picked, and the proxy picked has the pinned address |
| `Selection.RotationPrefersConnect` | src/server.rs:585-600 | With the connect bias a rotation or random pick is a connect proxy whenever there is one among the candidates |
| `Selection.ModuloIsRemainder` | src/server.rs:553-556 | The cursor is taken modulo the number of candidates |
| `Pools.Pool.FromProxies` | src/server.rs:155-178 | A static pool holds the admissible proxies in order and has an exhausted source |
| `Pools.Pool.Spawn` | src/server.rs:181-222 | A streamed pool starts empty with its source open |
| `Pools.Pool.ImportNext` | src/server.rs:199-219 | One importer round: the next proxy, if its country is admitted, is pushed and announced; the end of the source is announced |
| `Pools.Pool.TrySelect` | src/server.rs:273-300 | The proxy `best_for` points at leaves the pool by swap-remove, the cursor or the pin moves as the strategy says, the books note one lease; `None` changes nothing |
| `Pools.Pool.RecordSession` | src/server.rs:304-314 | The pin is recorded; at the bound one other pin goes; the bound max(1, max_sessions) holds |
| `Pools.PinsStayBounded` | src/server.rs:304-314 | Recording a pin never takes the map over max(1, max_sessions), and changes no other key when the client had a pin |
| `Pools.Pool.PutOk` | src/server.rs:317-321 | A returned proxy is counted as evicted when unhealthy, else it is at the back, unbenched, and announced |
| `Pools.Pool.PutFailed` | src/server.rs:324-330 | The same with the bench time set |
| `Pools.Pool.Remove` | src/server.rs:360-366 | Every entry at the address goes, the others keep their order; the answer says whether there was one |
| `Pools.Pool.Add` | src/server.rs:369-384 | An address already pooled changes nothing, any other is pushed and announced; no country filter |
| `Pools.Pool.Get` | src/server.rs:225-255 | While proxies arrive or are removed and the source ends in any way: at most one lease is open, each dead draw is given back before the next, after eight it gives up; with verification on a lease was probed live in its last round, unless the last look found it after the source had run out; `None` otherwise means the source is finished and nothing serves the scheme |
| `Pools.Pool.OneRound` | src/server.rs:230-253 | One round ends in a lease that was probed live or needed no probe, in a dead draw given back, in the last look of a finished source, or in a wait; an open round gets closer to the source's end |
| `Pools.Pool.AfterEmptyLook` | src/server.rs:249-253 | After an empty look, with anything arriving in between: the last look if the source is finished by now, else a wait that ends |
| `Pools.Pool.AwaitNotified` | src/server.rs:245-252 | With the importer, insertions and removals going on, a waiter returns only past its snapshot, and waiting ends because the source is finite |
| `Pools.Books.LeaseBalances` | src/server.rs:285-300 | Conservation is kept by taking a proxy out |
| `Pools.Books.ReturnBalances` | src/server.rs:332-346 | Conservation is kept by giving it back, pooled or evicted |
| `Pools.Books.RemoveBalances` | src/server.rs:360-366 | Conservation is kept by a removal of all copies |
| `Pools.Books.BalanceIsSum` | src/server.rs:136-150 | Pooled, leased, evicted and removed addresses together are exactly the multiset admitted |
| `Wakeups.StepKeepsInv` | src/server.rs:199-254 | Every step of every task, the importer and the environment keeps the wake-up and conservation invariant |
| `Wakeups.NoLostWakeup` | src/server.rs:230-254 | In every reachable state a waiter parked at a current snapshot, with what it waits for present or the source finished, is still owed a notification |
| `Wakeups.NothingIsLost` | src/server.rs:332-346 | In every reachable state pooled, held, evicted and removed addresses are what was admitted, and leases taken are leases given back plus those held |
| `Wakeups.WhoWasProbed` | src/server.rs:230-254 | Over every run: a lease was probed iff verification is on and it is not from the last look; the probe is the task's latest step and is of the very proxy leased; a last look comes after the end of the source and after a look of the same call that found nothing |
| `Wakeups.LastLookSkipsTheProbe` | src/server.rs:249-252 | With verification on, six steps from the start to a lease that no step has probed: the only proxy and the end of the source arrive right after the first look |
| `Rotation.RotationCovers` | src/server.rs:289-296 | From any order and cursor n + 1 requests serve every position of n despite the swap with the last |
| `Rotation.NRequestsSuffice` | src/server.rs:289-296 | n requests serve all of n distinct positions iff the cursor starts on the last of them |
| `Rotation.NRequestsLeaseAll` | src/server.rs:341-345 | n consecutive requests of a run over n distinct addresses lease every one iff the cursor modulo n is n - 1 at the start |
| `Rotation.NRequestsAreNotEnough` | src/server.rs:553-556 | From the first position three proxies are served as A, B, B, C |
| `Rotation.RotationPicksCursor` | src/server.rs:553-556 | With all proxies ready and no bias the pick is the cursor modulo the pool size |
| `Rotation.EveryProxyGetsItsTurn` | src/server.rs:341-345 | Any n + 1 consecutive requests of a run in which each lease came back healthy lease every one of the n proxies |
| `Pinning.PinnedLeaseIsReused` | src/server.rs:561-573 | A client whose pinned proxy is pooled and ready for its scheme gets that address |
| `Pinning.StaysBound` | src/server.rs:273-314 | Over any run the client stays bound, whatever other clients lease, return or remove short of its own pin and proxy |
| `Pinning.SameProxyOnEveryRequest` | src/server.rs:273-314 | So every request of the client in that run gets the same address |
| `Relay.Commit` | src/server.rs:1256-1311 | After the commit point the client receives a prefix of head and splice from this attempt, and the upstream a prefix of the client's further bytes; all of both when the outcome is Ok, and no outcome is retryable; a client gone at the head's write has nothing pumped |
| `Relay.RelayOnce` | src/server.rs:1187-1311 | A retryable failure has sent the client nothing; anything sent is part of one reply of this attempt, with the allow-list applied before the first byte; the upstream is sent its negotiation, the rewritten head exactly when a plain request got that far, the client's further bytes when it came to the splice, in this order, and nothing else |
| `Relay.GiveBack` | src/server.rs:924-952 | It is the charged record that returns, once, benched exactly when the failure is the upstream's, or evicted |
| `Relay.Attend` | src/server.rs:913-952 | One lease is attempted, charged once for what became of it, and given back in that state; what was written upstream and to the client is this attempt's |
| `Relay.TryOnce` | src/server.rs:901-956 | One round leases one proxy for the scheme, charges it exactly once, and the charged record is what the pool gets back, benched iff the failure is the upstream's |
| `Relay.TryAll` | src/server.rs:901-956 | At most `max_tries` leases, each given back once and charged; the loop goes on only after an uncommitted failure; rotations grow by leases minus one |
| `Relay.ServeClient` | src/server.rs:901-960 | The client reads one attempt's reply or the failure reply of its protocol, never both; the pool's ledger gains exactly one charged give-back a try; upstreams were sent their try's negotiation, rewritten head and, after a commit, the client's further bytes |
| `Relay.HandleClient` | src/server.rs:853-960 | A client without the expected credentials reads only the refusal and costs the pool nothing; the SOCKS front end has authenticated already |
| `Relay.OpeningStartsWithStatusLine` | src/server.rs:1099-1111 | What the client reads first is the upstream's own status line |
| `Relay.ClientSeesAllowedStatus` | src/server.rs:1276-1300 | With an allow-list and a request without a body, the code of the first status line that a client reads is allowed; it is the code of all it reads and of the upstream's answer, unless the line was cut at the 256-byte cap inside the code |
| `Relay.CutStatusReachesTheClient` | src/server.rs:1276-1300 | For an answer cut there the allow-list holds 200 only and the client reads 2005 |
| `Relay.OnlyTheFirstStatusIsGated` | src/server.rs:1276-1311 | Whatever follows an allowed status line reaches the client, the answers to later requests on the connection too |
| `Relay.LaterStatusReachesTheClient` | src/server.rs:1276-1311 | With an allow-list of 200 alone, a second answer of 403 reaches the client |
| `Relay.UpstreamSeesOnlyItsCredentials` | src/server.rs:1250-1263 | In the head rewritten for an upstream its own credentials read back, from one line under the request line, or none do; never the client's, for a clean head |
| `Upstreams.SentUpstream` | src/server.rs:1208-1311 | All that a served request sends upstream is a try's negotiation, (the start of) the head rewritten for that try's upstream, or, from a try that came to the splice, a part of the client's further bytes |
| `Upstreams.NoClientCredentialsUpstream` | src/server.rs:1250-1311 | When a head got through, all its upstream reads of `Proxy-Authorization` on the connection is its own value iff nothing is hidden in the head and none comes in the client's further bytes; for a complete head these are two separate conditions on head and bytes |
| `Upstreams.CutHeadsShowNoMore` | src/server.rs:1264-1266 | A head whose write failed midway, with nothing hidden in it, shows its upstream its own value at most |
| `Upstreams.SecondHeadReachesUpstream` | src/server.rs:1250-1311 | A clean head sent twice on one connection: the first is stripped, the second shows the upstream the client's secret |
| `Streams.UpstreamReadsOnlyItsOwn` | src/server.rs:1250-1311 | For every head and all that follows it: the values read on the connection are the upstream's own exactly when nothing of the client's comes |
| `Streams.CompleteHeadsAreApart` | src/server.rs:1400 | For a head that ends in CRLF: nothing comes iff nothing is hidden in the head and no such line is in what follows |
| `Streams.CutHeadIsCopied` | src/server.rs:1400 | A head cut inside that header's line, as the reader's cap can do, is forwarded with the header |
| `Streams.CutShowsNoMore` | src/server.rs:1138-1146 | A prefix of a stream never shows more values of a header than the whole |
| `Relay.SecretReachesUpstream` | src/server.rs:1116-1146 | For a head with a bare LF before `Proxy-Authorization` the client's secret is in what goes upstream, and reads back there |
| `Connector.GiveBack` | src/connector.rs:187-197 | The charged record returns, once: unbenched when the dial worked, benched when it failed, or evicted |
| `Connector.Connect` | src/connector.rs:146-206 | At most `max_tries` leases; the pool's ledger gains exactly one charged give-back a lease, benched iff its dial failed; success means the last dial worked; a final failure carries the last error |
| `Heads.StripHeader` | src/server.rs:1116-1135 | The copying loop computes the line filter |
| `Heads.StripRemovesExactlyTheNamedLines` | src/server.rs:1116-1135 | For every byte string the CRLF lines of the result are those of the input without the named headers; request line, order and trailing bytes stay |
| `Heads.StripIsIdempotent` | src/server.rs:1116-1135 | Stripping twice is stripping once |
| `Heads.InjectAddsOneLine` | src/server.rs:1099-1111 | One line is added directly under the first; without a CRLF nothing changes |
| `Heads.JoinSplit` | src/server.rs:1116-1135 | Splitting at CRLF and joining gives the bytes back |
| `Heads.SplitJoin` | src/server.rs:1116-1135 | Joining lines without CRLF and splitting gives the lines back |
| `Heads.CleanLines` | src/server.rs:1138-1146 | On heads without a bare LF, LF lines and CRLF lines agree |
| `Heads.ForwardedWithoutCredentials` | src/server.rs:1250-1263 | After stripping a clean head, `header_value` finds no such header |
| `Heads.ForwardedWithCredentials` | src/server.rs:1250-1263 | After strip and inject there is exactly one such line, directly under the request line, and it reads back as the upstream's value |
| `BareLf.StripHidesExactly` | src/server.rs:1116-1146 | For every byte string: after stripping, `header_value` finds no such header iff no line that is copied, and nothing after the first LF in the first line, hides one behind a bare LF |
| `BareLf.InjectedReadsBack` | src/server.rs:1099-1146 | For every byte string with a CRLF: after strip and inject the upstream's value reads back, unless the first CRLF line hides such a line, whose value comes instead |
| `BareLf.HeaderValueOfLines` | src/server.rs:1138-1146 | `header_value` on any bytes is the first find in the CRLF lines, the first LF line excepted |
| `BareLf.CleanHidesNothing` | src/server.rs:1116-1146 | A head without a bare LF hides nothing |
| `BareLf.HiddenHeaderSurvives` | src/server.rs:1116-1146 | A header behind a bare LF, in a line that is not that header itself, survives stripping, and its value reads back |
| `BareLf.SecretGetsThrough` | src/server.rs:1116-1146 | So does `Proxy-Authorization: Basic x` behind `A: b` and a bare LF |
| `Responses.ReadStatusLine` | src/server.rs:1318-1347 | Exactly the shortest prefix that ends in LF, or 256 bytes, is consumed; it fails iff none arrives in time |
| `Responses.SpliceIsExact` | src/server.rs:1276-1300 | Status line with the information line plus the rest is the upstream's bytes with one line inserted after the first CRLF, or none |
| `Responses.SettledStatusIsFinal` | src/server.rs:1350-1358 | Once white space follows the code, more bytes cannot change it |
| `Responses.TerminatedStatusIsSettled` | src/server.rs:1350-1358 | A status line with a code that ends in LF is settled |
| `Responses.GateReadsTheRealStatus` | src/server.rs:1276-1290 | The code the gate tests is the code of the whole answer, unless the line was cut at the cap inside it |
| `Responses.GateIsFinal` | src/server.rs:1350-1358 | For every line with a code: no further byte can change the code iff white space has followed it |
| `Responses.UnsettledIsCut` | src/server.rs:1318-1347 | A status line whose code could still change has been cut at the 256-byte cap |
| `Responses.CutLineFoolsTheGate` | src/server.rs:1318-1358 | A 256-byte line from which the gate reads 200, and one more byte with which the code is 2005 |
| `Responses.ReadHead` | src/negotiator.rs:262-287 | `read_head` stops right after the first blank line, at most one byte over the cap, and fails iff none arrives in time |
| `Base64.Base64Encode` | src/utils.rs:121-147 | The chunk loop computes the encoding (section 4 of RFC 4648) |
| `Base64.DecodeUndoesEncode` | src/utils.rs:121-147 | A decoder gives every byte string back |
| `Base64.EncodeIsInjective` | src/utils.rs:121-147 | Different inputs have different encodings |
| `Base64.EncodedLength` | src/utils.rs:121-147 | The length is 4 * ceil(n / 3) |
| `Base64.EncodedIsPrintable` | src/utils.rs:121-147 | Every symbol is a printable character that no header rewriting touches |
| `Pipeline.StepKeepsInv` | src/broker.rs:616-671 | Every step of every interleaving keeps permits, slots, records and deliveries in step |
| `Pipeline.AlwaysSafe` | src/broker.rs:625-664 | At every moment in-flight checks and free permits make `max_conn`; no more than the limit is sent; an item is sent once at most, and recorded before |
| `Pipeline.FinishedRunIsComplete` | src/broker.rs:616-671 | At the end, if the consumer stayed, exactly min(limit, passed) were sent; for a limit of one or more it was cancelled iff enough passed; otherwise every item was checked and recorded |
| `Pipeline.NeverStuck` | src/broker.rs:616-671 | Unless `max_conn` is 0, an unfinished run can always go on without the consumer leaving |
| `Pipeline.FinishesUnlessStarved` | src/broker.rs:616-671 | Some run from the start finishes with the consumer staying iff `max_conn` is positive, there is nothing to check, or the limit is 0 |
| `Pipeline.RunsAreBounded` | src/broker.rs:616-671 | No run is longer than a bound linear in the items, so every run ends |
| `Grab.Grabber.Run` | src/broker.rs:316-358 | The first so many distinct addresses in the wanted countries are sent, as far as limit and consumer go |
| `Grab.AvailableIsExact` | src/broker.rs:341-351 | Available is exactly the addresses of the candidates in a wanted country, none twice |
| `Grab.MoreIsLater` | src/broker.rs:336-357 | More candidates only add at the end |
| `Rechecker.IntervalGrowsWithStability` | src/scheduler.rs:51-56 | The next check comes later the steadier a proxy is, between the two bounds |
| `Rechecker.ScoreAtMostEwma` | src/scheduler.rs:61-71 | Latency and age only lower the score |
| `Rechecker.ScoreFallsWithAge` | src/scheduler.rs:61-71 | A proxy unseen for longer never scores higher |
| `Rechecker.ElevenFailuresEvict` | src/scheduler.rs:210-245 | Eleven failures in a row take any rate below the floor, whatever half-life, latencies and ages |
| `Rechecker.ElevenInARowEvict` | src/scheduler.rs:210-245 | Whatever outcomes came before them |
| `Rechecker.SurvivesExactlyTen` | src/scheduler.rs:122 | Without decay and latency exactly ten failures from a rate of 1 are survived |
| `Rechecker.FailuresDecay` | src/scheduler.rs:211-214 | A rate that is still tracked after n failures is 0.7^n of the first, and above the floor |
| `Rechecker.WindowBound` | src/scheduler.rs:146-148 | A window of length T holds at most floor(T / gap) + 1 scheduled starts |
| `Rechecker.Loop.Enroll` | src/scheduler.rs:150-167 | Afterwards exactly the old and the pooled addresses are tracked; newcomers start at 1 with nothing on record and one jitter to go, the others are untouched |
| `Rechecker.Loop.TakeToken` | src/scheduler.rs:185-190 | A start is never earlier than one gap after the last |
| `Rechecker.Loop.Start` | src/scheduler.rs:165-201 | Only a soonest and due address is popped; it is probed iff it is pooled or being retried, else forgotten |
| `Rechecker.Loop.Settle` | src/scheduler.rs:203-245 | The address is in the pool iff the probe worked, every other address is there as often as before; the outcome is one more on its record, and it is kept, retried or evicted as the fold says |
| `Rechecker.Loop.Pass` | src/scheduler.rs:147-247 | If something is due a start is spent, never two, and the soonest address is re-checked, or dropped when it is gone and not being retried; a re-checked address is tracked iff the fold of all its outcomes is above the floor, and pooled iff the probe worked; one that was deleted, with nobody to bring it back, is pooled at the end iff this pass re-checked it and the probe worked, and it is re-checked only if it was being retried or deleted during its probe |
| `Rechecker.Loop.Run` | src/scheduler.rs:147-247 | Over any passes the starts stay spaced; for an address nobody brings, the record is all its outcomes, eleven failures in a row at their end leave it out of heap, rates, clocks, retries and pool, and once gone and not being retried it stays out |
| `Rechecker.DeletedInFlight` | src/scheduler.rs:197-233 | Deleted while its probe runs and the probe works: pooled again |
| `Rechecker.DeletedWhileRetrying` | src/scheduler.rs:197-233 | Deleted while it is being retried and the next probe works: pooled again |
| `Scanner.FindAddrsGlobal` | src/parse.rs:62-88 | The two-search loop computes, for each leftmost non-overlapping address, the nearest token after it |
| `Scanner.TwoSearchesFindNearest` | src/parse.rs:69-79 | Comparing the two searches finds the nearest token; a tie goes to the address |
| `Scanner.GlobalEqualsLookahead` | src/parse.rs:50-61 | The scanner equals the look-ahead pattern exactly when cutting the last address's last octet short brings no new token into view |
| `Scanner.FirstAddressDecides` | src/parse.rs:50-61 | Where the look-ahead fails after the leftmost address, backtracking finds a match iff the last octet cut to one digit has one |
| `Scanner.FindAddrsLine` | src/parse.rs:36-52 | The line loop computes each line's pair |
| `Scanner.LinesEqualPattern` | src/parse.rs:32-35 | The line scanner equals the line pattern exactly when that holds for a port on every line |
| `Scanner.TheyDiffer` | src/parse.rs:1-13 | On `1.2.3.456` the scanner finds nothing and the pattern finds 1.2.3.4 with port 56 |
| `Scanner.QuadEndsIsQuad` | src/parse.rs:20-24 | Every match of the address pattern has three dots and could end one digit into its last octet |
| `Scanner.LaterEndsAreLater` | src/parse.rs:20-24 | No match that starts later ends before that last octet has begun |
| `Provider.GlobalReadsPrinted` | src/parse.rs:62-88 | A printed list of addresses with ports 10 to 65535 is read back entry for entry by the text scanner |
| `Provider.LinesReadPrinted` | src/parse.rs:36-52 | And by the line scanner |
| `Provider.ExtractReadsPrinted` | src/provider.rs:74-114 | And `extract` yields it without the unspecified address, each entry where it is first seen |
| `Provider.Extract` | src/provider.rs:74-114 | The filter loop computes the accepted entries |
| `Provider.CandidatesAreFirstSeen` | src/provider.rs:81-113 | The candidates are exactly the acceptable pairs, none twice |
| `Provider.CandidatesGrow` | src/provider.rs:81-113 | More pairs only add at the end |
| `Provider.CandidatesAreUsable` | src/provider.rs:83-104 | No candidate has port 0 or the unspecified address, and each is the text of some pair |
| `Provider.QuadReads` | src/utils.rs:63-73 | A printed address reads back |
| `Provider.QuadIsCanonical` | src/utils.rs:63-73 | Only canonical text is accepted, so accepting never rewrites it |
| `Numbers.DecimalReads` | src/provider.rs:85 | A numeral reads back as its number, without a leading zero |
| `Numbers.DecimalIsCanonical` | src/utils.rs:63-73 | Digits without a leading zero are the numeral of their value |
| `Socks5.PrintedIsAccepted` | src/server.rs:1460-1568 | Every printed handshake the server accepts reads back, with the right replies and not a byte after it consumed (sections 3 and 4 of RFC 1928, section 2 of RFC 1929) |
| `Socks5.AcceptedIsPrinted` | src/server.rs:1460-1568 | Whatever is accepted is such a printed handshake |
| `Socks5.Client.Parse` | src/server.rs:1460-1568 | The parser gives that answer, as far as the connection takes the replies |
| `Socks5.Client.ReadRequest` | src/server.rs:1505-1550 | The request part, with its rejections |
| `Socks5.Client.ReadExact` | src/server.rs:1467-1471 | All the bytes asked for, or nothing and the end of the stream |
| `Authority.AuthorityReads` | src/server.rs:1571-1586 | Splitting a printed authority gives the bare host and the port back exactly when the bare host is readable |
| `Authority.BracketColonCuts` | src/server.rs:1571-1586 | For the host `a]:b` and port 80 it gives the host `a` and the default port |
| `Authority.OrdinaryHostsRead` | src/negotiator.rs:329-340 | Every non-empty host without a closing bracket is, IPv6 included (section 3.2.2 of RFC 3986) |
| `Authority.BracketsAreTransparent` | src/negotiator.rs:330-338 | A caller's own brackets make no difference to the authority |
| `Stores.SqliteStore.Upsert` | src/persist.rs:93-110 | The SQL upsert is the shared fold |
| `Stores.MemoryStore.Upsert` | src/persist.rs:294-328 | The map upsert is the shared fold with its counters held at the width of their fields |
| `Stores.RedisStore.Upsert` | src/persist.rs:501-521 | The Lua upsert is the shared fold |
| `Stores.FoldThrice` | src/persist.rs:93-110 | After the same checks SQL and Lua agree, and the map agrees with them iff no counter has overflowed |
| `Stores.CappedIsExact` | src/persist.rs:309-315 | Saturation changes a table iff something overflowed |
| `Stores.RecordIsOwnChecks` | src/persist.rs:30-32 | A record depends on the checks of its own address only |
| `Stores.EwmaClosedForm` | src/persist.rs:18-25 | The stored rate is the weighted sum with weights 0.3 * 0.7^k and 0.7^n for the first check |
| `Stores.WeightsSumToOne` | src/persist.rs:18-25 | The weights are positive and sum to 1 |
| `Stores.RecordIsSound` | src/persist.rs:93-110 | Requests, errors and uptime are totals of the checks, and the rate is in [0, 1] |
| `Stores.ErrorsNeverExceedRequests` | src/persist.rs:103-104 | Errors never exceed requests when no check's do |
| `Stores.TypesAreLastConfirmed` | src/persist.rs:98-102 | The types are those of the last working check; a failing one never erases them |
| `Stores.LatencyStaysInBounds` | src/persist.rs:106-108 | The stored latency stays between the bounds of what was measured |
| `Statistics.StatsCollector.Record` | src/stats.rs:69-98 | Recording a proxy adds its share to every counter |
| `Statistics.StatsCollector.RecordShare` | src/stats.rs:69-98 | And nothing else |
| `Statistics.FromProxies` | src/stats.rs:40-47 | The result is the summary of the proxies' totals |
| `Statistics.StatsIgnoreOrder` | src/stats.rs:101-123 | The statistics depend only on the multiset of checked proxies |
| `Statistics.TotalsAreConsistent` | src/stats.rs:69-98 | Country counts sum to the total; working, per-protocol and anonymity counts stay under their totals |
| `Statistics.PercentileIsMonotone` | src/proxy.rs:139-150 | A percentile lies between the rounded extremes and grows with q |
| `Statistics.PercentilesAreOrdered` | src/stats.rs:119-122 | p50 <= p90 <= p95 |
| `Statistics.SortedIsUnique` | src/proxy.rs:143-144 | Two sorted orders of the same values are equal, so the sort used does not matter |
| `Statistics.HistogramAdds` | src/stats.rs:91-93 | The error histogram of a sum is the sum of the histograms |
| `Checker.CheckOne` | src/checker.rs:332-398 | Every attempt is recorded up to the first that is not retried; the type is added iff that one worked |
| `Checker.AttemptsAreDetermined` | src/checker.rs:385-392 | How many attempts are made is determined by what they meet and the policy |
| `Checker.RunIsAccounted` | src/checker.rs:332-398 | A run of attempts keeps errors plus successes equal to requests |
| `Checker.CheckAll` | src/checker.rs:274-281 | Every protocol is checked whatever became of the others; exactly the confirmed ones are added |
| `Checker.TypesPassed` | src/checker.rs:565-601 | In either mode a proxy passes iff some confirmed type matches; strict mode keeps exactly the types that match |

## Left out

- SkipSpace: only ASCII white space separates the words of a status line; `split_whitespace` also splits at Unicode's.
- Word: a word of a status line ends at ASCII white space only.
- Get: what other clients give back or lease meanwhile is part of `Wakeups` only.
- AwaitNotified: the same.
- Negotiate: which bytes a negotiation writes is up to the environment; of its own messages only the `CONNECT` authority is modelled.
- Splice: how the two directions interleave is not part of this model; each has its own log.
- EditOnce: the re-checker's environment gives back only leases that are still open.
- HeaderValue: trims ASCII white space only and compares bytes; the source decodes lossily and trims Unicode white space.
- QuadEnds: the digits are ASCII; `\d` in the patterns also matches other decimal digits.
- Extract: custom provider patterns and the fetch are not part of this model.
- Client.Parse: the host is kept as bytes; its rendering as text is not part of this model.
- ConnectAuthority: of the `CONNECT` request only the authority is modelled; its header lines are fixed text.
- DecayedScore: the halving is any function that falls from 1 and stays positive, not the power itself.
- Enroll: the jitter of a due time is any number; its bounds of half the base are not used.
- Percentile: the sort is a function; only its result matters.
- CheckOne: the choice of a judge, the pause before a retry, and the capability and trust records are not part of this model.
- CheckAll: the DNS blocklist and the choice of protocols before it are not part of this model.
- FinishedRunIsComplete: the channel's capacity shows only as delay, and a check task never panics.
- FoldThrice: first-seen and last-seen times, schema migration and the text of stored types are not part of this model.
- NoLostWakeup: the tasks of a run are fixed from its start, and no task is dropped while it waits or holds a lease.
- TLS, DNS, HTTP client and SOCKS library code: each is replaced by an outcome chosen by the environment.
- Judge probing, anonymity and trust heuristics, decompression: they match text of foreign pages.
- The control host, its history, `try_get`, snapshots, metrics and the listener: simple readers of the pool.
- `watch::reconcile` and the importer's stream: only as insertions and removals by the environment.
- Geo and ASN lookup, provider data, output formats, command line and user interface: data and plumbing.
- Wrap-around of the round-robin cursor and of request counters, and the rounding of floating-point sums.
