# A verified model of the gateway's routing, framing, configuration and ABI rules

The repository is a local model gateway written in assembly, together with the
Python that states what the gateway must do: a routing oracle, a reference
configuration validator, an HTTP response parser, a control-protocol client and
server, and static analysers. This project models that logic in Dafny, and, where
the assembly carries a rule of its own (the selector, the circuit breaker, the SSE
framer), the assembly too. Every theorem is stated for all inputs, all runs or all
fragmentations.

| file | what it covers |
|---|---|
| `Common.dfy`, `Bytes.dfy`, `Numerals.dfy` | shared types; byte strings, first occurrences, a connection delivering pieces; decimal numerals |
| `Chunked.dfy`, `Responses.dfy`, `ResponseGrammar.dfy`, `ResponseStrictness.dfy` | chunked coding (section 7.1 of RFC 9112), response framing (section 6) against the messages themselves, and exactly which streams `parse_responses` lets through |
| `SseFramer.dfy` | the daemon's SSE event framer and the chunked stream it relays |
| `RouteOracle.dfy`, `FallbackOrder.dfy`, `RoundRobin.dfy` | the routing oracle; the order of attempts; fairness |
| `Gateway.dfy`, `GatewayEvents.dfy`, `SingleRequest.dfy` | concurrent requests over shared providers, as a state machine whose guards are the oracle's; what each event does and settles; one request alone on it is the sequential run |
| `RoutingScenario.dfy`, `CircuitBreaker.dfy`, `BreakerTransitions.dfy`, `RoutingTable.dfy`, `Selector.dfy` | time-driven circuit state; the breaker and what its transitions amount to; the provider records; the assembly selector against the oracle |
| `PathGrammar.dfy`, `PathLanguage.dfy`, `UrlAuthority.dfy`, `UrlLanguage.dfy`, `Json.dfy` | the path and URL checks and the credential sweep, and the languages they accept |
| `ConfigValidator.dfy`, `AcceptedConfig.dfy`, `ConfigAcceptance.dfy`, `SchemaVersion.dfy`, `ExampleDocument.dfy` | the configuration validator, what acceptance says about a document, the schema it enforces, and the repository's own example |
| `Deployment.dfy` | an accepted document meets the selector's preconditions |
| `AbiAudit.dfy`, `AbiWrites.dfy`, `AbiMachine.dfy`, `AbiSoundness.dfy` | the register audit, which instructions it counts as writes, a machine, and the audit's soundness on it |
| `CommentStripper.dfy`, `CommentGrammar.dfy` | the four-state C comment stripper, and the grammar of code, literals and comments it is proved against |
| `ControlFraming.dfy`, `ControlReplies.dfy`, `ControlConversation.dfy` | newline-delimited control frames in both directions, the script a whole connection follows, and both ends together |
| `Fnv.dfy` | FNV-1a over 64-bit states |

The model follows the source's form: what the source loops over or updates in place
is a method or a class proved against a function of its inputs, and the theorems are
about that function.

## Where the code differs from its documentation

In each case the model does what the code does.

- `parse_responses` promises that a wrong Content-Length fails (tests/http_harness.py:56-57).
  It slices, and it stops silently on bytes without a whole head.
  `ResponseStrictness.ShortBodyIsPaperedOver` gives a response that declares five bytes and
  comes back with one; `ResponseStrictness.ShortBodyIsReturnedIff` says exactly when a body of
  the wrong length is returned, and `ResponseStrictness.PapersOverIff` exactly when a stream
  that is not a concatenation of complete responses raises nothing.
- The register audit compares an epilogue's pops as a set (scripts/abi_audit.py:251).
  `AbiSoundness.ForwardPopsPassTheAudit` gives a body that passes, every run of which hands its
  caller r15 in rbp, with one run in full; `AbiSoundness.AuditedReturnKeepsIff` says exactly when
  an audited return gives the caller its registers back, and
  `AbiMachine.RestoresExactlyInReverseOrder` which order does so for every caller.
- The audit takes a function for a leaf when no listed mnemonic names a callee-saved register
  first (scripts/abi_audit.py:203-216). `AbiSoundness.UnseenWritePassesTheAudit` gives a leaf that
  loads rbx and passes; `AbiSoundness.LeafIsWritelessIff` says exactly what the audit's word on a
  leaf depends on.
- A half-open circuit is documented to have at most one probe in flight (include/routing.inc:110).
  A stale failure that reopens the circuit over a probe clears the counter, and a second
  probe can follow: `CircuitBreaker.TwoProbesInFlight`. `CircuitBreaker.CounterIsExactIff` and
  `CircuitBreaker.OneProbeIff` say exactly in which runs the counter is right and the promise kept.
- An open circuit is documented to receive nothing until its cooldown has elapsed, and a failed
  probe to reopen it with a longer one (docs/API_CONTRACT.md:306-312). A stale success clears the
  failure count of an open circuit, and a stale failure then makes the provider merely degraded:
  `CircuitBreaker.ClosedBeforeItsDeadline`. A failure of an attempt, or of a probe, on a circuit
  already open starts one plain cooldown in place of a stretched one:
  `CircuitBreaker.ShortenedByAFailedProbe`. `CircuitBreaker.EveryCooldownIsKeptIff` says exactly in
  which runs every cooldown is waited out, and `CircuitBreaker.FailedProbeStretchesIff` exactly when
  a failed probe stretches it.
- The selector's header says that nothing there allocates or mutates provider state
  (src/routing/routing_select.asm:17), but candidate filtering creates records for the providers
  it sees first and refreshes the circuits it looks at: `Selector.LookingMutates` shows one of
  each, and `Selector.FilteringMutatesIff` says exactly when the table changes.
- The provider table is documented to have room for every accepted configuration
  (include/routing.inc:26-27). Records outlive the configurations that named them, so after enough
  reloads it has not: `Selector.CrowdedOut`. `RoutingTable.AlwaysFoundIff` says exactly in which
  runs it does, and `Deployment.OwnRecordsLeaveRoom` that a first configuration always fits.
- The oracle admits a half-open target whose probe is already in flight and the daemon
  does not: `Selector.ProbedAlone` shows one. `Selector.CandidateParity` says exactly when the
  candidate lists agree, and `Selector.SelectionParityIff` exactly when the choices do.
- `schema_version` is compared with Python's `!=`, so `1.0` and `true` pass as well as `1`, and
  nothing else: `SchemaVersion.VersionReplacedIff` for every accepted document, and
  `ExampleDocument.ExampleIsAccepted` for the repository's smallest example in full.

## Model

| member | source | states |
|---|---|---|
| Bytes.FindStable | tests/http_harness.py:112-117 | a terminator once found stays the first one however many bytes follow |
| Chunked.FormatHex | tests/test_http_fragments.py:183-191 | the printed chunk size is `1*HEXDIG` and reads back as the same number, for every number |
| Chunked.NextChunkStable | tests/http_harness.py:112-136 | one chunk, terminator or error, once recognised, is the same under every extension, with the extension appended to what is left |
| Chunked.NextChunkIsAProduction | tests/http_harness.py:112-136 | one turn of the loop recognises a chunk, or the last one, if and only if the bytes in hand begin with that production of the grammar |
| Chunked.DecodeChunked | tests/http_harness.py:96-136 | the decoding loop computes the decoding of the whole input; running out of bytes is `Incomplete` in partial mode and an error in strict mode |
| Chunked.DecodeStable | tests/http_harness.py:96-136 | any answer other than `Incomplete` survives every later byte |
| Chunked.DecodesEveryBody | tests/http_harness.py:96-136 | completeness: every body of the chunked grammar, any spelling of the sizes, is decoded to its payload and the tail is handed back untouched |
| Chunked.DecodedWasRendered | tests/http_harness.py:96-136 | soundness: an answer exhibits a derivation in the grammar that produced it |
| Chunked.DecoderIsTheGrammar | tests/http_harness.py:96-136 | the decoder returns (body, rest) if and only if the input derives from the grammar with that payload and that rest |
| Chunked.PrefixIsIncomplete | tests/http_harness.py:96-136 | every proper prefix of a chunked body is `Incomplete`: no early answer and no error |
| Chunked.RoundTrip | tests/test_http_fragments.py:183-191 | for every cut into non-empty pieces and every tail, decoding the encoding plus tail gives exactly the body and the tail, and every proper prefix is `Incomplete` |
| Chunked.Cut | tests/test_http_fragments.py:185-187 | the stepped slices are non-empty, at most one step long, and spell the body |
| Chunked.EncodeChunked | tests/test_http_fragments.py:183-191 | what the encoding loop writes decodes to its body, whatever follows it on the wire |
| Responses.PrefixStable | tests/http_harness.py:139-182 | a parsed response stays parsed, and a rejected one rejected, under every extension of the stream |
| Responses.ResponseStream.Next | tests/http_harness.py:199-211 | the outcome is the parse of the pending bytes, however they are cut (`ResponseGrammar.ParsedIff` says which parse); a response consumes exactly its own bytes and a failure consumes none |
| Responses.ResponseStream.ReadAll | tests/http_harness.py:185-211 | calling `next` until it stops yields the same responses and the same leftover for every cutting of the stream |
| Responses.ParseResponses | tests/http_harness.py:53-89 | the loop computes the whole-stream parse, errors included; `ResponseGrammar.ChunkedResponse` and `ResponseGrammar.MeasuredResponse` say what that is on every message |
| Responses.Truncated | tests/http_harness.py:75-79 | the whole-stream parser answers where the incremental one waits only by slicing a body shorter than its declared length, at the very end |
| Responses.WholeFromTranscript | tests/http_harness.py:53-89 | on every byte stream the whole-stream parse is the incremental one followed by what it makes of the leftover |
| Responses.WholeAgainstIncremental | tests/http_harness.py:53-89 | on every byte stream the whole-stream parser returns exactly the incremental reader's responses if and only if the reader stopped cleanly with no complete head left over |
| Responses.CompleteResponses | tests/http_harness.py:53-89 | on a concatenation of complete responses both parsers return exactly those responses and nothing is left |
| Numerals.NaturalIff | tests/http_harness.py:78-82 | a status or a length is read as `n` if and only if it is a decimal spelling of `n`, leading zeros allowed |
| ResponseGrammar.ChunkSizeIff | tests/http_harness.py:121 | a chunk size is read as `n` if and only if it is a hexadecimal spelling of `n`, in either case, leading zeros allowed |
| ResponseGrammar.IncompleteIff | tests/http_harness.py:112-136 | the chunk decoder asks for more if and only if the bytes are whole chunks followed by one whose size line has no end or whose data are not all there |
| ResponseGrammar.ParsedIff | tests/http_harness.py:139-182 | for every decoder of heads and every byte string: a response is returned if and only if the bytes are its head, a blank line, and the body the header fields announce, which is chunked exactly under some capitalisation of `transfer-encoding: chunked` and otherwise as long as `content-length` says, or empty |
| ResponseGrammar.NeedMoreIff | tests/http_harness.py:139-168 | more bytes are asked for if and only if there is no blank line yet, or the announced body is not all there; everything else is an error |
| ResponseGrammar.ChunkedResponse | tests/http_harness.py:75-76 | a head with any capitalisation of the chunked coding, before any cutting of a body into chunks and any tail, is read as that body by both parsers, and on every proper prefix the stream reader waits |
| ResponseGrammar.MeasuredResponse | tests/http_harness.py:77-79 | a head without that coding, before as many bytes as it declares and any tail, is read as those bytes by both parsers, and on every proper prefix the stream reader waits |
| ResponseStrictness.ShortBodyIsReturnedIff | tests/http_harness.py:53-89 | a response whose body is not of its declared length is returned if and only if the stream ends in a whole head, not chunked, that declares more bytes than are left |
| ResponseStrictness.ResponseIsLocal | tests/http_harness.py:139-182 | a response is the parse of exactly the bytes it consumed |
| ResponseStrictness.CompleteIff | tests/http_harness.py:185-211 | the stream reader finishes with nothing left if and only if the stream is a concatenation of complete responses, and then returns those |
| ResponseStrictness.PapersOverIff | tests/http_harness.py:53-89 | exactly when nothing is raised although the stream is not a concatenation of complete responses: headless bytes are left over, or a head that declares more than follows it |
| ResponseStrictness.ShortBodyIsPaperedOver | tests/http_harness.py:53-89 | under any decoder that reads its head, a 200 response declaring five bytes and carrying one is returned with one byte |
| SseFramer.Scan | src/providers/provider_sse.asm:60-111 | the scanning loop computes the length of the first event |
| SseFramer.EventEndsAtFirstBlankLine | src/providers/provider_sse.asm:60-111 | an event ends with the first complete empty line under any mix of CR, LF and CRLF, and there is no event exactly when there is no such line |
| SseFramer.ScanStable | src/providers/provider_sse.asm:60-111 | a boundary once found does not move when more bytes arrive |
| SseFramer.FrameInParts | src/providers/provider_sse.asm:119-198 | framing a stream in two parts is framing the carry of the first with the second; an overflow is final |
| SseFramer.FrameConserves | src/providers/provider_sse.asm:119-198 | events and carry spell the input; no forwarded event exceeds the limit; exactly when the ceiling refuses |
| SseFramer.OneEventAtATime | src/providers/provider_sse.asm:119-198 | each forwarded event is exactly the first event of what was left when it was cut off: none is split and no two leave together |
| SseFramer.SentIsWithinLimit | src/providers/provider_sse.asm:215-252 | everything sent, the unterminated end of the stream included, is within the limit |
| SseFramer.AppendHex | src/providers/provider_exchange.asm:1125-1169 | the digits appended are the hexadecimal spelling of the value |
| SseFramer.Relay.EmitChunk | src/providers/provider_exchange.asm:1072-1117 | the outbox stays the chunked wire form of the events forwarded so far, with the new one last |
| SseFramer.Relay.Feed | src/providers/provider_sse.asm:119-198 | after any sequence of pieces the state is the framing of all bytes fed; a refusal is exactly the framing's overflow |
| SseFramer.Relay.Finish | src/providers/provider_sse.asm:215-252 | a client decoding the outbox gets every byte fed, or whole events only when the ceiling stopped the stream, and every event forwarded is within the limit |
| SseFramer.Relay.Transfer | src/providers/provider_exchange.asm:1377-1385 | over a whole transfer, what the client decodes depends on the bytes and the limit, not on how the network cut them |
| SseFramer.ClientDecodesAll | src/providers/provider_exchange.asm:1072-1117 | for every stream and limit the chunked wire form of what was sent decodes to exactly the bytes delivered |
| RouteOracle.Eligible | tests/route_oracle.py:38-57 | a candidate is in the result exactly when it is in the input and passes all six filters |
| RouteOracle.EligibleCandidates | tests/route_oracle.py:38-57 | the filtering loop computes the eligible list, in input order |
| RouteOracle.MinIsLeast | tests/route_oracle.py:60-85 | the selected candidate has the least key of its policy |
| RouteOracle.SelectionIsStable | tests/route_oracle.py:60-85 | with distinct indexes the choice depends neither on input order nor on any candidate that was not chosen |
| RouteOracle.LeastLatencyRanks | tests/route_oracle.py:73-85 | a half-open candidate is chosen only when all are; an unmeasured one only when no measured one shares its rank; among measured ones the fastest |
| RouteOracle.LatencyKeyOrder | tests/route_oracle.py:77-84 | the tuple comparison, as a decision on state, measurement, latency and configuration order |
| RouteOracle.SentinelIrrelevant | tests/route_oracle.py:77-84 | replacing the 2^63-1 placeholder by any number never changes a choice |
| RouteOracle.SortSorts | tests/route_oracle.py:66-70 | the sort puts candidates in key order |
| RouteOracle.SortedIsUnique | tests/route_oracle.py:66-70 | with distinct indexes there is only one sorted arrangement |
| RouteOracle.RoundRobinIgnoresOrder | tests/route_oracle.py:66-70 | round robin sees the set of candidates, never the order of the list |
| FallbackOrder.MarkingRemoves | tests/route_oracle.py:38-57 | marking a target as tried removes it from the eligible list and changes nothing else |
| FallbackOrder.SelectedThenRest | tests/route_oracle.py:60-85 | the selected candidate heads the sorted eligible list, and sorting the rest gives its tail |
| FallbackOrder.FailingRunIsAPrefixOfTheOrder | tests/route_oracle.py:38-120 | the targets a failing request tries are a prefix of the eligible candidates in policy order, ending where fallback is first refused; at most `max_attempts`, and exactly that many when every failure is retryable and there are enough |
| FallbackOrder.BudgetBinds | tests/route_oracle.py:103-120 | a run that follows the order is as long as the budget and the candidates allow, and no longer |
| RoundRobin.HitsBounds | tests/route_oracle.py:66-70 | any m consecutive cursors meet each residue modulo n between floor(m/n) and ceil(m/n) times |
| RoundRobin.RoundRobinIsFair | tests/route_oracle.py:66-70 | over any m consecutive cursors each of n candidates is picked floor(m/n) or ceil(m/n) times, whatever the order of the list |
| Gateway.ChosenIsFresh | tests/route_oracle.py:38-101 | under any policy a chosen target is untried, in range, and its provider is below its ceiling |
| Gateway.ClaimKeeps | src/providers/provider_exchange.asm:359-541 | recording a target as tried and claiming its slot keeps the invariant |
| Gateway.ReleaseKeeps | src/providers/provider_exchange.asm:563-627 | the single release keeps the invariant: it gives back exactly the slot held |
| Gateway.StepKeeps | src/providers/provider_exchange.asm:359-670 | every event of every request, under the route's own retryable list, and every change of provider health, latency or capabilities, keeps the invariant |
| Gateway.RunsAreSafe | tests/test_routing_concurrency.py:98-253 | in every interleaving from an idle gateway no target is tried twice, no budget is exceeded, each provider's `active` is the number of attempts holding it and within the ceiling, and zero once nothing is in flight |
| Gateway.SettledForGood | tests/test_fallback_invariant.py:195-232 | once a request is committed, cancelled or ended, no interleaving of later events makes another attempt |
| Gateway.FailureSettles | src/providers/provider_exchange.asm:629-670 | after a failure the route or the oracle does not retry, that follows a commit, is over budget or has fallback off, no later event makes another attempt |
| GatewayEvents.EligibleIff | tests/route_oracle.py:38-57 | the oracle chooses among exactly the targets that are untried, enabled, below their ceiling, in a state that admits, and serve the family and the capabilities, and is told of each what the world says at that moment |
| GatewayEvents.AttemptDoes | src/providers/provider_exchange.asm:359-541 | an attempt goes to the target the oracle selects, remembers it, claims one slot of its provider, and touches nothing else; with none to select the request is over |
| GatewayEvents.CommitDoes | src/providers/provider_exchange.asm:629-650 | a commit is remembered, and changes nothing else |
| GatewayEvents.CancelDoes | src/providers/provider_exchange.asm:563-627 | a cancel ends the request, is remembered, and gives back the one slot an attempt in flight held |
| GatewayEvents.SucceedDoes | src/providers/provider_exchange.asm:563-627 | a success ends the request and gives back its one slot |
| GatewayEvents.FailDoes | src/providers/provider_exchange.asm:563-670 | a failure gives back the one slot, and the request may try again if and only if it has neither committed nor been cancelled, falls back, has attempts left, the failure is one of the six kinds and on its route's list, and a target is left |
| GatewayEvents.ObserveDoes | tests/test_routing_concurrency.py:98-253 | a change of a provider replaces what is known of it except its load, and touches no request |
| GatewayEvents.StrayEventsDoNothing | src/providers/provider_exchange.asm:563-627 | an event about a request that is not there or not in the phase for it, as a second release would be, changes nothing |
| GatewayEvents.NothingAfterCommit | src/providers/provider_exchange.asm:629-650 | from a commit on, in every interleaving, the request tries no further target |
| GatewayEvents.NothingAfterCancel | tests/test_fallback_invariant.py:195-232 | from a cancel on, in every interleaving, the request tries no further target |
| GatewayEvents.NothingAfterSuccess | tests/test_fallback_invariant.py:195-232 | from a success on, in every interleaving, the request tries no further target |
| Gateway.LiveEventsCountDown | tests/test_fallback_invariant.py:263-285 | whatever else happens, an event that changes a request strictly lowers its remaining count |
| Gateway.RequestsTerminate | scripts/gate_m7.py:257-284 | in every run a request over n targets changes at most 3n + 1 times |
| SingleRequest.GatewayIsSequential | tests/test_fallback_invariant.py:157-232 | given rounds enough, the targets the gateway tries for one request alone, every attempt failing, are exactly those of the sequential run of `FallbackOrder`, in order |
| RoutingScenario.ToOracle | tests/test_routing_parity.py:85-113 | the loop builds the oracle's view of every entry, in order, with the state read at the scenario's clock |
| RoutingScenario.TimeOnlyAdmits | tests/test_routing_parity.py:78-113 | the eligible list at an earlier time is a subsequence of the list at any later one |
| Selector.RequiredIsSubset | src/routing/routing_select.asm:86-233 | the capability mask test is set inclusion |
| Selector.RouteCandidates | src/routing/routing_select.asm:86-233 | the loop lists exactly the targets that pass, in order, and leaves the table as looking up the provider of every target past the static filters leaves it: records created while there is room, circuits refreshed |
| Selector.FilteringMutatesIff | src/routing/routing_select.asm:86-233 | filtering changes the table if and only if some target past the static filters names a provider whose cooldown has ended, or one without a record while there is room for it |
| Selector.LookingMutates | src/routing/routing_select.asm:17 | a provider whose open circuit filtering makes half-open, and one whose record filtering creates |
| Selector.AvailabilityAgrees | src/routing/routing_health.asm:320-363 | the daemon's health and ceiling test is the oracle's, less circuits with a probe in flight |
| Selector.FilterAgrees | src/routing/routing_select.asm:86-233 | target by target, the daemon lists what the oracle finds eligible, except a half-open circuit already being probed and a provider there is no room for |
| Selector.CandidateParity | tests/test_routing_parity.py:389-398 | on every validated input the two candidate lists are equal if and only if no eligible target is blocked by a probe in flight or a full table |
| Selector.IdCompare | src/routing/routing_select.asm:43-72 | the byte loop's sign is the lexicographic order, and zero exactly on equal identifiers |
| Selector.BeatsPriority | src/routing/routing_select.asm:241-264 | the comparator is the oracle's tuple order for priority |
| Selector.BeatsLatency | src/routing/routing_select.asm:279-335 | the comparator is the oracle's tuple order for least latency, without its sentinel |
| Selector.Best | src/routing/routing_select.asm:350-411 | the comparison loop finds the first record nothing later beats |
| Selector.BestAgrees | src/routing/routing_select.asm:350-411 | that record is the oracle's minimum |
| Selector.EmittedIsSorted | src/routing/routing_select.asm:350-411 | the emitted order is the sorted order, so round robin needs no sort |
| Selector.RouteSelect | src/routing/routing_select.asm:350-411 | the selection routine returns the policy's index, or -1 on no candidates |
| Selector.ChoiceAgrees | tests/test_routing_parity.py:400-409 | on every validated input the daemon's choice is the oracle's among the targets the daemon listed |
| Selector.SelectionParity | tests/test_routing_parity.py:400-409 | with no eligible target blocked daemon and oracle choose alike under every policy and cursor |
| Selector.SelectionParityIff | tests/test_routing_parity.py:400-409 | on every validated input and under every policy daemon and oracle choose alike if and only if the blocked targets leave the choice unaffected: for a ranking policy the oracle's choice is free; for round robin it is free and as many free candidates precede it as the daemon's cursor counts |
| Selector.ProbedAlone | tests/test_routing_parity.py:389-409 | a half-open provider with its probe in flight: the oracle chooses it and the daemon lists nothing, under every policy |
| Selector.RoomyBlocksOnlyProbes | src/routing/routing_health.asm:160-220 | with room for the configuration's providers beside the records there are, a probe in flight is the only thing that blocks a target |
| Selector.CrowdedOut | include/routing.inc:26-28 | after 256 other providers have been seen, the oracle chooses the one provider configured and the daemon lists nothing, under every policy |
| RoutingTable.LooksAreInvisible | src/routing/routing_health.asm:160-220 | lookups up to some time leave every circuit as a look at that time would find it |
| RoutingTable.LookupsChangeIff | src/routing/routing_health.asm:160-220 | a run of lookups changes the table if and only if one of them finds an expired cooldown, or no record and room for one |
| RoutingTable.AlwaysFoundIff | include/routing.inc:26-28 | every lookup of a run, over however many requests and configurations, finds or makes a record if and only if the providers ever seen number at most 256 |
| RoutingTable.NoRoomForAnother | docs/decisions/0012-routing-state-outlives-the-snapshot.md:56-64 | 256 lookups after which another provider gets no record |
| Deployment.AcceptedRoutesAreServable | tests/config_corpus.py:391-566 | every route of an accepted document meets the selector's preconditions, whatever the runtime state |
| Deployment.AcceptedDocumentsRouteAlike | tests/test_routing_parity.py:400-409 | for every accepted document daemon and oracle route alike if and only if the blocked targets leave the choice unaffected, as they do when there are none |
| Deployment.OwnRecordsLeaveRoom | include/routing.inc:26-28 | for every accepted document, while the daemon's records are all its own, every target's provider has a record or is given one |
| CircuitBreaker.Ewma | src/routing/routing_health.asm:422-453 | the average lies between the previous one and the observation, and is never the "unknown" zero |
| BreakerTransitions.AverageWeighs | src/routing/routing_health.asm:422-453 | four times the new average is three times the old one plus the observation, less the remainder of the division; the first observation is the average; an observation of zero counts as one |
| CircuitBreaker.StretchBounds | src/routing/routing_health.asm:512-586 | the doubled cooldown never shrinks and stays between one and sixteen cooldowns |
| CircuitBreaker.RefreshComposes | src/routing/routing_health.asm:320-337 | looking at a circuit on the way makes no difference to what a later look finds |
| CircuitBreaker.EndUndoesBegin | src/routing/routing_health.asm:372-418 | ending an attempt, with the answer its beginning gave, takes back all that beginning it did |
| CircuitBreaker.ConsecutiveFailures | docs/API_CONTRACT.md:303-305 | consecutive failures of a closed circuit degrade it below the threshold, and from the threshold on it is open for one cooldown from the latest |
| CircuitBreaker.ConsecutiveSuccesses | docs/API_CONTRACT.md:309 | consecutive successes close a degraded or half-open circuit exactly when, with those already counted, they reach the threshold |
| BreakerTransitions.FailureStartsOver | src/routing/routing_health.asm:460-586 | after a failure that degrades, closing takes the whole threshold of successes in a row, however many came before |
| BreakerTransitions.CooldownStartsOver | src/routing/routing_health.asm:320-340 | after a cooldown, closing and forgetting the back-off takes the whole threshold of successes |
| BreakerTransitions.SuccessStartsOver | src/routing/routing_health.asm:460-510 | after one success of a closed circuit, opening takes the whole threshold of failures |
| BreakerTransitions.AdmittedIff | src/routing/routing_health.asm:341-395 | a request is admitted if and only if the circuit is closed, or half-open with no probe counted, or open with its deadline reached, and goes out as a probe in the last two cases |
| BreakerTransitions.CancelOnlyReleases | src/providers/provider_exchange.asm:563-627 | a cancelled attempt gives its place back and leaves the provider's record otherwise as it was |
| BreakerTransitions.DisabledForGood | docs/API_CONTRACT.md:313-314 | in every run a disabled provider stays disabled and gets no request |
| CircuitBreaker.FailedProbesBackOff | docs/API_CONTRACT.md:310-312 | the n-th failed probe in a row leaves 2^n cooldowns to wait, up to sixteen |
| CircuitBreaker.EveryRun | src/routing/routing_health.asm:320-586 | in every run from the start the concurrency counter is exact, the probe counter at most one, a closed circuit below its threshold, an open one due between one and sixteen cooldowns after it opened, and no outcome disables a provider |
| CircuitBreaker.ExactUnlessOpenedOver | src/routing/routing_health.asm:512-586 | the probe counter stays exact across a step if and only if the step is not an ordinary attempt's failure that trips the circuit while a probe is in flight, read off the state before it |
| CircuitBreaker.CounterIsExactIff | src/routing/routing_health.asm:372-586 | in every run the counter is exact throughout if and only if no event is such a failure |
| CircuitBreaker.OneProbeIff | include/routing.inc:110 | in every run at most one probe is in flight throughout if and only if no request arrives while one is and the circuit is open past its deadline, or half-open with the counter at zero |
| CircuitBreaker.OneProbeUnlessOpenedOver | include/routing.inc:110 | in particular, a run in which no ordinary failure opens the circuit over a probe has at most one probe in flight throughout |
| CircuitBreaker.TwoProbesInFlight | include/routing.inc:110 | a run with two probes in flight, under limits the validator accepts |
| CircuitBreaker.EveryCooldownIsKeptIff | docs/API_CONTRACT.md:305-312 | in every run the circuit is open until the latest deadline it was ever given if and only if no attempt fails before the deadline of an open circuit with the failure count too low to trip again, or with more than one plain cooldown left |
| CircuitBreaker.CoolingAdmitsNothing | docs/API_CONTRACT.md:306-307 | while every cooldown has been kept, a request before the deadline changes nothing but the clock |
| CircuitBreaker.ClosedBeforeItsDeadline | src/routing/routing_health.asm:460-586 | under limits the validator accepts, a run in which a stale success and a stale failure leave an open circuit degraded with its cooldown still to run |
| CircuitBreaker.FailedProbeStretchesIff | docs/API_CONTRACT.md:310-312 | a failed probe leaves the circuit open for the stretched cooldown if and only if the circuit is still half-open when it fails |
| CircuitBreaker.ShortenedByAFailedProbe | docs/API_CONTRACT.md:306-312 | under limits the validator accepts, a run in which a failed probe shortens the cooldown and the next request is admitted before the deadline first given |
| PathGrammar.CheckPath | tests/config_corpus.py:157-184 | the scanning loop computes the verdict of tokenise, expand and judge |
| PathGrammar.AcceptanceIsTheGrammar | tests/config_corpus.py:157-184 | accepted if and only if the text decomposes into permitted characters and references whose placeholder expansion is absolute and free of `..`; the decomposition is unique |
| PathLanguage.VerdictIff | tests/config_corpus.py:157-184 | each of the four verdicts, if and only if: no decomposition, or the expansion does not start with a slash, or climbs, or neither |
| PathLanguage.ParentIff | tests/config_corpus.py:182-184 | splitting at slashes finds a parent component if and only if `..` stands in the path between slashes or the ends |
| PathLanguage.CharacterIff | tests/config_corpus.py:162-169 | a character may stand for itself if and only if it is not a backquote, a newline, a carriage return, a NUL or a dollar sign |
| PathLanguage.NameIff | tests/config_corpus.py:170-177 | `${NAME}` is accepted if and only if the name is one of the five |
| PathGrammar.VerdictIsReal | tests/config_corpus.py:157-184 | in a safe environment the verdict on the placeholder expansion is the verdict on the real one |
| PathGrammar.UnsafeValueIsExposed | tests/config_corpus.py:157-184 | every unsafe value of a variable is exposed by some accepted path |
| PathGrammar.SafeExactlyInSafeEnvironments | tests/config_corpus.py:157-184 | acceptance guarantees a safe real path if and only if every value is absolute, has no `..`, and ends in a component that is neither empty nor `.` |
| UrlAuthority.CheckUrl | tests/config_corpus.py:187-238 | the checks in the source's order compute scheme, host and policy verdict, errors included |
| UrlAuthority.ExtractionInvertsRendering | tests/config_corpus.py:192-217 | for every scheme, plain or bracketed host, optional port and tail, exactly that host is recovered (section 3.2 of RFC 3986) |
| UrlAuthority.VerdictIgnoresPortAndTail | tests/config_corpus.py:187-238 | the verdict is the policy on scheme and host; port and tail cannot change it |
| UrlAuthority.PlaintextStaysPrivate | tests/config_corpus.py:219-238 | every accepted plain-HTTP URL, well formed or not, has a loopback host or a private literal with the flag set |
| UrlLanguage.OriginIff | tests/config_corpus.py:187-217 | for every string: scheme and host are read if and only if it is made of permitted characters, the scheme, a non-empty authority without `@` up to the first slash or question mark, and that host once port and brackets are off |
| UrlLanguage.PermittedIff | tests/config_corpus.py:187-238 | for every string: the URL is let out if and only if it has such an origin that is encrypted, or the loopback, or a private address with the flag set |
| UrlLanguage.DottedQuads | tests/config_corpus.py:38-43 | the private IPv4 blocks and the loopback address, octet by octet |
| UrlLanguage.FirstGroups | tests/config_corpus.py:44-47 | the private IPv6 blocks by their first sixteen bits |
| CredentialSweep.SweepFindsFirst | tests/config_corpus.py:143-154 | rejects if and only if some object at any depth holds a key whose lower-case form names a credential, the Kelvin sign included, and points at the first one in document order |
| CredentialSweep.CredentialIff | tests/config_corpus.py:49-52 | a key names a credential if and only if it is one of the eleven words in any mixture of small letters and capitals |
| ConfigValidator.CheckDistinct | tests/config_corpus.py:497-505 | the duplicate-rejecting loop computes its fold, for every list it is used on |
| ConfigValidator.DistinctMeans | tests/config_corpus.py:497-505 | that fold accepts if and only if every entry is permitted and none repeats, and then holds exactly the entries |
| ConfigValidator.ValidateProviders | tests/config_corpus.py:391-464 | the provider loop computes the provider table or the first error |
| ConfigValidator.ProvidersAccepted | tests/config_corpus.py:391-464 | an accepted table has one row per entry, unique ids, permitted URLs, and exactly the capabilities advertised |
| ConfigValidator.ResolveTargets | tests/config_corpus.py:508-541 | the target loop computes the resolved targets or the first error |
| ConfigValidator.TargetsAccepted | tests/config_corpus.py:508-541 | every resolved index names the provider its target asked for |
| ConfigValidator.RouteAlone | tests/config_corpus.py:470-566 | a route's verdict depends on the names already taken only through its own id and alias |
| ConfigValidator.ValidateRoutes | tests/config_corpus.py:466-566 | the route loop computes the route table or the first error; `ConfigAcceptance.RoutesIff` says which sections it accepts |
| ConfigValidator.RoutesAcceptedIff | tests/config_corpus.py:466-566 | the route section is accepted if and only if every route is acceptable with no names taken and no two share an id or an alias |
| ConfigValidator.RoutesAccepted | tests/config_corpus.py:466-566 | accepted rows are the document's routes: unique ids and aliases, the document's families and `max_attempts`, the latter in 1..targets, targets that resolve, and a responses-capable target where one is needed |
| ConfigValidator.ServersAccepted | tests/config_corpus.py:568-695 | accepted rows are the document's servers: unique ids, disjoint stdio `env` and `env_allow`, and an HTTP server's URL within the policy |
| ConfigValidator.Validate | tests/config_corpus.py:274-695 | the loops of `validate`, section by section, compute its verdict; `ConfigAcceptance.ValidatedIff` says which documents it accepts |
| ConfigValidator.AcceptedDocument | tests/config_corpus.py:274-695 | the accepted settings and tables are those of the document, field by field, and keep every rule |
| AcceptedConfig.AcceptedDocumentIsSound | tests/config_corpus.py:274-695 | of every accepted document itself: no credential key at any depth, every path in the grammar, no unauthenticated listener off the loopback, unique names, every target naming a provider, every responses route one that advertises responses, `max_attempts` within the targets, disjoint environment names, and every outbound URL within the policy |
| AcceptedConfig.ProvidersAcceptedIff | tests/config_corpus.py:391-464 | the provider section is accepted if and only if every provider is acceptable on its own and no two share an id |
| AcceptedConfig.ServersAcceptedIff | tests/config_corpus.py:568-695 | the server section is accepted if and only if every server is acceptable on its own and no two share an id |
| ConfigAcceptance.IdIff | tests/config_corpus.py:31 | the identifier predicate is the regular expression, class by class |
| ConfigAcceptance.EnvIff | tests/config_corpus.py:32 | the variable-name predicate is the regular expression with the length bound |
| ConfigAcceptance.AliasIff | tests/config_corpus.py:33 | the alias predicate is the regular expression |
| ConfigAcceptance.HeaderIff | tests/config_corpus.py:34 | the header-name predicate is the regular expression |
| ConfigAcceptance.AuthIff | tests/config_corpus.py:241-263 | an authentication policy is accepted if and only if it is one of the three kinds with exactly its own keys, variable and header names |
| ConfigAcceptance.SettingsIff | tests/config_corpus.py:290-389 | listener, control, storage, logging and limits are accepted if and only if every field is present, of its type, in its range, and no other key is there |
| ConfigAcceptance.ProviderIff | tests/config_corpus.py:395-464 | a provider is acceptable on its own if and only if every field follows the schema |
| ConfigAcceptance.ProvidersIff | tests/config_corpus.py:391-464 | the provider section is accepted if and only if every entry follows the schema and no two share an id |
| ConfigAcceptance.RouteIff | tests/config_corpus.py:470-566 | a route is acceptable on its own if and only if every field follows the schema over the document's providers; a target that advertises responses is asked for only by a responses route |
| ConfigAcceptance.RoutesIff | tests/config_corpus.py:466-566 | the route section is accepted if and only if every entry follows the schema and no two share an id or an alias |
| ConfigAcceptance.ServerIff | tests/config_corpus.py:572-695 | a server is acceptable on its own if and only if every field follows the schema of its transport |
| ConfigAcceptance.ServersIff | tests/config_corpus.py:568-695 | the server section is accepted if and only if every entry follows the schema and no two share an id |
| ConfigAcceptance.ValidatedIff | tests/config_corpus.py:274-695 | `validate` accepts a document if and only if it follows the schema, stated of the document alone with the source's keys, choices and ranges |
| SchemaVersion.RootAcceptedIff | tests/config_corpus.py:274-288 | a document gets past the root if and only if it is an object without credential keys, with permitted keys, and with `1`, `1.0` or `true` for its version |
| SchemaVersion.VersionReplacedIff | tests/config_corpus.py:286-288 | in every accepted document, replacing the version keeps it accepted if and only if the new one is `1`, `1.0` or `true` |
| ExampleDocument.ExampleIsAccepted | examples/asmflow.minimal.json:1-107 | the repository's smallest example, one provider and a chat route, is accepted, and with each of those three versions |
| AbiAudit.WrittenCalleeSaved | scripts/abi_audit.py:199-217 | the set collected is exactly the registers written after the skipped instructions |
| AbiWrites.WrittenIff | scripts/abi_audit.py:39-66 | an instruction counts as writing a register if and only if its mnemonic, up to a dot, is one of the listed ones or a conditional move, and its first operand is one of the register's names at any width |
| AbiAudit.HasExpectedPrologue | scripts/abi_audit.py:220-230 | true exactly when the body starts with the seven saving instructions |
| AbiAudit.WalkBack | scripts/abi_audit.py:241-252 | the backwards walk succeeds exactly when the six preceding instructions pop the expected registers, in any order |
| AbiAudit.EpilogueIsComplete | scripts/abi_audit.py:233-253 | true exactly when every `ret` is preceded by six such pops |
| AbiAudit.AuditFunction | scripts/abi_audit.py:273-288 | each of the four judgements on one function, if and only if: the prologue with or without complete returns, no prologue with or without a write |
| AbiAudit.Tally | scripts/abi_audit.py:264-288 | the counting loop reports exactly the violating functions and counts as framed the audited functions with the prologue and as leaves those without it that write nothing |
| AbiAudit.Audit | scripts/abi_audit.py:256-310 | passes if and only if no rule is broken, reports exactly the broken ones, and on success `framed` is the number of audited functions with the prologue and `leaves` the number without |
| AbiMachine.FramedReturns | include/abi.inc:41-65 | whatever a framed function did, it returns with its registers loaded from the saved values in the order its own pops name |
| AbiMachine.RestoresExactlyInReverseOrder | scripts/abi_audit.py:241-252 | six distinct pops restore every caller's registers if and only if they are in reverse push order |
| AbiMachine.FramedKeepsIff | include/abi.inc:41-65 | one framed activation gives its caller the registers back if and only if each popped register already held the value saved in its place |
| AbiMachine.DisciplinePreserves | include/abi.inc:41-65 | every finite call tree of framed functions and leaves, with arbitrary jumps in leaves and outside the return sequences of framed functions, preserves all six registers |
| AbiSoundness.PassedIsDisciplined | scripts/abi_audit.py:256-310 | every function of a binary that passes the audit saves and pops all six registers, or, where the audit sees what leaves write, writes none, whatever the processor's write sets |
| AbiSoundness.CalleeSavedArePreserved | scripts/abi_audit.py:50-66 | for every assignment of write sets to instructions, on a binary that passes the audit, whose leaves write only what the audit sees and whose framed returns pop in order, every finite call tree returns with the six callee-saved registers unchanged |
| AbiSoundness.LeafIsWritelessIff | scripts/abi_audit.py:199-217 | a function the audit takes for a leaf writes none of the six registers if and only if no instruction of it writes one unseen |
| AbiSoundness.UnseenWritePassesTheAudit | scripts/abi_audit.py:199-217 | a leaf loading rbx by a mnemonic that is not listed passes the audit, and has a run that changes its caller's rbx |
| AbiSoundness.AuditedReturnKeepsIff | scripts/abi_audit.py:233-253 | the same for every activation of a function the audit passes as framed: six distinct pops, and the exact condition on the caller's registers |
| AbiSoundness.ForwardPopsPassTheAudit | scripts/abi_audit.py:241-252 | a body that passes the audit, every run of which hands its caller r15 in rbp, and a legal run that exchanges all six registers |
| CommentStripper.StripComments | scripts/gate_m11.py:151-196 | the four-state loop computes the stripping function, unterminated comments and literals included; `CommentGrammar.StripKeeps` says what that is on every text |
| CommentStripper.Idempotent | scripts/gate_m11.py:151-196 | stripping twice is stripping once, from every state |
| CommentStripper.NoOpenerLeft | scripts/gate_m11.py:151-196 | the output has no comment opener outside a literal |
| CommentStripper.FixedPoints | scripts/gate_m11.py:151-196 | text is unchanged if and only if it has no comment opener outside a literal |
| CommentStripper.NewlinesPreserved | scripts/gate_m11.py:151-196 | the number of newlines is preserved |
| CommentGrammar.EveryTextParses | scripts/gate_m11.py:151-196 | every text is a series of code characters, literals, line comments and block comments, the last piece perhaps unterminated |
| CommentGrammar.StripKeeps | scripts/gate_m11.py:151-196 | on every such series the result is its code, its literals, and the newlines of its comments, in order |
| CommentGrammar.LiteralsSurvive | scripts/gate_m11.py:151-196 | the result is again such a series, with exactly the literals of the text, in order, and no comment |
| ControlFraming.LinesConcat | tests/mock_control_server.py:191-221 | the lines of a concatenation are the lines of the first part, then those of its unfinished tail with the second |
| ControlFraming.Server.Drain | tests/mock_control_server.py:206-212 | every complete frame in the buffer is dispatched in order and the unfinished rest kept |
| ControlFraming.Server.HandleClient | tests/mock_control_server.py:191-221 | for every fragmentation exactly the non-empty frames of the bytes admitted are dispatched, in order, until one closes the connection |
| ControlFraming.ServedConcat | tests/mock_control_server.py:191-221 | serving frames in two batches is serving them in one |
| ControlFraming.BoundNeverTrips | tests/mock_control_server.py:196-205 | when no line is longer than the bound less one `recv`, no fragmentation overfills the buffer |
| ControlFraming.SequencesAdvance | tests/mock_control_server.py:253-274 | the per-method counters equal the requests served, in every run |
| ControlReplies.LinesSpell | tests/mock_control_server.py:206-208 | the lines, each with its newline, and the unfinished rest spell the stream |
| ControlReplies.NonEmptyKeeps | tests/mock_control_server.py:209-210 | empty frames are skipped and every other kept in its place |
| ControlReplies.AdmittedUpToTheFirst | tests/mock_control_server.py:203-205 | pieces are taken up to the first that, with the unfinished line before it, exceeds a megabyte |
| ControlReplies.DispatchSends | tests/mock_control_server.py:223-274 | one request is answered with what the script holds for the number of requests already served, under the request's id or the reply's own, raw bytes with one newline at the end, or the connection is closed |
| ControlReplies.ScriptIsFollowed | tests/mock_control_server.py:191-274 | over a whole connection every frame is answered as the script says for its place among the requests of its name, and the first that is due a close ends it |
| ControlFraming.RepliesCorrelate | tests/mock_control_server.py:223-274 | without overrides every frame is answered and the i-th line the client can read carries the i-th request's id |
| ControlFraming.Client.ReadFrame | tests/control_client.py:48-55 | returns the next line of what the server sent, whatever its fragmentation, and loses nothing after it |
| ControlConversation.ReadAllFrames | tests/control_client.py:48-55 | reading until the stream ends yields exactly the lines sent, in order |
| ControlConversation.Converse | tests/control_client.py:48-75 | server and client together, the requests and the replies each cut in any way: one reply per request, the i-th with the i-th request's id |
| ControlFraming.Client.Call | tests/control_client.py:57-75 | one request line out, one reply line in, accepted only with the request's own id |
| ControlFraming.GeneratedIdsDiffer | tests/control_client.py:57-75 | generated request ids never repeat |
| Fnv.Hash | tests/test_cli_contract.py:27-33 | the byte loop computes the fold and stays below 2^64 |
| Fnv.XorIsBitwise | tests/test_cli_contract.py:27-33 | a bit of the exclusive or is set if and only if the two differ in it |
| Fnv.KnownHashes | tests/test_cli_contract.py:27-33 | the hashes of the empty payload and of the letter `a` |
| Fnv.MixIsBijective | tests/test_cli_contract.py:27-33 | each step is a bijection on 64-bit states, with its inverse |
| Fnv.FoldConcat | tests/test_cli_contract.py:27-33 | hashing a concatenation is hashing the second part from the first part's state |
| Fnv.FoldIsBijective | tests/test_cli_contract.py:27-33 | for every payload hashing is a bijection on 64-bit states |
| Fnv.OneByteNeverCollides | tests/test_cli_contract.py:27-33 | equal-length payloads that differ in exactly one byte hash differently |

## Left out

- HTTP head decoding (latin-1, header stripping and overwriting) is one function parameter shared by both parsers.
- Python's `int()` on a chunk size or a length with signs, blanks, underscores or a `0x` prefix: treated as an error.
- `ipaddress` parsing and the JSON text codecs are function parameters; a JSON value is its tree.
- Unhashable JSON values in Python set membership, where the validator raises `TypeError`: treated as rejections.
- Which of several broken rules a rejection names: the checks are made in the source's order with its pointers and rules, but what is proved of `validate` is which documents it accepts.
- AbiSoundness.CalleeSavedArePreserved: takes as hypotheses that pops are in reverse push order, that leaves write only registers the audit sees, that in framed functions save slots are not overwritten and jumps do not land past the first pop of a return sequence, that rsp is back at the return address at `ret`, and that callees outside the audit set preserve registers; the audit does not see these.
- Reading `objdump` and `nm` output (`parse_functions` and the symbol lists): a function is a list of mnemonics with trimmed operands. Tail jumps out of a function and indirect control flow are not modelled.
- The selector's output array is as long as its only caller makes it, 64 records, so it never fills before the targets end.
- A failed allocation when a provider's record is created, which the daemon treats like a full table.
- 64-bit wrap-around of breaker counters and deadlines: the configuration keeps them far below it.
- SSE client disconnects, back-pressure and buffer allocation failures.
- `strip_asm_comments`, the other gate scripts, and the suites that drive an external binary: they search text and start processes.
- src/ffi C shims, storage, MCP supervision, the terminal interface and the command line: forwarding, sockets and process control.
