# Lightbridge governance: a verified model

Dafny models of the parts of the governance platform whose correctness is a statement about whole
runs: what a redacted stream lets through, how long a revoked credential may still be accepted, what
an interrupted process leaves on disk, what a chunked protocol makes of its input. Each model does
what the code does, branch by branch, and the theorems are about every input, every chunking, every
interleaving or every point of interruption.

`dafny verify dfyconfig.toml` checks everything. Automatic induction is switched off throughout;
every induction is written out.

| file | models |
|---|---|
| `Utf8.dfy` | UTF-8 as section 4 of RFC 3629 defines it, and the decoder that carries a split character over to the next chunk |
| `RedactEngine.dfy`, `LawfulDetector.dfy` | the redaction engine over an abstract analyzer, the laws asked of that analyzer, and an analyzer that obeys them |
| `HoldBack.dfy`, `PromptRelease.dfy` | the streaming redactor for plain text: what it never lets go, and what it lets go at once |
| `SseChunk.dfy` | the fields of a parsed completion chunk, and which of them a write reaches |
| `FieldRedactor.dfy`, `SseFrames.dfy`, `SseHoldBack.dfy`, `SseDelivery.dfy`, `SseSafety.dfy` | the streaming redactor for SSE completions: one field, the frames and what they wait for, all fields of all frames, what the client receives, and what it never receives |
| `GatewayStream.dfy`, `GatewaySse.dfy` | the gateway's streaming loop over any scanner, and over the SSE redactor |
| `ResolveCache.dfy`, `ResolveTrace.dfy` | the credential-resolving endpoint: concurrent lookups, a cache, a clock, revocations, failures; what each request is answered and why |
| `IdentityMap.dfy` | the bitemporal identity map, the directory sync, the live and the historical mismatch rules |
| `SessionStore.dfy` | load, store and clear of a session as file-system steps with failures and kills |
| `ConfigLayers.dfy`, `ConfigPrecedence.dfy` | layered configuration and the persister that writes it back; which layer each setting comes from |
| `Freshness.dfy` | when a token is handed out and when it is renewed |
| `Catalogue.dfy` | the editor's single-flight model catalogue |
| `SseStream.dfy`, `SseStandard.dfy` | the editor's SSE framer, tool-call accumulator and stream pump; the framer against the line endings of the SSE standard |
| `WireMessages.dfy` | the editor's outgoing message mapping and token estimate |
| `Lines.dfy`, `SpoolExcision.dfy` | newline-terminated records, and cutting a refused run out of the telemetry spool |
| `Common.dfy` | options, results and sequence facts |

## Foreign code

Parsers, regular expressions, digests, SQL and the network appear as arbitrary functions or as
choices a run makes, under laws that are stated where they are used:

- The PII analyzer is any function from text to detections. Refinement of the batch scan asks four
  things of it (`RedactEngine.Lawful`): its spans are disjoint, in order and on character boundaries;
  the anonymizer puts each through one operator, its entity's in the table or else the default; what begins before an offset is settled once
  `lookahead` more bytes are there; and a cut through no span separates the text into two that are
  detected independently. `LawfulDetector.PairEngineIsLawful` shows the laws can be met, by an engine
  that rewrites and blocks.
- Credential digests are collision-free. JSON round-trips a stored session. The JSON inside an SSE
  line is what `classify` says it is, and is written back by `render`; of the lines of the stream at
  hand it is asked that their strings are well-formed text, and, where it matters, that a chunk written
  back is read with the fields and texts it holds.

## Where the code and its promises part

Each of these is a proved statement about the code as it is, with the exact condition under which the
promise holds.

- `holdback.rs:219-223` walks the cut back once per span. That is enough for disjoint spans and not
  for overlapping ones: `HoldBack.SafePrefixOutsideIff`, `HoldBack.SinglePassMissesAnOverlap`.
- `proxy.rs:192-203` throws away what the scanner answers to a chunk that ends inside a character:
  `GatewayStream.NothingLostIff`, `GatewayStream.ALostAnswer`. When the answer is a block the redactor
  says nothing from then on, and the client is not told: `GatewaySse.BlockIsAnnouncedIff`,
  `GatewaySse.BlockIsDropped`.
- `streaming/mod.rs:347-367` writes a released text to the first choice and the first tool call of an
  index, and a missing index reads as 0. A second field of the same name counts as resolved and leaves
  as it came, unredacted: `SseHoldBack.SentIsRedactedIff`, `SseHoldBack.NamedTwiceLeavesUnredacted`.
- `sse/mod.rs:376-379` answers "nothing" while a field has no text, also at the end of the stream, so
  a frame whose field was only ever given empty text stays queued and everything behind it with it:
  `SseHoldBack.EveryLineLeavesIff`, `SseDelivery.EveryLineIsSentIff`, `SseDelivery.MuteLineNeverLeaves`.
- The directory sync is described as idempotent by construction. It compares every entry with the
  mappings loaded before the loop. A directory that names one provider user twice therefore flips the
  mapping at each run or, when both entries are new, violates the unique index and maps nobody:
  `IdentityMap.SyncIsIdempotentIff`, `IdentityMap.SyncIsCorrectIff`,
  `IdentityMap.ContradictoryDirectoryFlips`, `IdentityMap.RepeatedEntryAborts`.
- The live mismatch rule has no lower bound on `valid_from`; the historical one has. They part on
  future-dated rows: `IdentityMap.LiveAgreesWithHistoryIff`, `IdentityMap.AFutureRowIsFlagged`.
- `clear` removes the state file before the legacy one; interrupted between the two, it can bring an
  older legacy session back: `SessionStore.InterruptedClearIff`.
- `load` takes a path whose metadata cannot be read for absent. It then migrates an older legacy
  session over the newer one, or reports the older one, or that there is none:
  `SessionStore.LoadsKeepVisibleIff`, `SessionStore.LoadsReportIff`, `SessionStore.OlderIsReported`,
  `SessionStore.UnseenLegacyIsMissed`.
- `catalogue.ts:35-38` says a result in flight is discarded by an invalidation; line 155 stores it
  unconditionally: `Catalogue.InvalidationDiscardsIff`.
- `remember` clears a token exchange that is off instead of writing it off, so a machine-wide "on"
  can come back: `ConfigLayers.RememberRoundTripIff`, `ConfigLayers.ExchangeComesBack`.
- `otel-daemon-unstick.py` speaks of permanent refusals (400, 413, 422) and counts every status
  outside 2xx as one: `SpoolExcision.RemovesPermanentOnlyIff`, `SpoolExcision.SteadyCollectorIff`,
  `SpoolExcision.TransientRefusalIsExcised`. Killed between its two writes it has the daemon send again
  all it delivered before, unless the recorded identity agrees with the new file's:
  `SpoolExcision.KilledEditOffers`.
- `freshness.rs` promises that an uncapped token outlives its window. A token that was just refreshed
  is not looked at again: `Freshness.HandedOutOutlivesIff`, `Freshness.ShortTokenIsHandedOut`.
- The framer ends an event at `\n\n` only; the SSE standard also allows carriage returns:
  `SseStandard.FramesLikeTheStandardIff`, `SseStandard.ReturnFramedEventIsLost`.
- `tokens.ts` aims to count what `messages.ts` sends; it counts at least that:
  `WireMessages.CountIsExactIff`, `WireMessages.CountedAndNotSent`.

## Model

| member | source | states |
|---|---|---|
| Utf8.ScanIsGrammar | app/redact-gateway/src/proxy.rs:352-375 | the validator rejects exactly the texts that no continuation repairs, and reports the longest well-formed prefix |
| Utf8.CarryDecoder.Decode | app/redact-gateway/src/proxy.rs:347-376 | one call gives `DecodeStep`'s text and leaves its carry, whose laws are the next two rows |
| Utf8.DecodingIgnoresChunking | app/redact-gateway/src/proxy.rs:347-376 | for every byte string and split: decoding succeeds iff the bytes are text plus at most one unfinished character; pieces join to the longest well-formed prefix, the carry is the rest, at most 3 bytes |
| Utf8.CorruptionIsReportedAtOnce | app/redact-gateway/src/proxy.rs:347-376 | the failing call is the first whose bytes so far cannot be repaired |
| RedactEngine.BuildPerEntity | crates/governance-redact/src/engine.rs:222-240 | the loop's table has the entities that occur and whose configured action is a transform, each with exactly the operator that action asks for |
| RedactEngine.DetectIsExact | crates/governance-redact/src/engine.rs:139-170 | `detect` reports every detection whose action is not to allow it, as often as it was found, with that action, in order of start |
| RedactEngine.ScanBlocksLikeDetect | crates/governance-redact/src/engine.rs:139-249 | `scan` blocks iff `detect` reports a blocking span, and names the same entities |
| RedactEngine.ScanIsWeave | crates/governance-redact/src/engine.rs:171-249 | a scan that does not block replaces each detected span by what the operator of its own entity's configured action makes of its bytes, whatever the default action, leaves the text between, and counts the spans |
| RedactEngine.RedactionSplits | crates/governance-redact/src/engine.rs:171-249 | at a cut through no span, redaction, count and blocking entities of the whole are those of the two parts |
| LawfulDetector.PairEngineIsLawful | crates/governance-redact/src/engine.rs:139-249 | an engine with a rewriting and a blocking entity exists that meets every law the refinement theorems ask for |
| LawfulDetector.PairEngineBlocks | crates/governance-redact/src/engine.rs:171-249 | it rewrites one text and blocks another |
| HoldBack.ComputeSafePrefix | crates/governance-redact/src/holdback.rs:214-230 | the two loops compute the cut the next rows are about |
| HoldBack.SafePrefixIsBestCut | crates/governance-redact/src/holdback.rs:195-230 | for disjoint aligned spans: the greatest character boundary up to min(len - window, ceiling) strictly inside no span |
| HoldBack.SafePrefixOutsideIff | crates/governance-redact/src/holdback.rs:214-230 | for spans that may overlap: the cut is inside no span iff no span ending by the limit reaches over the start of the first span the limit falls into |
| HoldBack.SinglePassMissesAnOverlap | crates/governance-redact/src/holdback.rs:219-223 | two overlapping spans and a cut inside one of them |
| HoldBack.KeptBack | crates/governance-redact/src/holdback.rs:158-230 | the buffer after a push that neither blocks nor fails holds at most window + 3 bytes, or less than window plus the one straddling span |
| HoldBack.PushKeepsBestRest | crates/governance-redact/src/holdback.rs:158-189 | such a push lets go of all it may: what stays begins at the greatest character boundary, short of the window, in no detection of the buffer |
| HoldBack.Redactor.Push | crates/governance-redact/src/holdback.rs:118-126 | the new buffer, counters and answer are those of one `Advance` step |
| HoldBack.Redactor.Flush | crates/governance-redact/src/holdback.rs:131-133 | the same for the final step |
| HoldBack.OutputIsScannedHeads | crates/governance-redact/src/holdback.rs:135-189 | everything released is what `scan` made of the drained heads, in order, and `released` is its length |
| HoldBack.StreamingRefinesBatch | crates/governance-redact/src/holdback.rs:118-189 | for every text and chunking: a stream that is neither blocked nor failed releases exactly what the batch scan forwards, with its count; a text the batch scan blocks never streams to the end |
| HoldBack.StreamStopsIff | crates/governance-redact/src/holdback.rs:118-189 | with an engine that never fails: a stream is stopped iff the batch scan blocks the text received by the end of some chunk, for what it names at the first such chunk, and finishes otherwise |
| HoldBack.NoByteOfASecretLeaves | crates/governance-redact/src/holdback.rs:135-197 | an occurrence of a blocking entity that fits the window: for every chunking the stream is stopped and everything released comes from before it |
| PromptRelease.ReleasedAtOnce | crates/governance-redact/src/holdback.rs:118-189 | after any pushes, however cut, of a text that does not block: the client has the batch redaction of everything up to the greatest boundary short of the window that lies in no detection of all that came; the rest is held |
| PromptRelease.StreamFlushesLast | crates/governance-redact/src/holdback.rs:118-189 | a stream is its pushes and, unless they stopped it, the flush |
| FieldRedactor.ComputeFrameCut | crates/governance-redact/src/sse/mod.rs:415-431 | the fixed-point loop computes the cut of the next row, and ends |
| FieldRedactor.FrameCutIsBest | crates/governance-redact/src/sse/mod.rs:404-431 | the greatest frame end within the limit that cuts no detection, or zero |
| FieldRedactor.Redactor.Step | crates/governance-redact/src/sse/mod.rs:376-475 | the new buffer, marks, count and answer are those of one `Advance` step |
| FieldRedactor.AdvanceTakes | crates/governance-redact/src/sse/mod.rs:435-475 | the text-and-offsets state is a queue of pieces, one per frame; a release takes whole pieces off the front, in order, and gives their scan |
| FieldRedactor.StepTakesMost | crates/governance-redact/src/sse/mod.rs:376-475 | a push that neither blocks nor fails leaves no frame behind whose end lies within what the window leaves free and in no detection |
| FieldRedactor.AdvanceCarries | crates/governance-redact/src/sse/mod.rs:376-475 | what a step releases, followed by the redaction of all that may still come, is the redaction of the whole |
| FieldRedactor.FlushTakesAll | crates/governance-redact/src/sse/mod.rs:372-431 | at the end everything held leaves in one step iff there is any text |
| SseChunk.FieldsAreTheStrings | crates/governance-redact/src/streaming/mod.rs:241-296 | the fields of a chunk are the content of every choice and every string of call arguments, each once and under the index given; reachable is what no earlier choice or call of the index hides |
| SseChunk.WriteReachesItsField | crates/governance-redact/src/streaming/mod.rs:282-367 | writing a field changes the one field of that name that can be reached, if there is one, and nothing else |
| SseChunk.OneFieldPerKey | crates/governance-redact/src/streaming/mod.rs:241-296 | of all the fields a chunk gives under one name, at most one can be written |
| SseFrames.ReleasePaid | crates/governance-redact/src/sse/mod.rs:297-309 | a release resolves exactly the oldest contributions of its field, one per listing, and every frame waits for one resolution less per listing, down to those still open |
| SseFrames.ReleaseSaid | crates/governance-redact/src/sse/mod.rs:297-309 | after a release the frames say its text once, after everything the field said before |
| SseHoldBack.ContributeKeeps | crates/governance-redact/src/sse/mod.rs:268-309 | for any chunk, a field named twice included, handing one field on keeps the invariant: each redactor's state is a function of what its field was given, and what a frame waits for is what its redactors still hold |
| SseHoldBack.EveryFieldRefinesBatch | crates/governance-redact/src/sse/mod.rs:150-291 | after any completion and any flush order, for each field that every frame naming it names reachably: the frames say the batch redaction of all it was given, with its count; line i is frame i |
| SseHoldBack.FieldsSayTheBatchScan | crates/governance-redact/src/sse/mod.rs:150-291 | in the scanner's own terms: the batch scan of all a field was given does not block and forwards exactly what the frames say, with the same count |
| SseHoldBack.EveryLineLeavesIff | crates/governance-redact/src/sse/mod.rs:178-210 | for any window: every frame becomes ready iff no field is mute, that is given no text or, without a window, nothing but empty text since its last release |
| SseHoldBack.NamedTwiceIsUnreachable | crates/governance-redact/src/streaming/mod.rs:241-296 | a chunk that names a field twice has a field no write reaches |
| SseHoldBack.WrittenIff | crates/governance-redact/src/sse/mod.rs:297-332 | a frame that waits for nothing holds released text in every field iff a write reaches every field its line names |
| SseHoldBack.UnreachableLeavesAsItCame | crates/governance-redact/src/streaming/mod.rs:347-367 | a field no write reaches stands in its frame as it came, at every point of the stream |
| SseHoldBack.SentIsRedactedIff | crates/governance-redact/src/sse/mod.rs:235-332 | at any point of any stream, for any scanner: a frame that may leave holds nothing but released text iff a write reaches every field its line names |
| SseHoldBack.NamedTwiceLeavesUnredacted | crates/governance-redact/src/streaming/mod.rs:241-367 | two choices of one index: the frame becomes ready with the second text as it came |
| SseHoldBack.UnparsedIsCounted | crates/governance-redact/src/sse/mod.rs:138-266 | the count outside the fields is that of all lines that are no readable chunks, and of no others |
| SseDelivery.EndIgnoresChunking | crates/governance-redact/src/sse/mod.rs:150-210 | from any point on: whether a stream finishes, blocks or fails, and what for, depends on the remaining text, not on its chunks |
| SseDelivery.StreamDelivers | crates/governance-redact/src/sse/mod.rs:150-332 | for every body, chunking and ending, blocked and failed ones included: how it ends depends on the text alone; the client has received the frames up to the first that waits, in arrival order, each once; a frame sent stands for its line and is all released text iff a write reaches every field of the line |
| SseDelivery.EveryLineIsSentIff | crates/governance-redact/src/sse/mod.rs:178-332 | a stream that finishes has sent every line iff no field was mute |
| SseDelivery.ClientReads | crates/governance-redact/src/sse/mod.rs:311-332 | line by line, for every body, chunking and ending: the client has received, for each line up to the first that waits, the line, its scanned form, or a chunk that reads as its frame stands |
| SseSafety.IngestAllHeldLast | crates/governance-redact/src/sse/mod.rs:235-309 | after any lines, each redactor holds an end of all that the lines gave its field, piece by piece, with the frames the pieces came from |
| SseSafety.NoByteOfAFieldSecretLeaves | crates/governance-redact/src/sse/mod.rs:48-332 | an occurrence of a blocking entity in all a field is given, fitting the window: for every chunking and however lines name the field, the stream is stopped and no line sent gave any byte of the occurrence; where every line names the field reachably, what the sent frames say for it was moreover made of text before the occurrence |
| SseDelivery.MuteLineNeverLeaves | crates/governance-redact/src/sse/mod.rs:376-379 | a line whose only field is empty text is accepted and never sent |
| SseDelivery.Redactor.Push | crates/governance-redact/src/sse/mod.rs:150-167 | what a push sends and leaves, or that it blocks and nothing held remains; after a block nothing is sent |
| SseDelivery.Redactor.Flush | crates/governance-redact/src/sse/mod.rs:178-210 | for some order of the keys there are: what a flush sends and leaves, or that it blocks and nothing held remains |
| SseDelivery.Redactor.IngestLine | crates/governance-redact/src/sse/mod.rs:235-291 | the effect of one line on frames, redactors and counts |
| SseDelivery.Redactor.ApplyRelease | crates/governance-redact/src/sse/mod.rs:297-309 | the first frame listed gets the text, the others are blanked, and each listing lowers the waiting count of its frame |
| SseDelivery.Redactor.DrainReady | crates/governance-redact/src/sse/mod.rs:311-332 | the front moves over exactly the ready frames, and their rendering is returned |
| GatewayStream.ScanSseStreaming | app/redact-gateway/src/proxy.rs:103-329 | the loop with its early returns sends what the state machine `Run` sends |
| GatewayStream.FailClosedRun | app/redact-gateway/src/proxy.rs:92-329 | in every fail-closed run: scanner releases in order, then at most one terminal event that nothing follows; there is one iff the upstream did not arrive whole (read error, over the cap, corrupt or unfinished text) or an answer acted on was a failure or a block; the answers are the scanner's own, on a prefix of the upstream of at most `max_body_bytes` |
| GatewayStream.ObserveOnlyRun | app/redact-gateway/src/proxy.rs:136-290 | a gateway that observes only: releases in order and nothing terminal; from the first block acted on, every later chunk up to a read error as it came, and no further call of the scanner |
| GatewayStream.ObserveOnlyEnds | app/redact-gateway/src/proxy.rs:291-329 | how such a run ends: what the flush says, unless a read error or an unfinished character ended it |
| GatewayStream.NothingLostIff | app/redact-gateway/src/proxy.rs:119-203 | for every upstream, one that fails, is too long or corrupt included: no scanner's answer is lost iff no chunk taken ends inside a character after complete text |
| GatewayStream.ALostAnswer | app/redact-gateway/src/proxy.rs:192-203 | a chunk that cuts a character, and the answer that is lost, whatever follows |
| GatewaySse.PushFollows | crates/governance-redact/src/sse/mod.rs:150-167 | a push of any piece leaves the redactor where the whole text so far leads and answers accordingly; once blocked it answers nothing |
| GatewaySse.BlockIsAnnouncedIff | app/redact-gateway/src/proxy.rs:119-329 | for every upstream and cut, fail-closed: the client is told of a block, and for what, iff the chunk completing the first line not taken is reached and ends on a character boundary, or all lines are taken, the upstream arrives whole, and its rest or the flush blocks |
| GatewaySse.BlockIsDropped | app/redact-gateway/src/proxy.rs:192-203 | a line that blocks with half a character behind it: the upstream arrives whole, and the client receives nothing at all |
| GatewaySse.GatewayDelivers | app/redact-gateway/src/proxy.rs:119-329 | end to end: of an upstream that arrives whole, cut on character boundaries and blocked by nothing, the client receives the redacted lines up to the first that waits, and nothing else |
| ResolveCache.NextKeepsInv | app/lightbridge-governance/src/resolve.rs:199-234 | every step of every interleaving keeps: each cache entry and each pending answer is backed by a row that was active when it was read |
| ResolveCache.RevocationBound | app/lightbridge-governance/src/resolve.rs:199-234 | an allowed answer names the database's identity for that credential, active at an instant later than TTL + timeout ago |
| ResolveCache.BoundIsTight | app/lightbridge-governance/src/resolve.rs:101-110 | for every TTL and timeout a run reaches the last instant the bound allows |
| ResolveCache.OnlySuccessIsCached | app/lightbridge-governance/src/resolve.rs:199-234 | an entry of the cache changes only by its own eviction or by a successful lookup of its own credential that returned in time |
| ResolveCache.OutageIsNotPinned | app/lightbridge-governance/src/resolve.rs:199-234 | whatever failed before, a fresh request for an active credential is allowed |
| ResolveCache.RevocationIsFinal | crates/governance-core/src/credential.rs:162-254 | no continuation of a run brings a revoked row back or moves its time |
| ResolveTrace.AllowedWasAuthenticated | app/lightbridge-governance/src/resolve.rs:199-234 | over every interleaving: an allowed request arrived with a bearer token and that credential as its body, and then its token review succeeded |
| ResolveTrace.AnsweredForCause | app/lightbridge-governance/src/resolve.rs:130-234 | a request is answered at most once, and each reason of denial only for what it names: no token, a failed review, an unreadable body, a lookup that failed or found no active row, a lookup that took too long |
| ResolveTrace.RejectedForThat | app/lightbridge-governance/src/resolve.rs:199-216 | a request that is begun without a token, with a failed review or with an unreadable body is denied for just that, and only then |
| ResolveTrace.RowsAreTheRun | crates/governance-core/src/credential.rs:162-254 | the database of every run: what was first issued for each credential, revoked at the first revocation of its own integration after that, and by no other |
| IdentityMap.LatestIsLatest | crates/governance-core/src/identity.rs:353-366 | the "latest first, one row" query means a selected row than which none selected is later, and none iff nothing is selected |
| IdentityMap.CollectFirstWins | crates/governance-core/src/identity.rs:113-117 | the first-wins loop keeps the first user per provider user |
| IdentityMap.LoadIsLatest | crates/governance-core/src/identity.rs:205-222 | the batched query agrees, principal by principal, with the one-row query |
| IdentityMap.LoadFailsOnNull | crates/governance-core/src/identity.rs:205-222 | the batch fails iff a selected row has no user |
| IdentityMap.IdentityStore.SyncIdentityDirectory | crates/governance-core/src/identity.rs:199-296 | commits what `Sync` says, or fails and changes nothing |
| IdentityMap.SyncAmends | crates/governance-core/src/identity.rs:224-296 | every entry counted once, one row added per write, no row lost, other principals, providers and tenants untouched |
| IdentityMap.ReportCounts | crates/governance-core/src/identity.rs:224-296 | inserted, repointed and kept are the entries of provider users with no mapping, another's and their own before the sync |
| IdentityMap.HistoryIsImmutable | crates/governance-core/src/identity.rs:199-296 | no series of syncs changes who anyone was at an earlier instant |
| IdentityMap.ReportsDoNotMove | crates/governance-core/src/identity.rs:345-375 | attribution counts of executions before the syncs are the same after them |
| IdentityMap.AttributionCounts | crates/governance-core/src/identity.rs:335-375 | the report counts the tenant's executions with the provider that have a user, that have none, and whose email was at their start mapped to someone else; the first two make up all |
| IdentityMap.SyncIsCorrectIff | crates/governance-core/src/identity.rs:199-296 | for every table, directory and instant: the sync commits and every entry is mapped to its user afterwards iff no active row lacks a user, the directory does not contradict itself, and no provider user is written twice or has a row from this instant |
| IdentityMap.SyncCommitsIff | crates/governance-core/src/identity.rs:205-296 | the sync commits iff the active mappings can be read, each provider user has at most one entry that differs from its mapping, and none from this instant if it has one |
| IdentityMap.CommittedSyncMapsIff | crates/governance-core/src/identity.rs:224-255 | a sync that commits maps every entry iff the directory does not contradict itself |
| IdentityMap.RepeatedEntryAborts | crates/governance-core/src/identity.rs:224-296 | a new entry listed twice contradicts nothing and aborts every run |
| IdentityMap.SyncTakesEffect | crates/governance-core/src/identity.rs:224-255 | who is mapped afterwards, for every provider user and every directory, contradictory or not |
| IdentityMap.SyncIsIdempotentIff | crates/governance-core/src/identity.rs:224-255 | after a sync that commits, running the directory again keeps every entry and changes no row iff the directory does not contradict itself |
| IdentityMap.ContradictoryDirectoryFlips | crates/governance-core/src/identity.rs:224-255 | one provider user listed for two people: each run maps the other one |
| IdentityMap.CheckEmailMismatches | crates/governance-core/src/identity.rs:80-144 | flags each email iff its latest open mapping names another user, and none when the query fails |
| IdentityMap.FlaggedIff | crates/governance-core/src/identity.rs:80-144 | an email is flagged iff there is a token user and the latest open mapping of the email names someone else |
| IdentityMap.LiveAgreesWithHistoryIff | crates/governance-core/src/identity.rs:87-144 | the live and the historical rule agree for every token user iff no future-dated row names someone else |
| IdentityMap.AFutureRowIsFlagged | crates/governance-core/src/identity.rs:87-144 | a mapping that ends at the next instant and its successor: the live rule flags the user the historical rule does not |
| SessionStore.LoadPreservesVisible | app/governance-auth/src/cache.rs:137-200 | however a load ends, if it can look at the metadata: what a load would read is unchanged, and it reports exactly that or an I/O error |
| SessionStore.LoadsKeepVisibleIff | app/governance-auth/src/cache.rs:137-200 | whatever fails, the look at the metadata included: no load changes what is visible iff no two versions of the session lie on the two paths |
| SessionStore.LoadsReportIff | app/governance-auth/src/cache.rs:137-200 | whatever fails: every load reports the session that is there or an I/O error iff nothing lies at the legacy path or the state path reads as the same session |
| SessionStore.OlderIsReported | app/governance-auth/src/cache.rs:137-186 | a load that cannot look at the state path and cannot migrate reports the legacy session |
| SessionStore.UnseenLegacyIsMissed | app/governance-auth/src/cache.rs:160-186 | a load that cannot see the legacy path reports that there is no session |
| SessionStore.LoadFinishes | app/governance-auth/src/cache.rs:137-200 | from any point of a load, a bounded number of calls finishes it, whatever fails, when every write takes a character |
| SessionStore.MigrationIsCrashSafe | app/governance-auth/src/cache.rs:137-186 | after any number of loads stopped or failing anywhere, the next load that can look at the metadata returns the legacy session or an I/O error; the state path shows nothing or all of it |
| SessionStore.UninterruptedLoadReturns | app/governance-auth/src/cache.rs:160-200 | a load finishes within the legacy file's length plus 11 calls; if it can look at the metadata and its very last read works it returns the session, whatever else failed |
| SessionStore.WorkingLoadMigrates | app/governance-auth/src/cache.rs:137-186 | a load none of whose calls fails leaves the legacy session at the state path, nothing at the legacy one, and reports it |
| SessionStore.StoreIsAtomic | app/governance-auth/src/cache.rs:202-237 | wherever a store is stopped the state path holds the old file or the whole new one; success means the new one |
| SessionStore.WorkingStoreStores | app/governance-auth/src/cache.rs:202-237 | a store none of whose calls fails stores, and reports success |
| SessionStore.FailedStoreTidies | app/governance-auth/src/cache.rs:202-237 | a store that fails and can still tidy up leaves no temporary file |
| SessionStore.WorkingClearClears | app/governance-auth/src/cache.rs:239-255 | a clear neither of whose calls fails removes both files |
| SessionStore.ClearedMeansGone | app/governance-auth/src/cache.rs:239-255 | after a successful clear no later load finds anything |
| SessionStore.InterruptedClearIff | app/governance-auth/src/cache.rs:239-255 | an interrupted clear leaves the session as it was or gone iff no different copy lies at the legacy path |
| SessionStore.NeverPartial | app/governance-auth/src/cache.rs:137-275 | over every history of calls stopped anywhere, both paths show complete files only |
| SessionStore.StoredStaysVisible | app/governance-auth/src/cache.rs:160-237 | a stored session is what later loads read, if they can look at the metadata or no other version lies at the legacy path |
| ConfigLayers.Document.Remember | app/governance-auth/src/config_persist/mod.rs:50-158 | every owned key at its target and every other untouched, or nothing changed when the debounce does not fit |
| ConfigLayers.Document.SetOrClear | app/governance-auth/src/config_persist/mod.rs:160-188 | the one key is set or absent, the rest as before |
| ConfigLayers.EditsAreRemembered | app/governance-auth/src/config_persist/mod.rs:50-158 | the edits, in the order made, leave every key at its target |
| ConfigLayers.ExchangeRoundTrip | app/governance-auth/src/config/token_exchange.rs:22-81 | the exchange block resolves back to itself iff its two conditions hold |
| ConfigLayers.RememberRoundTripIff | app/governance-auth/src/config/mod.rs:287-520 | resolving again from the written file gives the same settings, for all flags, user and machine files, iff a condition readable beforehand holds |
| ConfigLayers.ExchangeComesBack | app/governance-auth/src/config_persist/mod.rs:50-158 | an exchange the flags turn off comes back from a machine file that turns it on |
| ConfigPrecedence.ResolveIsByPrecedence | app/governance-auth/src/config/mod.rs:13-520 | for all flags and files: a configuration is what `resolve` gives iff every setting, the exchange's and the callback's included, is the flag's, else the user file's, else the machine file's, else the default, and passes its checks |
| ConfigPrecedence.BadFileIsRefused | app/governance-auth/src/config/mod.rs:289-300 | a file with an unknown key, or a value not of its key's type or range, stops the resolution |
| ConfigLayers.RememberIsIdempotent | app/governance-auth/src/config_persist/mod.rs:50-188 | a second `remember` changes nothing; keys it does not own are untouched |
| Freshness.RenewedIff | app/governance-auth/src/freshness.rs:60-123 | for every session, policy and clock: renewed iff 30 seconds or less are left, or no more than window plus 30 and no more than half the lifetime it was issued with |
| Freshness.MintedIsUsableIff | app/governance-auth/src/freshness.rs:66-110 | a fresh token is usable at once under every policy iff it outlives the skew |
| Freshness.RenewalsAreSpaced | app/governance-auth/src/oauth/mod.rs:357-374 | in every run of calls, whatever their windows and failures, successive renewals are at least L - L/2 apart for L >= 60 |
| Freshness.RefreshRateBound | app/governance-auth/src/oauth/mod.rs:357-374 | n renewals take at least n - 1 half-lifetimes |
| Freshness.CachedOutlivesIff | app/governance-auth/src/freshness.rs:82-110 | a cached token always lasts window plus skew iff there is no window or the two fit half its life |
| Freshness.HandedOutOutlivesIff | app/governance-auth/src/freshness.rs:82-123 | from any session: a token handed out uncapped outlives window plus skew iff it was usable from the cache or is granted more than that |
| Freshness.ShortTokenIsHandedOut | app/governance-auth/src/freshness.rs:82-123 | a token granted for 20 seconds is handed out for no window at all and does not last the skew |
| Freshness.HelperTokenOutlivesDebounce | app/governance-auth/src/freshness.rs:60-64 | after rounding both the debounce and the clock down to seconds, a token that outlives its window outlives the real debounce by more than 29 seconds |
| Freshness.HelperWindowIsTheDebounce | app/governance-auth/src/freshness.rs:60-64 | the helper's window is the whole seconds of the debounce |
| Catalogue.ServedFromTheAskedGateway | ide/vscode/src/catalogue.ts:33-87 | over every interleaving a caller gets models answered by the gateway it asked for, from the cache only within the TTL |
| Catalogue.TurnedAwayForCause | ide/vscode/src/catalogue.ts:33-87 | a caller is rejected only if the fetch it waited for failed, and gives up only if told to |
| Catalogue.FreshIsServed | ide/vscode/src/catalogue.ts:54-66 | until the TTL is over what a gateway answered is served without another fetch |
| Catalogue.OutageDoesNotStick | ide/vscode/src/catalogue.ts:54-87 | whatever happened before, a caller with nothing fresh and nothing to join starts a fetch and is served what it is answered |
| Catalogue.FailureReachesItsCaller | ide/vscode/src/catalogue.ts:68-87 | a failure reaches the caller that waits for it |
| Catalogue.OnlyAnswersAreCached | ide/vscode/src/catalogue.ts:35-155 | the cache changes only by an invalidation or to what a running fetch was just answered |
| Catalogue.AtMostOneFetch | ide/vscode/src/catalogue.ts:33-87 | between invalidations and gateway changes no two fetches are in flight |
| Catalogue.InvalidationDiscardsIff | ide/vscode/src/catalogue.ts:35-155 | an invalidation keeps earlier results from later callers iff no fetch is running |
| SseStream.FrameIsTheDecomposition | ide/vscode/src/sse.ts:32-50 | the framing is the only way to cut a text into events without a blank line |
| SseStream.SseParser.PushText | ide/vscode/src/sse.ts:27-30 | the payloads of buffer plus text, the remainder kept, no blank line left in it |
| SseStream.SseParser.Drain | ide/vscode/src/sse.ts:32-50 | the nested loops give every complete payload in order |
| SseStream.FrameAppend | ide/vscode/src/sse.ts:32-50 | framing a buffer and then what follows is framing the whole |
| SseStream.PayloadsAreDataLines | ide/vscode/src/sse.ts:40-44 | payloads are exactly the trimmed `data:` lines of the terminated part of the text |
| SseStream.AccumulationIsGrouping | ide/vscode/src/stream.ts:81-94 | updating the pending map fragment by fragment is grouping by index: order of first appearance, last non-empty id and name, arguments joined |
| SseStream.Pump.HandlePayload | ide/vscode/src/stream.ts:57-95 | parts and pending calls after one payload, and whether reading it throws |
| SseStream.Pump.Flush | ide/vscode/src/stream.ts:97-121 | reports the named calls whose arguments parse, in order, and empties the map |
| SseStream.PumpStream | ide/vscode/src/stream.ts:25-55 | for every chunking, cancellation and broken connection: the response is that of the text read, in one piece |
| SseStream.ResponseMeaning | ide/vscode/src/stream.ts:25-121 | non-empty contents heard, in order, then unless it threw one call per index |
| SseStream.TextsAreContents | ide/vscode/src/stream.ts:57-79 | the texts reported join to the contents heard, and none is empty |
| SseStream.PendingIsAllFragments | ide/vscode/src/stream.ts:81-94 | what waits is all the call fragments heard, grouped by index |
| SseStream.CallsAreReported | ide/vscode/src/stream.ts:97-121 | calls are reported one by one, in order, under their own id and name, iff they have a name and their arguments are absent or JSON |
| SseStream.ThrowsIff | ide/vscode/src/stream.ts:25-79 | a response throws iff a payload heard broke, or the connection did before the mark |
| SseStream.StopsIff | ide/vscode/src/stream.ts:41-46 | reading goes on iff no payload so far was the mark or broke while being read |
| SseStream.Pump.Feed | ide/vscode/src/stream.ts:41-46 | the payloads of one read, up to the mark or a throw |
| SseStream.NothingAfterDone | ide/vscode/src/stream.ts:41-46 | once the mark was read, neither more text nor a broken connection changes the response |
| SseStream.TextIsReportedAtOnce | ide/vscode/src/stream.ts:77-79 | text that arrives later never takes back text reported |
| SseStream.CarriageReturnsAreNotFramed | ide/vscode/src/sse.ts:35-47 | a stream without two line feeds in a row, as carriage returns alone or in pairs with line feeds frame it, reports nothing, whatever it carries |
| SseStandard.FramesLikeTheStandardIff | ide/vscode/src/sse.ts:32-50 | for every text: the framer gives the `data:` payloads that the standard's three line endings give iff, in the events taken, no carriage return cuts a data line short or begins one, and in the rest no data line begins before a blank one |
| SseStandard.StretchAgreesIff | ide/vscode/src/sse.ts:40-44 | the same between two line feeds; and there the framer never gives more than the standard |
| SseStandard.LineFeedsAgree | ide/vscode/src/sse.ts:32-50 | on every text without carriage returns the two agree |
| SseStandard.ReturnFramedEventIsLost | ide/vscode/src/sse.ts:35-47 | an event of any value that ends in two carriage-return line-feed pairs is lost |
| WireMessages.FlattenResult | ide/vscode/src/messages.ts:80-88 | the text items of a result, joined |
| WireMessages.FlatJoins | ide/vscode/src/messages.ts:80-88 | a result's text is its text items joined item by item, in order |
| WireMessages.Mapper.Flush | ide/vscode/src/messages.ts:56-77 | one message with the waiting text and calls unless there are none, and both emptied |
| WireMessages.Mapper.Map | ide/vscode/src/messages.ts:24-51 | one message appended as its fan-out, nothing left waiting |
| WireMessages.ToWireMessages | ide/vscode/src/messages.ts:19-54 | the nested loops give `Wire`, which the next rows are about |
| WireMessages.RunIsOneMessage | ide/vscode/src/messages.ts:56-77 | parts without a result between them leave in one message or none: all the text, null if there is no text part, and the calls in order |
| WireMessages.ResultStandsAlone | ide/vscode/src/messages.ts:38-43 | a result leaves on its own, between what its message says before and after it |
| WireMessages.WireKeepsOrder | ide/vscode/src/messages.ts:19-77 | on the wire, calls and results are in the given order, and so are text and results, character by character, with their roles |
| WireMessages.WireIsVerbatimIff | ide/vscode/src/messages.ts:19-77 | the wire says everything in the given order iff no message has text after a call with no result between |
| WireMessages.ResultFollowsItsCall | ide/vscode/src/messages.ts:38-43 | a result given after a call is sent in a later message than the call |
| WireMessages.ExtractText | ide/vscode/src/tokens.ts:40-70 | the recursive loop joins what every part counts for |
| WireMessages.ExtractedJoins | ide/vscode/src/tokens.ts:40-70 | counting is part by part, in order |
| WireMessages.CountedIsSentPlusDropped | ide/vscode/src/tokens.ts:40-70 | characters counted are characters sent plus characters of dropped parts |
| WireMessages.CountIsExactIff | ide/vscode/src/tokens.ts:19-70 | the count never falls short, and is exact iff every counted part is sent |
| WireMessages.CountedAndNotSent | ide/vscode/src/tokens.ts:40-70 | a part with a text value that is no text part is counted and not sent |
| WireMessages.EstimateTokens | ide/vscode/src/tokens.ts:85-87 | the least number of 3.5-character tokens that holds the text |
| WireMessages.EstimateCoversTheWire | ide/vscode/src/tokens.ts:72-87 | estimated message by message, a request is never under-counted |
| Lines.RecordsAreTheCut | scripts/otel-daemon-unstick.py:99-104 | reading lines one after another is the only way to cut a file after its newlines |
| SpoolExcision.Spool.Scan | scripts/otel-daemon-unstick.py:261-281 | the byte-offset walk is the record-by-record probe, and ends |
| SpoolExcision.ProbeMeaning | scripts/otel-daemon-unstick.py:261-281 | refusals in a row within the limit, then the first thing that stops them |
| SpoolExcision.OutcomeIff | scripts/otel-daemon-unstick.py:215-338 | each outcome of the script iff its cause: the head, the offset, and what the collector answers to the records one after another |
| SpoolExcision.Spool.Unstick | scripts/otel-daemon-unstick.py:215-338 | the decision; on every exit but the last nothing changes; on the last, killed after any number of its writes: the old files, the spliced file beside the old checkpoint, the same beside an empty checkpoint, or both new ones with the identity and the quarantine without the removed records' keys |
| SpoolExcision.ExcisionIsExactIff | scripts/otel-daemon-unstick.py:307-311 | the new records are the old minus exactly the run iff the offset starts a record |
| SpoolExcision.AppliedIsAnEdit | scripts/otel-daemon-unstick.py:261-338 | the run was refused record by record, the record at the unchanged offset was accepted, bytes add up |
| SpoolExcision.QuarantineForgetsTheRun | scripts/otel-daemon-unstick.py:311-338 | of the quarantine exactly the entries of the removed records go; offset and head stay, the identity is the new file's |
| SpoolExcision.HeadIsUntouched | scripts/otel-daemon-unstick.py:307-311 | the digested head is the same bytes |
| SpoolExcision.NeverAnInternalError | scripts/otel-daemon-unstick.py:308-311 | with a head of at most 4096 bytes the second digest check cannot fail, whatever the digest |
| SpoolExcision.SecondRunFindsNothing | scripts/otel-daemon-unstick.py:283-286 | with a collector that answers by record, a second run finds nothing to remove |
| SpoolExcision.RemovesPermanentOnlyIff | scripts/otel-daemon-unstick.py:261-338 | over the collector: for every spool and checkpoint only records answered 400, 413 or 422 are removed iff the collector never puts a record off, within the scan limit, on the way to accepting one |
| SpoolExcision.SteadyCollectorIff | scripts/otel-daemon-unstick.py:261-338 | with a collector that answers by record and accepts one: iff it answers no record with a status outside 2xx and those three |
| SpoolExcision.KilledEditOffers | app/governance-auth/src/copilot/spool/identity.rs:115-160 | what the daemon offers next after a kill: the run again before the edit; between the two writes the accepted record iff the recorded identity agrees with the new file's, else all that was delivered before a second time; nothing beside the emptied checkpoint; the accepted record after |
| SpoolExcision.DaemonGoesOn | app/governance-auth/src/copilot/spool/identity.rs:110-160 | a spool that has only grown is gone on with, one cut short is started over, and an unknown id never tells files apart |
| SpoolExcision.TransientRefusalIsExcised | scripts/otel-daemon-unstick.py:276-281 | the failing case: a record refused with 503 is removed when the next is accepted |

## Left out

- The PII recognizers and anonymizer, hashing, JSON and TOML parsing: foreign code, taken as functions.
- Buffered scanning of whole request and response bodies: each field goes to the engine's scan, which is modelled.
- SseHoldBack.EveryFieldRefinesBatch: says nothing of what the frames say for a field that some line names where no write reaches it: a later listing overwrites what an earlier one wrote, and `SentIsRedactedIff` says for which lines unredacted text leaves.
- SseDelivery.Redactor: the maps keyed by frame id and the queue of ids are one sequence of frames and a front; a frame carries its own waiting count.
- GatewayStream: a client that disconnects, and metrics.
- GatewaySse.BlockIsAnnouncedIff: asks that no engine failure falls on a chunk that ends inside a character; the failure is thrown away there, and the state it leaves the redactor in is not modelled.
- ResolveCache: capacity-driven eviction is any eviction at any time; the token review is one of its outcomes; a row's identity is fixed, though the environment name in it is joined in and can be renamed.
- SessionStore: power loss (a rename that is not yet durable), file permissions, and writers that do not hold the lock.
- IdentityMap: the SQL text; now is the transaction's start, as in PostgreSQL.
- ConfigLayers: comments, key order and permissions of the file; how flags and environment variables share one layer.
- Freshness.RefreshRateBound: counts successful renewals; a refresh that fails leaves the session as it was and is tried again.
- Catalogue: turning an answer into model descriptions.
- SseStream.PumpStream: bytes are taken as already decoded, and values of the wrong JSON type beyond the point where reading them throws.
- WireMessages.EstimateTokens: exact arithmetic; floating-point division is not modelled.
- SpoolExcision.Spool.Unstick: file modes, and a kill in the middle of one write.
- SpoolExcision.KilledEditOffers: of the records left the daemon skips undecodable and incomplete lines, which `Offered` lists like the others.
- Dashboards, command-line parsing, OAuth discovery and browser login, gRPC and S3: plumbing without a property of this kind.
