# Proofs about the gateway's converters, retries and registries

A Dafny model of the algorithmic cores of this LLM gateway, with proofs of what they
promise. `dafny verify dfyconfig.toml` checks all of it.

What is modelled, by component:

- **Bedrock converter and stream** (`Bedrock*.dfy`). An OpenAI history becomes Bedrock turns;
  adjacent tool-result turns are merged in place and unpaired tool uses and results pruned by
  two passes over shared counters. `BedrockMessages` says what the pruning means without
  counters, `BedrockConverter` is the code on mutable turns, `BedrockConversion` spells out
  what every message becomes, `BedrockPairing`, `BedrockIdempotence`, `BedrockUniqueIds` and
  `BedrockHistory` are the theorems; `BedrockSurvivors` shows that no history loses text or
  images, `BedrockValidHistory` and `BedrockLossless` that a well-formed one loses nothing. The
  stream translator (`BedrockStream`) agrees with the non-streaming conversion
  (`BedrockStreamAgreement`).
- **Antigravity** (`Antigravity*.dfy`, `TransientErrors.dfy`, `CreditBalanceCache.dfy`). The URL
  loop that retries in place, with an adversarial upstream; every run as a path through one
  table of cases (`AntigravityRuns`); its costs in sends and sleeps, as bounds for every run and
  exactly for a persistent 429; the model fallback chain; the generation defaults;
  the content normaliser; which errors count as transient; the credit-balance cache over whole
  histories.
- **Adapta** (`Adapta*.dfy`). The line splitter and the output state machine, the collecting
  reader, and exactly when they agree.
- **Registries** (`RegistryIndex`, `EmbeddingRegistry`, `ProviderRegistry`). Cached and lazily
  filled tables against the scans they replace; listing against parsing.
- **Smaller pieces**: pool-deduplicated sums (`FreeModelTotals`), the `server.env` file and the
  secret bootstrap (`EnvFile`, `EnvBootstrap`), header reordering (`HeaderOrder`), schema
  stripping (`ToolCloaking`). `JsText` and `JsObject` hold the JavaScript string and object
  operations they share.

Code that updates things in place is a method or a class here, tied by its `ensures` to a
function on values; the theorems are about those functions. The outside world (HTTP answers,
stream events, clocks, database calls, random ids and bytes) is always a parameter and
arbitrary.

Where a promise does not hold of the code, the exact condition is proved:

- Bedrock results are kept by count, not by place. A stray or repeated result takes the place of
  the result of a later pair with the same id (`BedrockHistory.ReusedIdBreaksPairing`); idempotence
  holds if and only if that does not occur (`BedrockIdempotence.IdempotentExactly`), and one-to-one
  pairing if and only if, besides, no answered turn uses an id twice
  (`BedrockPairing.PairedExactly`).
- The one load of the credit cache takes what is persisted for a key without an entry, so a balance
  whose write failed to persist and whose entry is gone is lost. A balance read is the last one if
  and only if that did not happen (`CreditBalanceCache.ReadsAreCurrentExactly`); the load as a whole
  is right if and only if the database is about the keys that have no entry
  (`CreditBalanceCache.FirstLoadIsCurrentExactly`).
- A provider that holds both `m` and `provider/m` lists two models under one id
  (`EmbeddingRegistry.RoundTripExactly`).
- After the cap, the output limit does not exceed a thinking budget of 16384 or more
  (`AntigravityDefaults.RoomExactly`).
- The indexed parser treats a provider with the empty id as not found, the scanning one does not
  (`RegistryIndex.ParsersAgreeExactly`).
- A secret set to the empty string from outside is generated anew on every start
  (`EnvBootstrap.NextStartIsQuietExactly`). A start that generates the encryption key overrides a key
  version set from outside, and one that generates anything raises a flag that is not persisted; the
  next start does neither, and differs in nothing else (`EnvBootstrap.NextStartSees`).
- The transient test of `open-sse/executors/antigravity.ts:1507-1524` does not ask for a known
  pattern in the text of a 5xx, as the comment above it says; it differs from that exactly when
  there is a text and it matches none (`TransientErrors.AnnouncedExactly`). When a 429 or 503 is
  retried in place is proved exactly (`AntigravityRetry.RetriedInPlaceExactly`).

The code is followed where its comments differ. The run after the loop at line 1094 of
`open-sse/executors/antigravity.ts` is marked unreachable and is, as are the error after the URL
loop (line 1196) and the back-off caps.

## Model

| member | source | states |
|---|---|---|
| `BedrockConverter.CollectAnsweredToolUseIds` | open-sse/executors/bedrock.ts:143-160 | the result is exactly the set of non-blank ids some tool message or tool_result part answers, wherever it stands in the history |
| `BedrockConverter.CollectPartAnswers` | open-sse/executors/bedrock.ts:152-157 | the ids answered by the tool_result parts of one content array |
| `BedrockConverter.TextBlocksFromContent` | open-sse/executors/bedrock.ts:56-106 | parts become blocks in order; a tool use is dropped when it is listed as a call or answered nowhere, and only a blank id takes a generated one |
| `BedrockConverter.AddToolCalls` | open-sse/executors/bedrock.ts:277-296 | a call is added once while it is pending, only if it is answered somewhere, under its trimmed or a generated id |
| `BedrockConverter.MessagesFromOpenAI` | open-sse/executors/bedrock.ts:243-313 | the objects returned show the sanitised conversion of the history, with pending and answered ids carried from message to message |
| `BedrockConversion.ConversionIs` | open-sse/executors/bedrock.ts:243-310 | the turns handed to the sanitiser, spelled out for every history: one for each message that is neither system nor developer, in order; a tool message its result, any other its texts, images, uses and results part by part and then the uses of its added calls; a blank text where there is nothing |
| `BedrockConversion.AnsweredExactly` | open-sse/executors/bedrock.ts:143-255 | an id counts as answered when any message of the history answers it, wherever it stands, or an earlier tool message was given it |
| `BedrockConversion.PendingExactly` | open-sse/executors/bedrock.ts:243-288 | an id is pending when an earlier message called it while answered and no tool message has come for it since |
| `BedrockSurvivors.EverythingSaidIsKept` | open-sse/executors/bedrock.ts:243-313 | whatever the history, valid or not, every text that is not blank and every image that can be read reaches Bedrock once, in order and under its role, and no other does |
| `BedrockConverter.MergeTurn` | open-sse/executors/bedrock.ts:184-187 | a results-only turn is appended in place to a results-only predecessor and nothing else changes |
| `BedrockConverter.MergeConsecutiveToolResultMessages` | open-sse/executors/bedrock.ts:179-190 | the objects after merging in place show the value-level merge of what they held before |
| `BedrockConverter.AllowedIds` | open-sse/executors/bedrock.ts:205-218 | the allowed ids of an assistant turn are those it uses and the very next user turn answers |
| `BedrockConverter.DropUnansweredUses` | open-sse/executors/bedrock.ts:219-222 | the filter keeps exactly the blocks that are no tool use or an allowed one |
| `BedrockConverter.PruneTurn` | open-sse/executors/bedrock.ts:203-227 | one assistant turn of the first pass: its content in place, and one more permitted result for each allowed id |
| `BedrockConverter.PruneUses` | open-sse/executors/bedrock.ts:202-227 | after the first pass each assistant turn shows its pruned value, and the counter of every id is the number of assistant turns whose next turn answers it |
| `BedrockConverter.DropSurplusResults` | open-sse/executors/bedrock.ts:231-238 | with its decremented counter map the filter keeps the first results of each id, list-wide, up to the quota |
| `BedrockConverter.FilterTurn` | open-sse/executors/bedrock.ts:229-239 | one user turn of the second pass, in place |
| `BedrockConverter.FilterResults` | open-sse/executors/bedrock.ts:229-239 | after the second pass every turn shows its sanitised value |
| `BedrockConverter.SanitizeBedrockToolPairs` | open-sse/executors/bedrock.ts:198-241 | the in-place two-pass filter computes the value-level sanitiser, whose definition has no counters |
| `BedrockSurvivors.JoinedExactly` | open-sse/executors/bedrock.ts:179-190 | a turn joins the one before it exactly when both hold nothing but tool results with an id |
| `BedrockSurvivors.KeptExactly` | open-sse/executors/bedrock.ts:198-241 | the content of every turn, block by block: uses answered by the next turn, the first results of each id up to its number of answered turns, every other block, in order, or a blank text |
| `BedrockPairing.SanitizedCounts` | open-sse/executors/bedrock.ts:198-241 | for every turn and id: uses survive all or none, results up to the room left by earlier turns |
| `BedrockPairing.ResultsKeptEqualTurnsUsing` | open-sse/executors/bedrock.ts:198-241 | for every list and every id, as many user results survive as there are assistant turns that keep a use of it |
| `BedrockPairing.MatchedAtMostResults` | open-sse/executors/bedrock.ts:203-227 | each counted assistant turn has its own next turn, so there are never fewer results than counted turns |
| `BedrockPairing.AnsweredExactly` | open-sse/executors/bedrock.ts:198-241 | every surviving result answers the turn right before it, once, if and only if no orphan or duplicate result of an id comes before a matched pair of that id |
| `BedrockPairing.PairedExactly` | open-sse/executors/bedrock.ts:198-241 | surviving uses and results are in one-to-one correspondence turn by turn if and only if, besides, no matched turn uses an id twice |
| `BedrockPairing.KeptAtFirstSurplus` | open-sse/executors/bedrock.ts:231-238 | the way it fails: the first surplus result is kept in place of the result of a later pair |
| `BedrockUniqueIds.UniqueIdsPair` | open-sse/executors/bedrock.ts:179-241 | with every id used once and no result before its use, uses and results pair up turn by turn and sanitising again changes nothing |
| `BedrockIdempotence.MergeShape` | open-sse/executors/bedrock.ts:179-190 | merging loses, adds and reorders no block, keeps roles, and leaves no two adjacent results-only turns |
| `BedrockIdempotence.SanitizeTouchesOnlyTools` | open-sse/executors/bedrock.ts:192-241 | turns and roles stay; all blocks but assistant uses and user results stay in order; only the blank placeholder of a turn that would be empty is added |
| `BedrockIdempotence.SanitizeShape` | open-sse/executors/bedrock.ts:192-241 | a non-empty list without empty turns stays so, and no two adjacent turns hold tool results only |
| `BedrockIdempotence.IdempotentExactly` | open-sse/executors/bedrock.ts:198-241 | sanitising again changes nothing if and only if no surplus result comes before a matched pair of its id |
| `BedrockIdempotence.UntouchedExactly` | open-sse/executors/bedrock.ts:198-241 | beyond merging, a list is left as it is if and only if its merged turns are already answered |
| `BedrockHistory.ConversionIsAcceptable` | open-sse/executors/bedrock.ts:243-313 | whatever the history: at least one turn, no empty turn, no adjacent results-only turns, and as many results as turns using each id |
| `BedrockHistory.ReusedIdBreaksPairing` | open-sse/executors/bedrock.ts:231-238 | a history, for every id and remark, where a stray repeated answer takes the result of a later call, which stays unanswered |
| `BedrockValidHistory.HistoryConverted` | open-sse/executors/bedrock.ts:243-306 | of a history in which every call is answered right after it, by one tool message each in any order, every message is converted in full, and no id stays pending |
| `BedrockLossless.HistoryMerged` | open-sse/executors/bedrock.ts:179-190 | merging gathers exactly the answers of each exchange into one turn |
| `BedrockLossless.ValidHistoryIsKept` | open-sse/executors/bedrock.ts:243-313 | such a history reaches Bedrock complete: each call is a use, its answers are the results of the next turn, all text and images stay, and nothing is pruned |
| `BedrockStream.DeltaToChunks` | open-sse/executors/bedrock.ts:560-583 | the content, reasoning and argument chunks of one delta; arguments carry the index of the latest start for the block, or 0 |
| `BedrockStream.HandleEvent` | open-sse/executors/bedrock.ts:538-594 | one event keeps the index map, the counter, the finish reason and the usage equal to their meaning over all events so far |
| `BedrockStream.CreateOpenAIStream` | open-sse/executors/bedrock.ts:511-603 | the whole stream is the transcript of its events, also when an exception event or a failing iterator ends it |
| `BedrockStream.EveryRun` | open-sse/executors/bedrock.ts:511-603 | the role chunk is first and only there, the end marker last and only there, and tools are announced under 0, 1, 2, ... in start order |
| `BedrockStream.TranscriptAt` | open-sse/executors/bedrock.ts:521-536 | nothing after the first exception event is looked at |
| `BedrockStream.EveryRunIs` | open-sse/executors/bedrock.ts:511-603 | every run spelled out: the role, what each event before the first exception sends, and the ending with its fault, the finish reason of the last stop (tool_calls, length or stop) and the last usage |
| `BedrockStreamAgreement.ContentBlocksToOpenAIMessage` | open-sse/executors/bedrock.ts:399-427 | joined text, which is null exactly when there are tool calls and no text; joined reasoning, which is there exactly when some block has it; the tool calls in block order, with printing of inputs abstract |
| `BedrockStreamAgreement.ReplyIs` | open-sse/executors/bedrock.ts:399-427 | the content is null if and only if there is a tool call and no text, reasoning is there if and only if some block has it, and each tool keeps its id and name with its input printed |
| `BedrockStreamAgreement.StreamAgreesWithBlocks` | open-sse/executors/bedrock.ts:399-445 | for every well-formed stream the client collects the text, reasoning, tool ids, names and arguments of the non-streaming message built from the same blocks, and the converted stop reason |
| `AntigravityRetry.Records.TryResolveRetryFromErrorBody` | open-sse/executors/antigravity.ts:1419-1500 | the retry time, the one credits attempt, the persisted cooldowns and the credit failures that are counted and marked for one error body |
| `TransientErrors.AnnouncedExactly` | open-sse/executors/antigravity.ts:1503-1524 | the transient test keeps what its comment announces, a 5xx only with a known pattern in its text, exactly unless a transient 5xx has a text that matches none |
| `TransientErrors.BusyIsRetried` | open-sse/executors/antigravity.ts:892-896 | an input that shows it: a 503 that says busy |
| `TransientErrors.ShortTextMatchesNothing` | open-sse/executors/antigravity.ts:82-90 | no text of fewer than seven characters matches any of the patterns |
| `TransientErrors.RetriedExactly` | open-sse/executors/antigravity.ts:892-896 | which statuses and texts count as transient, and that a text that can be read is all that a retried 5xx needs |
| `TransientErrors.MatchesExactly` | open-sse/executors/antigravity.ts:82-90 | a text matches if and only if, in lower case, it holds one of the listed phrases with any white space between its words |
| `AntigravityRetry.Records.HandleAntigravityRateLimit` | open-sse/executors/antigravity.ts:1344-1411 | which of stay, next URL, fall through, return and abort follows a 429 or 503, with the counters and sleeps it causes |
| `AntigravityRetry.RetriedInPlaceExactly` | open-sse/executors/antigravity.ts:1344-1399 | exactly when a 429 or 503 is retried on its URL: a retry is left, and the retry time of the headers or of the parsed body is short, or the body did not parse and, for a 503, could be read again; what the error says never decides |
| `AntigravityRetry.Records.RunAntigravityAttempt` | open-sse/executors/antigravity.ts:1206-1288 | one attempt; the generic status fallback after the rate-limit branch is never reached for a 429 |
| `AntigravityRetry.ExecuteOnce` | open-sse/executors/antigravity.ts:1104-1198 | the loop that cancels its own increment ends for every sequence of replies, with the value-level run |
| `AntigravityRuns.RoundIs` | open-sse/executors/antigravity.ts:1133-1500 | what one round decides and does, as one table with its numbers: answers, errors, aborts, the one credits attempt, waits of at most 60 seconds, back-off of 2, 4 and 8 seconds, the next URL, the embedded 429, and every action that is logged |
| `AntigravityRuns.EveryRunIsPath` | open-sse/executors/antigravity.ts:1104-1198 | every run is a path through that table from the first URL with empty records, and ends as the table says of its last reply |
| `AntigravityRetry.StayingCounts` | open-sse/executors/antigravity.ts:1344-1411 | staying on a URL uses up one of its retries, and only that; moving on never skips a URL; this is why a run ends |
| `AntigravityBounds.EveryRun` | open-sse/executors/antigravity.ts:1104-1198 | every run: URLs in order, each counter equal to the sleeps on its URL and at most 3, at most 4 sends a URL, at most one credits send, at most 3 minutes of sleep a URL, and the error after the loop is not reached |
| `AntigravityPersistence.PersistentRateLimit` | open-sse/executors/antigravity.ts:1133-1196 | the bounds are reached: a persistent short 429 costs exactly four sends and three sleeps on every URL and is then handed back |
| `AntigravityDefaults.GenerationConfig.ApplyAntigravityGenerationDefaults` | open-sse/executors/antigravity.ts:292-332 | the configuration after the call: two defaults for missing fields only, and the output limit |
| `AntigravityDefaults.LimitIs` | open-sse/executors/antigravity.ts:310-329 | the output limit: one more than the whole part of a thinking budget it does not exceed, never above 16384, and otherwise left alone |
| `AntigravityDefaults.CapHolds` | open-sse/executors/antigravity.ts:319-329 | no finite output limit goes upstream above 16384 |
| `AntigravityDefaults.RoomExactly` | open-sse/executors/antigravity.ts:310-329 | the limit exceeds a positive thinking budget if and only if the budget is below 16384 |
| `AntigravityDefaults.AppliedTwice` | open-sse/executors/antigravity.ts:292-332 | a second application changes nothing |
| `AntigravityDefaults.UntouchedExactly` | open-sse/executors/antigravity.ts:310-329 | exactly which limits are left alone |
| `AntigravityBounds.RoundKeepsSound` | open-sse/executors/antigravity.ts:1133-1196 | the invariant of one round, whatever the upstream answers |
| `AntigravityBounds.BackoffIsShort` | open-sse/executors/antigravity.ts:1383-1399 | the exponential back-off of the first three retries is 1000 ms times 2, 4 and 8, so neither cap is ever reached |
| `AntigravityChain.ExecuteChain` | open-sse/executors/antigravity.ts:1047-1095 | the fallback loop always ends inside: the first decisive outcome, else the first 400, else the last error; the run after the loop is never made |
| `AntigravityChain.Execute` | open-sse/executors/antigravity.ts:1034-1095 | without a chain one run; with one at most as many runs as candidates, none after the first decisive outcome |
| `AntigravityChain.ChainBounds` | open-sse/executors/antigravity.ts:1047-1095 | sends and sleeps over a whole chain are at most those of one run times the number of runs |
| `AntigravityContents.FilterParts` | open-sse/executors/antigravity.ts:622-637 | the parts that survive: not empty text, not nameless calls, not thoughts, no foreign signature unless the content has a call |
| `AntigravityContents.SurvivingGrows` | open-sse/executors/antigravity.ts:616-640 | which parts of a content survive, spelled out, in what order and under which role; a function response makes it the user's |
| `AntigravityContents.PushTurn` | open-sse/executors/antigravity.ts:641-649 | one step of the merge, in place on the last turn |
| `AntigravityContents.NormalizeContents` | open-sse/executors/antigravity.ts:610-649 | the turns are non-empty, alternate in role, and hold exactly the surviving parts in order under their re-assigned roles |
| `AntigravityContents.MergeAllIs` | open-sse/executors/antigravity.ts:641-649 | the merge, for every list: non-empty alternating turns whose parts are the surviving ones |
| `AntigravityContents.MergeIsUnique` | open-sse/executors/antigravity.ts:641-649 | there is only one list of turns with those properties |
| `AntigravityContents.StripTrailingAssistantTurn` | open-sse/executors/antigravity.ts:408-424 | pops trailing model turns only and never the last entry left |
| `AntigravityContents.StripMerged` | open-sse/executors/antigravity.ts:408-424 | on merged turns at most one turn is popped |
| `AntigravityContents.StripPopsAtMostOne` | open-sse/executors/antigravity.ts:408-424 | alternation is what limits the strip to one turn |
| `AntigravityContents.TransformContents` | open-sse/executors/antigravity.ts:610-668 | merged turns go upstream if a part survives, otherwise the raw contents; on the Claude path minus the trailing model turn |
| `CreditBalanceCache.Cache.Hydrate` | open-sse/executors/antigravity.ts:145-156 | loads once; rows never replace what is cached, and each loaded entry carries the clock of its own row |
| `CreditBalanceCache.Cache.GetRemainingCredits` | open-sse/executors/antigravity.ts:177-186 | the answer and the cache after the one-time load, with the expired entry of the key removed |
| `CreditBalanceCache.Cache.UpdateRemainingCredits` | open-sse/executors/antigravity.ts:188-197 | the cache and the persisted balances after a write that may fail to persist |
| `CreditBalanceCache.Cache.EvictStaleEntries` | open-sse/executors/antigravity.ts:158-170 | the sweep keeps the newest of the fresh entries |
| `CreditBalanceCache.WriteLeaves` | open-sse/executors/antigravity.ts:188-197 | what a write leaves of any cache and database: its entry and all others, but for the oldest when 50 or more are there and the key is new; in which order; and what is persisted |
| `CreditBalanceCache.ReadYourWrite` | open-sse/executors/antigravity.ts:177-197 | a written balance is read back until it is older than the time to live and not after, whatever is loaded meanwhile |
| `CreditBalanceCache.SweepLeaves` | open-sse/executors/antigravity.ts:158-170 | what a sweep leaves: entries at most 300000 ms old, in order, at most 50 and then the newest |
| `CreditBalanceCache.ReadLeaves` | open-sse/executors/antigravity.ts:145-186 | what a read answers and leaves, and what it loads: the rows of accounts without an entry, in order; an entry too old is removed and not answered |
| `CreditBalanceCache.FirstReadLoads` | open-sse/executors/antigravity.ts:145-148 | only the first read of a history tries to load |
| `CreditBalanceCache.CacheStaysSmall` | open-sse/executors/antigravity.ts:145-197 | in every history at most 50 entries beyond the rows of the one load, and at most 50 after a sweep |
| `CreditBalanceCache.ReadAgain` | open-sse/executors/antigravity.ts:177-186 | a read changes no later answer for its key at that time |
| `CreditBalanceCache.EntriesAreSupplied` | open-sse/executors/antigravity.ts:145-197 | in every history the cache holds nothing an unbounded cache without expiry would not |
| `CreditBalanceCache.LoadIsCurrentExactly` | open-sse/executors/antigravity.ts:145-156 | a load of the whole database leaves all entries current if and only if the database is, for every key without an entry |
| `CreditBalanceCache.FirstLoadIsCurrentExactly` | open-sse/executors/antigravity.ts:145-197 | after the one load of any history all entries are the last balances if and only if, for every stored key that had no entry, the last write is the last persisted one |
| `CreditBalanceCache.ReadsAreCurrentExactly` | open-sse/executors/antigravity.ts:145-197 | in every history a balance read was written or loaded at most the time to live ago, and is the last one if and only if its load was not stale: no entry then, a different balance persisted, no write since |
| `CreditBalanceCache.ReadsAreCurrent` | open-sse/executors/antigravity.ts:145-197 | so, where the writes before the first read are persisted, every balance read is the last one |
| `CreditBalanceCache.UnpersistedWriteIsLost` | open-sse/executors/antigravity.ts:193-196 | a history with a failed persist where the first read answers an older balance |
| `AdaptaStream.TransformStream` | open-sse/executors/adapta-web.ts:238-329 | what is sent depends on the concatenated text only, not on how it was cut into chunks, and is the transcript of that text |
| `AdaptaStream.Controller.ReadLine` | open-sse/executors/adapta-web.ts:283-318 | what one line sends, and when the loop ends |
| `AdaptaStream.EveryRun` | open-sse/executors/adapta-web.ts:253-327 | exactly one role chunk, then content, then one stop chunk and one end marker, and nothing else |
| `AdaptaStream.TranscriptIs` | open-sse/executors/adapta-web.ts:253-327 | everything a run sends: the role, the strings of the lines before the one that ends the stream, the note if that is an error, and the end markers |
| `AdaptaStream.CollectText` | open-sse/executors/adapta-web.ts:465-492 | the collected text is that of all finished lines, however the text was cut |
| `AdaptaStream.CollectedIs` | open-sse/executors/adapta-web.ts:476-485 | what the collecting reader takes from each line: the text, or whatever else is printed, of every text event that is no placeholder, also behind the end |
| `AdaptaStream.ReadersAgreeExactly` | open-sse/executors/adapta-web.ts:276-327 | with no error event reached, the streamed content equals the collected text if and only if all text comes as strings and before a done or end event |
| `AdaptaMessages.BuildAdaptaMessages` | open-sse/executors/adapta-web.ts:201-234 | the non-blank user and assistant messages in order, the system prompt in front of the first user message and nowhere else |
| `AdaptaMessages.SentAt` | open-sse/executors/adapta-web.ts:216-219 | sent are exactly the messages of the user and the assistant that are not blank, in order |
| `AdaptaMessages.PromptGrows` | open-sse/executors/adapta-web.ts:205-213 | the prompt is made of the texts of the system messages, a line each, without leading empty ones |
| `RegistryIndex.IndexCache.GetRegistryModelIndex` | open-sse/config/registryUtils.ts:32-50 | the cached first-wins index answers every model as scanning the providers does, on the first call and on later ones |
| `RegistryIndex.IndexCache.ParseModelFromRegistry` | open-sse/config/registryUtils.ts:52-80 | the parser with the cache gives the value-level parse |
| `RegistryIndex.FirstHolderIs` | open-sse/config/registryUtils.ts:37-42 | scanning and index name the first provider that holds the model, and none exactly when no provider does |
| `RegistryIndex.ParseIs` | open-sse/config/registryUtils.ts:52-80 | every string: the first provider whose id or alias begins it and what is behind, id before alias; else the first that holds it, unless its id is empty |
| `RegistryIndex.ParsersAgreeExactly` | open-sse/config/audioRegistry.ts:592-623 | without aliases the indexed and the linear-scan parser agree, except exactly for a bare model first held by a provider with the empty id |
| `RegistryIndex.GetAllModelsFromRegistry` | open-sse/config/registryUtils.ts:82-107 | every model with its name under every non-empty prefix, in order, with the extra fields of its provider |
| `RegistryIndex.ListingIs` | open-sse/config/registryUtils.ts:82-107 | the listing holds the entry of every model of every provider under each prefix and nothing else |
| `RegistryIndex.ListingGrows` | open-sse/config/registryUtils.ts:89-104 | the order of the listing: models in order, each under the id and then under the alias |
| `RegistryIndex.PrefixesParseExactly` | open-sse/config/registryUtils.ts:52-80 | behind every prefix any model string parses back if and only if no two providers share an id or alias |
| `RegistryIndex.RoundTripExactly` | open-sse/config/registryUtils.ts:52-107 | every listed id parses back to its provider and model if and only if no provider with models has a prefix of an earlier provider |
| `RegistryIndex.ListedIdsParse` | open-sse/config/registryUtils.ts:82-107 | each entry of such a listing parses to a provider and a model it was made of |
| `EmbeddingRegistry.GetAllEmbeddingModels` | open-sse/config/embeddingRegistry.ts:548-566 | every model under its scoped id, in order, with its name and dimension |
| `EmbeddingRegistry.ListingIs` | open-sse/config/embeddingRegistry.ts:548-566 | the listing holds the entry of every model of every provider and nothing else |
| `EmbeddingRegistry.ListingGrows` | open-sse/config/embeddingRegistry.ts:548-566 | the order of the listing, and when the provider is put before the model |
| `EmbeddingRegistry.PrefixedParses` | open-sse/config/embeddingRegistry.ts:408-478 | where a string with a slash leads: the provider it names or stands for, else the first whose id begins it, else the first dynamic one, else what is before the slash; and which of its models |
| `EmbeddingRegistry.BareParses` | open-sse/config/embeddingRegistry.ts:480-491 | any other string leads to the first provider that holds it |
| `EmbeddingRegistry.ListedParsesExactly` | open-sse/config/embeddingRegistry.ts:408-492 | a listed id parses to its provider, and to its own model id if and only if the provider does not also hold the id without the prefix |
| `EmbeddingRegistry.RoundTripExactly` | open-sse/config/embeddingRegistry.ts:421-492 | all listed ids parse back if and only if no provider holds both `m` and `provider/m` |
| `EmbeddingRegistry.ListedIdsParse` | open-sse/config/rerankRegistry.ts:140-218 | without such twins each entry of the listing parses, in both registries, to the provider and model it was made of |
| `EmbeddingRegistry.RerankParses` | open-sse/config/rerankRegistry.ts:168-201 | the rerank parser agrees where a provider is found, and looks the whole string up where none is |
| `EmbeddingRegistry.ListedDimensionIsFound` | open-sse/config/embeddingRegistry.ts:494-507 | the dimension of a listed model is found through its listed id |
| `EmbeddingRegistry.DetectDimensionConflict` | open-sse/config/embeddingRegistry.ts:509-527 | a conflict is reported exactly when two of the models have known and different dimensions |
| `ProviderRegistry.Tables.EnsureByAliasPopulated` | open-sse/config/providerRegistry.ts:166-176 | the populated alias table answers as the scan for the last entry with the alias |
| `ProviderRegistry.Tables.GetRegistryEntry` | open-sse/config/providerRegistry.ts:178-182 | an own key wins over an alias |
| `ProviderRegistry.Tables.EnsureUnsupportedParamsPopulated` | open-sse/config/providerRegistry.ts:190-209 | the populated table answers as the scan for the first model that carries restrictions |
| `ProviderRegistry.Tables.GetUnsupportedParams` | open-sse/config/providerRegistry.ts:211-242 | the table lookups give what scanning the whole registry would, on every call |
| `ProviderRegistry.UnsupportedIs` | open-sse/config/providerRegistry.ts:218-242 | whose restrictions are given, in this order: the provider's own model, the first restricted model of that id anywhere, the first of what follows the last slash, the provider |
| `ProviderRegistry.AllModelsAre` | open-sse/config/providerRegistry.ts:194-195 | all models in order: those of an entry between those of the entries before and after it |
| `ProviderRegistry.LastWithAliasIs` | open-sse/config/providerRegistry.ts:170-175 | of several entries with an alias the last is named |
| `ProviderRegistry.FirstRestrictedIs` | open-sse/config/providerRegistry.ts:194-207 | of several models with an id the first that carries restrictions counts |
| `FreeModelTotals.DedupedSum` | open-sse/config/freeModelCatalog.ts:80-95 | the one-pass sum with its pool map is the sum of the pool maxima and the amounts without a pool |
| `FreeModelTotals.PoolMaxIs` | open-sse/config/freeModelCatalog.ts:86-92 | a pool's figure is an upper bound of its amounts and one of them |
| `FreeModelTotals.TotalOfPermutation` | open-sse/config/freeModelCatalog.ts:80-95 | the order of the catalogue does not matter |
| `FreeModelTotals.TotalGrows` | open-sse/config/freeModelCatalog.ts:80-95 | what one more row adds: its own amount without a pool, and otherwise what it has beyond the largest of its pool; which types each sum counts, and with which amount |
| `FreeModelTotals.TotalAtMostPlainSum` | open-sse/config/freeModelCatalog.ts:80-95 | a total never exceeds the plain sum |
| `FreeModelTotals.ComputeFreeModelTotals` | open-sse/config/freeModelCatalog.ts:97-140 | the published figures: three token sums, the boosts of live pools, the uncapped providers, the numbers of models and pools |
| `FreeModelTotals.AllowedAt` | open-sse/config/freeModelCatalog.ts:98-98 | exactly the rows to avoid are left out, in order |
| `FreeModelTotals.BoostsGrow` | open-sse/config/freeModelCatalog.ts:125-130 | a boost counts if and only if its pool is live |
| `FreeModelTotals.ExcludingRaisesNothing` | open-sse/config/freeModelCatalog.ts:97-140 | leaving out the models to avoid raises no figure, and steady <= with credits <= first month |
| `EnvFile.ParseEnvFile` | electron/main.js:543-554 | the parser, line by line; no entries without a file |
| `EnvFile.ParsedIsPrintable` | electron/main.js:543-554 | whatever the text, every parsed entry is one the printer can write faithfully |
| `EnvFile.LastAssignmentCounts` | electron/main.js:546-552 | what a line sets, if anything: the name before and the value behind the first equals sign, trimmed; the last line for a name counts |
| `EnvFile.PrintIs` | electron/main.js:596-602 | the text written: the comment, an empty line and each entry on a line of its own |
| `EnvFile.RoundTripExactly` | electron/main.js:543-602 | printing and parsing gives an object back if and only if all its entries are printable and its keys distinct |
| `EnvBootstrap.Start` | electron/main.js:556-607 | the environment, the file written and the refusal of one start |
| `EnvBootstrap.OverlayIs` | electron/main.js:561-561 | a spread takes each variable from the later object when that has it, even when it is empty |
| `EnvBootstrap.StartSets` | electron/main.js:560-602 | what a start makes of every variable, from process, preferred and stored file in that order: each missing secret its own random text, the version with the key, the flag that alone is not stored; and when it is refused |
| `EnvBootstrap.NextStartIsQuietExactly` | electron/main.js:543-607 | the next start generates nothing if and only if this one generated nothing, or its secrets reached the file and none is set to the empty string from outside |
| `EnvBootstrap.NextStartSees` | electron/main.js:543-607 | the server of a quiet next start sees every variable as before with exactly two exceptions: a version of the key set from outside that the first start overrode, and the flag it raised |
| `EnvBootstrap.LaterStartsAreQuiet` | electron/main.js:543-607 | after a start that stored its secrets no later start, in any number, writes or generates anything |
| `EnvBootstrap.NamesAreUsable` | electron/main.js:564-593 | the variable names of the source meet the conditions above |
| `HeaderOrder.OrderHeaders` | open-sse/config/cliFingerprints.ts:232-262 | the loop over the case-insensitive map computes the reordering; an empty list changes nothing |
| `HeaderOrder.OrderFields` | open-sse/config/cliFingerprints.ts:206-226 | the loop over the remaining set computes the same reordering with exact names |
| `HeaderOrder.LatestIs` | open-sse/config/cliFingerprints.ts:241-245 | the lookup holds the last field of every name in the order in which names first appear |
| `HeaderOrder.OrderedExactly` | open-sse/config/cliFingerprints.ts:232-262 | the result is the only list that holds the last field of every name, listed names first in list order, the rest by first appearance |
| `HeaderOrder.OrderedTwice` | open-sse/config/cliFingerprints.ts:232-262 | reordering again changes nothing |
| `HeaderOrder.PermutationExactly` | open-sse/config/cliFingerprints.ts:232-262 | the result is a permutation of the input if and only if no two names are equal after case folding |
| `HeaderOrder.FieldsArePermuted` | open-sse/config/cliFingerprints.ts:206-226 | a body keeps all its fields, in the same order law |
| `ToolCloaking.StripEnumDescriptions` | open-sse/config/toolCloaking.ts:15-31 | the recursion that fills fresh objects computes the stripped tree |
| `ToolCloaking.StrippedMentionsNothing` | open-sse/config/toolCloaking.ts:15-31 | the key is left at no depth |
| `ToolCloaking.UnchangedExactly` | open-sse/config/toolCloaking.ts:15-31 | exactly the trees without the key are left alone, and stripping twice is stripping once |
| `ToolCloaking.StripLookup` | open-sse/config/toolCloaking.ts:15-31 | every path leads to what it led to, stripped, unless it goes through the key |
| `ToolCloaking.StrippedKeys` | open-sse/config/toolCloaking.ts:23-28 | all other keys stay in their order |
| `ToolCloaking.PayloadLookup` | open-sse/config/toolCloaking.ts:39-85 | what every path of the payload leads to: in the parameters of function declarations what it led to without the key, on the way there a value of the same shape, anywhere else the same value |
| `ToolCloaking.SanitizeAntigravityToolPayload` | open-sse/config/toolCloaking.ts:39-85 | the code with its guards and changed flags computes that rewriting; the flags only save rebuilding |
| `ToolCloaking.SanitizeTool` | open-sse/config/toolCloaking.ts:46-72 | one tool; unless it is flagged as changed it is the same |
| `ToolCloaking.SanitizeDeclarations` | open-sse/config/toolCloaking.ts:53-64 | declarations in order, only their parameters rewritten |

## Left out

- Random ids: `toolu_` ids are a parameter; that generated ids differ from all others is not assumed and not needed.
- Payloads no branch looks at: tool-result text computed from a message, parsed JSON arguments, image bytes and the extra fields of Antigravity contents are carried as given.
- System blocks, tool configuration and inference settings of the Bedrock request (`open-sse/executors/bedrock.ts:109-121` and `315-374`): one-branch field copying.
- Bedrock tool results inside assistant turns, tool uses inside user turns and blank ids: the sanitiser does not filter them, so pairing speaks of assistant uses, user results and non-blank ids.
- Contents that are not arrays in the Bedrock sanitiser: the converter never produces them.
- Usage arithmetic, HTTP status mapping of stream exceptions and the bytes of the SSE framing.
- BedrockStreamAgreement.StreamAgreesWithBlocks: for well-formed streams only (block indexes increasing, each start before its deltas, one kind of content in a delta, no exception event); JSON printing is a parameter.
- AntigravityRetry.ExecuteOnce: an upstream URL count of 0 does not occur, because `getFallbackCount` gives at least 1; the bounds are stated for at least one URL.
- AntigravityRetry.Records.TryResolveRetryFromErrorBody: a failure to serialise the credits request before it is sent is not modelled; parsing of retry times and classification of messages are parameters. That credits failed is recorded; what the record does to later requests is not modelled.
- TransientErrors.ShouldAutoRetry: the flattening of an error body into one text is a parameter.
- Token refresh, project discovery, request envelopes, header profiles, response collection and logging of the Antigravity executor.
- Safety settings and the Gemini sanitiser of the Antigravity request: field filters without interplay.
- AntigravityDefaults.UntouchedExactly: a limit given as a numeric string counts as the number it stands for.
- AdaptaStream.TransformStream: decoding of bytes is not modelled, so chunks are decoded text; a reader failure ends the text.
- AdaptaStream.ReadersAgreeExactly: an error event shows its message to the streaming client only, so it is excluded; that both readers parse payloads alike up to surrounding white space is assumed of the JSON parser.
- The Adapta session cache: its key is a truncated token.
- Credit extraction from streams; of the persistence layer only whether a write succeeds and that a successful load returns everything stored.
- RegistryIndex.GetAllModelsFromRegistry: the extra fields of a provider are one opaque value and do not override id, name or provider.
- The rerank lister, which has the shape of the embedding lister, and dynamic audio providers.
- The literal provider, model and free-tier tables: everything is proved for arbitrary ones.
- FreeModelTotals.ComputeFreeModelTotals: the uncapped providers are a set, so their sorting is not modelled; the sorted model list, the headline and other formatted texts are left out.
- Which files the desktop shell looks for, and everything else in `electron/main.js`.
- EnvBootstrap.NextStartIsQuietExactly: the file is as this start left it and the environment of the next start is the same; another process writing the file is not modelled.
- White space other than space, tab, line feed and carriage return in trimming, and integer-like or prototype keys of JavaScript objects.
- HeaderOrder.OrderHeaders: case folding is an arbitrary function of the name, so nothing about letters is assumed.
- ToolCloaking.SanitizeAntigravityToolPayload: values, not object identity; that the very same object comes back when nothing changed is not stated.
