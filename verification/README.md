# Verified model of the OmniRoute streaming engine's core protocols

This Dafny project models the parts of `open-sse` whose correctness spans many steps, and proves what they promise
for every input and every run:

- **Bedrock** (`open-sse/executors/bedrock.ts`): the translation of an OpenAI conversation into a Converse
  conversation, the two in-place passes that keep tool calls and tool results in step, and the streaming and
  non-streaming translations of one answer.
- **Antigravity** (`open-sse/executors/antigravity.ts`): the retry loop over fallback URLs, the normalisation of the
  conversation, the generation defaults, and the credit-balance cache.
- **Adapta** (`open-sse/executors/adapta-web.ts`): the two incremental line parsers, for any cutting of the input
  into pieces, and the building of the message list.
- **Chipotle** (`open-sse/executors/chipotle.ts`): frames and body extraction of STOMP 1.1 (section "STOMP Frames"),
  the pending calls of the client, the client pool, and the requests on pooled clients.
- **Configuration helpers** (`open-sse/config`): pool-deduplicated totals, the model registries with their cached
  index and catalog ids, the embedding registry, and the reordering of fields and headers.

Code that updates state in place is modelled by classes and methods with loops (the modules ending in `Code`, and the
classes and methods in the other modules). Each such method is proved equal to a function of its inputs or of the old
state, and the laws are lemmas about that function. `Basics.dfy` holds optional values, the string operations and the
insertion-ordered map that JavaScript's `Map` and objects are.

## What the proofs found

- The sanitiser pairs calls and results by a count per id, not by position. `BedrockPairing.CountingLaw` holds
  always. Positional pairing holds exactly when the results and the answered calls of the id alternate in the merged
  input (`PairingIffAlternating`), and sanitising is idempotent on exactly the same inputs. An early stray result
  makes both fail (`StrayAnswerBreaksPairing`).
- A tool input for a block that has not started is credited to the first tool call of the stream, since the code
  falls back to index 0. The two translations of an ordered stream agree exactly when no such input, unless it is
  empty or before any tool start, is there (`BedrockStreamAgreement.AgreementIffNoStray`).
- The sanitiser pays for results in order: when two messages answer one call, the first output is kept, and the later
  one is dropped (`BedrockToolBlocks.FirstResultsSurvive`).
- The caps on the backoff of the retry loop never bind: the sleeps without a known retry time are 2, 4 and 8 seconds,
  and a known time is slept exactly (`AntigravityRetryTrace.RunIsPath`).
- The bounds of the retry loop are reached: a persistent 429 uses four sends and three minutes on each URL
  (`AntigravityRetryBounds.BoundsAreReached`).
- When no part of a conversation survives the filter, the request keeps the caller's own `contents` array, and for
  Claude models the strip pops the caller's array (`AntigravityContentsCode.CallersArrayShrinks` says exactly when).
- With a positive thinking budget, the output limit ends up above it exactly when the budget is below 16384.
- The two Adapta loops differ on a `null` payload, which ends the stream but is skipped by the collecting loop, on
  text deltas that are no strings, and on blank characters around a payload that JavaScript trims and JSON does not
  allow. `StreamEqualsCollection` and `ExoticEdgesDecide` give the exact conditions.
- Body extraction from a CRLF frame fails for a text with LF LF in it, and also for one that starts with LF. Some
  bodies that start with NUL come back, because the bounds of the cut come out swapped (`CrlfRoundTrip`).
- Messages are not matched to calls: whichever comes next on a client answers the request it serves. All requests
  get their own answers exactly if no message for another call comes while one is open (`ClientAnswers`). A first
  message for each call never does, since a call that fails closes its client; a second one can
  (`LateAnswerCrosses`).
- A tool call without an id and its answer without an id are both lost in translation: each gets a generated id of
  its own, and no generated id survives the sanitiser (`BedrockGeneratedIds.GeneratedIdsVanish`).
- Catalog ids of the shared registries parse back exactly when no provider with models bears a name of an earlier
  provider; those of the embedding registry exactly when no provider p lists both x and p/x.

## Model

| member | source | states |
|---|---|---|
| BedrockMessages.TrimmedIsNormal | open-sse/executors/bedrock.ts:52-54 | An id that was normalised once is found again as the same id: normalising is idempotent on what is written into blocks. |
| BedrockMessages.KeyIffNotBlank | open-sse/executors/bedrock.ts:52-54 | An id counts exactly when it is not blank, and then by a spelling without blank at its ends. |
| BedrockSanitizerCode.MergeConsecutiveToolResultMessages | open-sse/executors/bedrock.ts:179-190 | Runs of result-only user messages are pushed into the first message object of the run; the list read afterwards is the merged list of what was there before, made of the given objects, each once. |
| BedrockSanitizerCode.AddPermits | open-sse/executors/bedrock.ts:222-224 | Counts one permit for each answered id and changes no other count. |
| BedrockSanitizerCode.DropUnansweredUses | open-sse/executors/bedrock.ts:202-225 | First pass in place: every assistant message keeps exactly the calls that the next message answers, a message left empty gets a placeholder, and the counts are the numbers of answered calls. |
| BedrockSanitizerCode.SpendPermits | open-sse/executors/bedrock.ts:229-236 | Filtering one message against the running budget keeps, of each id, the first results that the permits still pay for, and leaves the rest of the budget. |
| BedrockSanitizerCode.DropUnpaidResults | open-sse/executors/bedrock.ts:227-238 | Second pass in place over all user messages. |
| BedrockSanitizerCode.PassesSanitize | open-sse/executors/bedrock.ts:202-240 | The two passes, run one message after another, give the position-by-position definition of the sanitised list. |
| BedrockSanitizerCode.SanitizeBedrockToolPairs | open-sse/executors/bedrock.ts:198-241 | The in-place sanitiser turns the given message objects into the sanitised list of their old contents, and touches nothing else. |
| BedrockPairing.SanitizedHolds | open-sse/executors/bedrock.ts:216-220 | After sanitising, an assistant message calls an id if and only if it did and the very next message is a user message that answers it. |
| BedrockPairing.SanitizedResults | open-sse/executors/bedrock.ts:227-238 | Counted up to every position, as many results for an id are left as there were, but no more than the id has permits. |
| BedrockPairing.CountingLaw | open-sse/executors/bedrock.ts:198-241 | For every message list and id, the results left equal in number the assistant messages that still call the id. |
| BedrockPairing.PairingIffAlternating | open-sse/executors/bedrock.ts:198-241 | Each call is answered once, in the next message, and each result follows its call, if and only if results and answered calls of the id alternate in the merged input. |
| BedrockPairing.FreshIdsArePaired | open-sse/executors/bedrock.ts:198-241 | An id called by one message at most and not answered before it comes out paired message by message. |
| BedrockPairing.MergeKeepsFresh | open-sse/executors/bedrock.ts:179-190 | Merging changes no count of calls or results and keeps ids fresh. |
| BedrockPairing.AnsweredCallSurvives | open-sse/executors/bedrock.ts:216-225 | A call answered by the very next message is never lost, whatever stands around the two. |
| BedrockPairing.StrayAnswerBreaksPairing | open-sse/executors/bedrock.ts:227-236 | A concrete conversation in which an early result takes the permit and the call is left unanswered by its next message. |
| BedrockToolBlocks.FirstResultsSurvive | open-sse/executors/bedrock.ts:198-241 | Of all results for an id in the list, in order and across messages, the first ones are left, unchanged: as many as assistant messages still call the id. |
| BedrockToolBlocks.AssistantKeeps | open-sse/executors/bedrock.ts:202-225 | An assistant message keeps exactly the calls that the next message answers, and every other block, unchanged and in order; left empty, it gets the placeholder. |
| BedrockToolBlocks.UserKeeps | open-sse/executors/bedrock.ts:227-239 | A user message keeps its blocks in order, and all that are not results with an id; left empty, it gets the placeholder. |
| BedrockToolBlocks.AllCallsSurvive | open-sse/executors/bedrock.ts:202-225 | When no assistant message loses its calls of an id, all calls of it are left, unchanged and in order. |
| BedrockFixpoint.IdempotentIffAlternating | open-sse/executors/bedrock.ts:198-241 | Sanitising twice equals sanitising once exactly when every id alternates in the merged input. |
| BedrockFixpoint.FreshConversationIsFixed | open-sse/executors/bedrock.ts:198-241 | When every id is called once and not answered before, sanitising again changes nothing. |
| BedrockContent.SanitizeKeepsPlain | open-sse/executors/bedrock.ts:179-241 | Apart from single-space placeholders, text and image blocks come out as they went in, in order and each in its role. |
| BedrockContent.SanitizeNonEmpty | open-sse/executors/bedrock.ts:192-196 | A non-empty list of non-empty messages stays one. |
| BedrockContent.MergeJoinsResults | open-sse/executors/bedrock.ts:170-190 | Merging joins neighbours that hold nothing but results with an id, and nothing else: all other messages stand as they were, the results keep their order, and no two neighbours could still be joined. |
| BedrockConversionCode.CollectAnsweredToolUseIds | open-sse/executors/bedrock.ts:143-160 | The loop collects exactly the ids answered by a tool message or a tool_result part anywhere in the request. |
| BedrockConversionCode.TextBlocksFromContent | open-sse/executors/bedrock.ts:56-107 | The block list of a content value, with skipped and unanswered tool_use parts left out, and the number of generated ids drawn. |
| BedrockConversionCode.PushToolCalls | open-sse/executors/bedrock.ts:279-299 | Pending and unanswered calls are skipped, all others become toolUse blocks and pending ids. |
| BedrockConversionCode.ConvertMessages | open-sse/executors/bedrock.ts:243-310 | The conversion loop builds new message objects that show the converted conversation. |
| BedrockConversionCode.MessagesFromOpenAI | open-sse/executors/bedrock.ts:243-313 | The whole translation, conversion and sanitising in place, returns new objects that show the specified conversation. |
| BedrockConversion.ConversationNonEmpty | open-sse/executors/bedrock.ts:301-313 | Every request yields at least one message, and every message at least one block. |
| BedrockConversion.ConversationCounts | open-sse/executors/bedrock.ts:243-313 | For every request and id, calls and results are left in equal number. |
| BedrockConversion.ConversationPlain | open-sse/executors/bedrock.ts:243-313 | The texts and images of the request come out in order, each in the role of its message; only single-space placeholders are added. |
| BedrockTurns.TurnByTurn | open-sse/executors/bedrock.ts:243-310 | Each message of the request but system prompts becomes one message: in its role, with its text and images, with its results for a caller's id with their outputs and states, and, when the id is answered anywhere and no tool call of it is pending, with its calls of the id with their names and inputs. |
| BedrockTurns.TurnsInOrder | open-sse/executors/bedrock.ts:243-310 | The blocks of each converted message stand in the order of its parts, one for each at most, followed by its tool calls in theirs; a message of which nothing is left holds a single space. |
| BedrockTurns.ConversationResults | open-sse/executors/bedrock.ts:243-313 | After conversion and sanitising, the results for a caller's id are the first ones of the request, with their own outputs and states, in order: as many as calls of the id are left. |
| BedrockTurns.ConversationCalls | open-sse/executors/bedrock.ts:243-313 | The calls of a caller's id that are left are calls of the request, in order, each with the name and input it was made with. |
| BedrockHistory.ConversationPaired | open-sse/executors/bedrock.ts:243-313 | A caller's id that one request message calls, and that is not answered before, is paired message by message in the converted conversation. |
| BedrockHistory.AnsweredCallReachesBedrock | open-sse/executors/bedrock.ts:243-313 | A fresh call of an assistant message whose answer is the next request message is still there after conversion and sanitising, with its name and input; its one result is the first that the answering message holds, which for a tool message carries that message's own output. |
| BedrockHistory.OneHolder | open-sse/executors/bedrock.ts:279-299 | A fresh id is called by one message at most in the converted conversation. |
| BedrockGeneratedIds.GeneratedIdsVanish | open-sse/executors/bedrock.ts:243-313 | With a generator that never repeats and stays apart from the caller's ids, no id generated for a blank one is called by an assistant message or answered by a user message after conversion and sanitising. |
| BedrockGeneratedIds.EveryIdPaired | open-sse/executors/bedrock.ts:243-313 | When each of the caller's ids is called once and not answered before, the converted conversation is paired message by message for every id, generated ones included. |
| BedrockStream.ContentBlocksToOpenAIMessage | open-sse/executors/bedrock.ts:395-423 | The message reads back as the joined text, joined reasoning and ordered tool calls of the blocks; content is null exactly when there are calls and no text. |
| BedrockStream.CreateOpenAIStream | open-sse/executors/bedrock.ts:507-599 | The event loop, with its break on an exception event and its two endings, emits the specified transcript. |
| BedrockStream.StoppedStays | open-sse/executors/bedrock.ts:518-532 | Nothing after an exception event has any effect. |
| BedrockStreamAgreement.AgreementIffNoStray | open-sse/executors/bedrock.ts:507-576 | The exact condition: for every stream whose consumed part is in order, accumulating the chunks of the streaming translation gives the text, reasoning and ordered tool calls of the non-streaming one if and only if no non-empty tool input for a block that has not started comes after a tool start. |
| BedrockStreamAgreement.StreamAgreesWithMessage | open-sse/executors/bedrock.ts:395-423 | Corollary: on every stream whose consumed part is in order and starts each tool block before its input, the two translations agree. |
| BedrockStreamAgreement.StreamFinish | open-sse/executors/bedrock.ts:372-393 | Unless reading threw, the last chunk but one is a finish chunk: "tool_calls" exactly when the last stop reason consumed is "tool_use", "length" exactly when it is "max_tokens", "stop" otherwise; with the prompt, completion and total of the last usage report, if there is one. |
| BedrockStreamAgreement.TranscriptShape | open-sse/executors/bedrock.ts:513-598 | For any events there is one role chunk, first, and one end mark, last; between them non-empty chunks of the answer, then the error of the exception event consumed and the finish chunk, or the error of a reading that threw, or the finish chunk. |
| BedrockStreamAgreement.ChunksGrow | open-sse/executors/bedrock.ts:517-576 | Chunks are sent as events come: later events only add to them. |
| BedrockStreamAgreement.DeltaInOrder | open-sse/executors/bedrock.ts:555-576 | A delta adds a chunk for each of its fields at most: text first, then reasoning, then tool input. |
| BedrockStreamAgreement.OrphanInputDisagrees | open-sse/executors/bedrock.ts:565-574 | After any stream in order with a tool call, a non-empty input for a block that never started is appended to the first streamed call, whose arguments are then longer than those of its block. |
| AntigravityRetryCode.RetryRun.TryResolveRetryFromErrorBody | open-sse/executors/antigravity.ts:1374-1456 | Reading the error body, with its one credits attempt per call, as a step on the engine's state. |
| AntigravityRetryCode.RetryRun.HandleRateLimit | open-sse/executors/antigravity.ts:1299-1366 | The decision on a 429 or 503: same URL after a sleep, next URL, return, or fall through. |
| AntigravityRetryCode.RetryRun.RunAttempt | open-sse/executors/antigravity.ts:1161-1244 | One attempt: send, handle a rate limit, ask shouldRetry, build the result. |
| AntigravityRetryCode.RetryRun.Loop | open-sse/executors/antigravity.ts:1088-1149 | The loop that decrements its own index ends for every upstream behaviour and returns what the run from its first round leads to. |
| AntigravityRetryCode.RetryRun.ExecuteOnce | open-sse/executors/antigravity.ts:1086-1151 | On a fresh engine the loop does, in state and result, what the recursive specification says. |
| AntigravityRetry.SameUrlUsesRetry | open-sse/executors/antigravity.ts:1319-1354 | A retry on the same URL uses up one of its three retries, and no other outcome changes any counter. |
| AntigravityRetryBounds.RetryBounds | open-sse/executors/antigravity.ts:1088-1151 | Over every run: sends in URL order, four on each URL at most, one credits attempt at most, and 180000 ms of sleep on each URL at most. |
| AntigravityRetryBounds.BoundsAreReached | open-sse/executors/antigravity.ts:1319-1332 | A persistent 429 uses exactly four sends and exactly 180000 ms on each single URL, and the engine then returns. |
| AntigravityRetryBounds.LoopNeverFallsThrough | open-sse/executors/antigravity.ts:1143-1151 | With the base executor's shouldRetry the throw after the loop is never reached. |
| AntigravityRetryBounds.AbortEnds | open-sse/executors/antigravity.ts:1134-1137 | If the send of some round is aborted, no run sends again after it, a run that gets there throws the abort, and the whole run does not depend on any later answer. |
| AntigravityRetryTrace.RunIsPath | open-sse/executors/antigravity.ts:1086-1456 | Every run is the path that its answers say, without any engine state: from the answer, the number of earlier sends to the URL and whether an earlier answer allowed the credits attempt, each round leads to a given sleep and the same URL, to the next URL or to the end; these fix the sleeps, the number of credits attempts and the result. |
| AntigravityRetryTrace.CreditsResultEnds | open-sse/executors/antigravity.ts:1421-1445 | A credits attempt is made in the first round that allows one; if it yields a result, a run that gets there returns after exactly that send, and does not depend on any later answer. |
| AntigravityRetryTrace.NullAttemptChangesNothing | open-sse/executors/antigravity.ts:1444-1448 | If the credits attempt comes back empty, the run sends, sleeps and ends as if credits had not been allowed: it goes on with the classified retry time. |
| AntigravityContentsCode.NormalizeOne | open-sse/executors/antigravity.ts:601-625 | Filtering one turn makes a new object with a new part array; the caller's is only read. |
| AntigravityContentsCode.JoinTurn | open-sse/executors/antigravity.ts:628-635 | Pushing into the last turn, or appending, changes only the last turn's own part array. |
| AntigravityContentsCode.NormalizeContents | open-sse/executors/antigravity.ts:600-635 | The normalised turns own their part arrays and no array that existed before is changed. |
| AntigravityContentsCode.StripTrailing | open-sse/executors/antigravity.ts:407-423 | Popping in place leaves the stripped list. |
| AntigravityContentsCode.PrepareContents | open-sse/executors/antigravity.ts:593-656 | Normalise, then strip for Claude: the caller's array is unchanged when a part survives, and is the one used and popped when none does. |
| AntigravityContentsCode.CallersArrayShrinks | open-sse/executors/antigravity.ts:637-655 | The caller's array loses a turn exactly for a Claude model, no surviving part, more than one turn and a trailing model turn. |
| AntigravityContents.NormalizeKeepsParts | open-sse/executors/antigravity.ts:600-635 | The turns hold, in order and under the role of their turn, exactly the parts that have no empty text, no call without a name and no thought, and no signature but the sentinel unless their turn calls a function; a turn with a function response is the user's; no turn is empty and neighbours differ in role. |
| AntigravityContents.NormalizeIsTheGrouping | open-sse/executors/antigravity.ts:627-635 | There is only one such grouping of the surviving parts, and the normalised list is it. |
| AntigravityContents.LeadersKeepFields | open-sse/executors/antigravity.ts:625-635 | A normalised turn keeps the other fields of the first turn that was joined into it. |
| AntigravityContents.StripMeans | open-sse/executors/antigravity.ts:415-420 | Only model turns are popped, and a list longer than one turn ends on another role. |
| AntigravityContents.StripNormalized | open-sse/executors/antigravity.ts:407-423 | On a normalised conversation the strip removes one turn at most. |
| AntigravityDefaults.ApplyGenerationDefaults | open-sse/executors/antigravity.ts:291-329 | The in-place writes give the specified configuration, in the caller's object when there is one. |
| AntigravityDefaults.LimitIsCapped | open-sse/executors/antigravity.ts:318-326 | A finite limit is at most 16384 afterwards. |
| AntigravityDefaults.DefaultsWritten | open-sse/executors/antigravity.ts:318-326 | Exactly what is written: a limit not above a positive budget becomes the least integer above the budget, 16384 at most; any other above 16384 becomes 16384; topK is 40 and topP 1 when absent; all else stays. |
| AntigravityDefaults.LimitExceedsBudget | open-sse/executors/antigravity.ts:308-316 | With a positive budget the limit is finite, and above the budget exactly when the budget is below 16384. |
| AntigravityDefaults.FittingLimitKept | open-sse/executors/antigravity.ts:310-326 | A limit that fits the cap and the budget stays as the caller wrote it. |
| AntigravityDefaults.ApplyTwice | open-sse/executors/antigravity.ts:291-329 | Applying the defaults again, as every retry does, changes nothing. |
| CreditCacheCode.CreditBalances.HydrateFromDb | open-sse/executors/antigravity.ts:144-155 | Hydration happens once and never overwrites an entry. |
| CreditCacheCode.CreditBalances.EvictStale | open-sse/executors/antigravity.ts:157-169 | The two sweeping loops give the specified sweep. |
| CreditCacheCode.CreditBalances.GetRemainingCredits | open-sse/executors/antigravity.ts:176-185 | A read hydrates first, drops a stale entry and otherwise returns the balance. |
| CreditCacheCode.CreditBalances.UpdateRemainingCredits | open-sse/executors/antigravity.ts:187-192 | Afterwards the account has the new balance; no other entry changes; only the first-inserted one can go, and only when a new account meets a full cache; a new account goes last and an old one keeps its place; the size stays within the larger of 50 and what it was. |
| CreditCache.LoadAllMeans | open-sse/executors/antigravity.ts:149-153 | Hydration keeps every entry that is there and adds at most one for each loaded account. |
| CreditCache.SweepMeans | open-sse/executors/antigravity.ts:157-169 | After a sweep there are the newest fifty of the fresh accounts, in their order, with unchanged entries, and none is stale. |
| CreditCache.UpdateMeans | open-sse/executors/antigravity.ts:187-192 | The new entry is stored, no other entry changes, only the oldest can go and only from a full cache, and the size stays within the larger of 50 and what it was. |
| CreditCache.ReadReturnsLastStored | open-sse/executors/antigravity.ts:176-196 | Over every run, exactly: a read returns the balance last stored for the account, by an update or by a hydration that found nothing cached, if its entry is still there and not older than five minutes, and nothing otherwise. |
| CreditCacheOrder.FirstInFirstOut | open-sse/executors/antigravity.ts:139-196 | Over every run and for any number of accounts: an entry that was stored and not found stale since is missing only if fifty accounts were inserted after it, and never while one inserted before it is cached; and no other entry is cached. |
| CreditCacheOrder.NewestFiftyCached | open-sse/executors/antigravity.ts:157-192 | Exactly, as long as no inserted entry was found stale and the cap holds: cached are the accounts that were stored and have fewer than fifty inserted after them. |
| CreditCacheOrder.EntriesStayWhileRoom | open-sse/executors/antigravity.ts:139-196 | While a run stores balances for fifty accounts at most, the cache holds an entry exactly for the accounts that were stored and not found stale by a sweep or read since. |
| CreditCacheOrder.ReadReturnsKept | open-sse/executors/antigravity.ts:176-196 | Unless fifty accounts were inserted after it, a read returns the account's last stored balance exactly when one was stored and neither an earlier sweep or read nor this one finds it stale. |
| CreditCache.RunSize | open-sse/executors/antigravity.ts:139-196 | Over every run the cache holds at most fifty entries and those that hydration brought. |
| AdaptaStream.SplitMeans | open-sse/executors/adapta-web.ts:282-283 | Splitting at line feeds is the inverse of joining. |
| AdaptaStream.SplitConcat | open-sse/executors/adapta-web.ts:281-283 | Splitting piece by piece with the carried-over rest is splitting at once. |
| AdaptaStream.ContentsConcat | open-sse/executors/adapta-web.ts:285-321 | What lines emit is what their first part emits, followed by what the second emits unless the first ended the stream. |
| AdaptaStream.StreamEndsAtFirst | open-sse/executors/adapta-web.ts:285-321 | The stream ends with the first line that carries null, a done, end or error event, and with no other; up to there it takes the strings of the text deltas, an error adds its message, and what follows does not count. |
| AdaptaStream.CollectTakesDeltas | open-sse/executors/adapta-web.ts:476-485 | The collecting loop takes the delta of each text delta line, string or not, and of no other line. |
| AdaptaLoops.TransformStream | open-sse/executors/adapta-web.ts:238-330 | However the text is cut into pieces, the stream is one role chunk, the deltas of the complete lines up to the first terminal event, one stop chunk and the end mark, as a function of the concatenated text. |
| AdaptaLoops.CollectText | open-sse/executors/adapta-web.ts:466-492 | However the text is cut, the collecting loop gathers the deltas of its complete lines. |
| AdaptaLoops.LinesAgree | open-sse/executors/adapta-web.ts:285-306 | On a line that does not end the stream the loops agree exactly when its delta is a string or nothing, if its edges are plain, and exactly when it emits nothing, if other blank stands there. |
| AdaptaLoops.StreamEqualsCollection | open-sse/executors/adapta-web.ts:276-327 | For any two cuttings of one text with plain edges, in two cases: when no error message ends the stream, its content is the collected text if and only if every text delta before the end is a string and the lines from the end on collect nothing; and when all those deltas are strings, if and only if the lines from the end on collect just the error message, if there is one. |
| AdaptaLoops.ErrorStandsInForDelta | open-sse/executors/adapta-web.ts:310-316 | The case between those two: an error message that reads like an earlier delta that is no string makes the texts equal although the delta is not streamed. |
| AdaptaLoops.ExoticEdgesDecide | open-sse/executors/adapta-web.ts:465-492 | The exact condition for arbitrary edges and string deltas, when nothing is emitted or collected from the end of the stream on: the loops agree if and only if no line with other blank at an edge emits. |
| AdaptaLoops.NullEndsOnlyTheStream | open-sse/executors/adapta-web.ts:297 | A null payload ends the stream, and the collecting loop reads on. |
| AdaptaLoops.ExoticEdgesDisagree | open-sse/executors/adapta-web.ts:481 | A payload with blank that only JavaScript trims is streamed and not collected. |
| AdaptaMessages.SplitSystem | open-sse/executors/adapta-web.ts:205-212 | The first loop joins the system and developer prompts and keeps the other messages. |
| AdaptaMessages.SystemTextJoins | open-sse/executors/adapta-web.ts:205-212 | The system text is the texts of the system and developer messages joined by line feeds, without the empty ones they begin with. |
| AdaptaMessages.SentInOrder | open-sse/executors/adapta-web.ts:217-220 | Each message in turn is sent exactly if it is the user's or the assistant's and has a visible character. |
| AdaptaMessages.TextOfParts | open-sse/executors/adapta-web.ts:190-199 | The text of a part list is that of its text parts, joined without a separator. |
| AdaptaMessages.BuildAdaptaMessages | open-sse/executors/adapta-web.ts:201-234 | Every message sent comes in its role and with its own text, the first user message preceded by all system prompts and a blank line. |
| AdaptaMessages.SystemReaches | open-sse/executors/adapta-web.ts:222-227 | A message carries the system prompts if and only if there are some and a user message with text is among the input; and exactly one message does. |
| StompFrames.IndexFromFirst | open-sse/executors/chipotle.ts:165-167 | The search gives the first place where a pattern stands, and nothing exactly when it stands nowhere. |
| StompFrames.LfRoundTrip | open-sse/executors/chipotle.ts:164-175 | From an LF frame whose headers hold no blank line the body comes back exactly when it has no NUL and does not start with CR. |
| StompFrames.CrlfRoundTrip | open-sse/executors/chipotle.ts:164-175 | The exact condition for every body: from a CRLF frame it comes back if and only if it has no NUL and no LF LF stands in it or at its start after the blank line, or if it starts with NUL and the first LF LF is so near its end that the swapped cut is the whole body. |
| StompFrames.CrlfTextRoundTrip | open-sse/executors/chipotle.ts:164-175 | For bodies without a NUL the condition is just that no such LF LF is there. |
| StompFrames.UnterminatedBody | open-sse/executors/chipotle.ts:164-175 | Without a final NUL the body of an LF frame reaches to the end of the frame. |
| StompFrames.NoBlankLineNoBody | open-sse/executors/chipotle.ts:164-177 | A frame without a blank line has no body. |
| StompFrames.SendRoundTrip | open-sse/executors/chipotle.ts:250-252 | The body of a built SEND frame is extracted again for every text without control characters, as JSON text is. |
| StompFrames.SendFrameLines | open-sse/executors/chipotle.ts:250-252 | Read by lines, a built SEND frame is its command, destination, content type and content length, a blank line, and the body with a NUL. |
| AmeliaClient.Client.OnChat | open-sse/executors/chipotle.ts:200-240 | A call is open afterwards exactly when it connected, was not aborted and could send; its callback is registered, last, whenever it got as far as sending, even if that failed; no other call changes. |
| AmeliaClient.Client.OnMessage | open-sse/executors/chipotle.ts:194-197 | The loop that calls each callback and deletes it delivers the text to every registered call. |
| AmeliaClient.Client.OnTimeout | open-sse/executors/chipotle.ts:213-216 | The timer takes just its own callback out of the list and times the call out unless it had failed to send; no other call and no order changes. |
| AmeliaClient.Client.OnAbort | open-sse/executors/chipotle.ts:218-222 | The abort clears the timer, takes the call's callback out if it is there, and aborts the call unless it had settled; no other call and no order changes. |
| AmeliaClient.Client.Dispatch | open-sse/executors/chipotle.ts:194-239 | One turn of the event loop: the object's handler of an event, if it is still set up, does one step of the machine, so that what is proved of the machine's runs holds of the object's. |
| AmeliaClient.FateOfCall | open-sse/executors/chipotle.ts:200-240 | Over every interleaving the outcome of a call is the failure it met before or while sending, else that of the first message, its own timer or its own abort, whichever comes first; until then it is open and registered. |
| AmeliaClient.RunKeeps | open-sse/executors/chipotle.ts:200-240 | Over every interleaving: a callback is registered exactly while its timer runs, once each, and an unsettled call is registered. |
| AmeliaClient.OutcomeIsFinal | open-sse/executors/chipotle.ts:212-229 | A settled call keeps its outcome whatever happens later. |
| AmeliaClient.UnsettledIsRegistered | open-sse/executors/chipotle.ts:212-239 | An unsettled call still has callback and timer; a settled one is registered only if its send failed; further settle attempts follow only a failed send or a timeout. |
| AmeliaClient.MessageSettlesAll | open-sse/executors/chipotle.ts:194-197 | A message with text resolves every open call with it, changes no other outcome and leaves no callback. |
| AmeliaClient.EndedCallsGetNoMessage | open-sse/executors/chipotle.ts:213-222 | A call that timed out, was aborted or failed to connect has no callback for later messages. |
| ClientPool.RunKeeps | open-sse/executors/chipotle.ts:273-290 | Over every run each client is in exactly one place and the pool holds five at most. |
| ClientPool.ClientsAreExclusive | open-sse/executors/chipotle.ts:276-290 | A request is always given a client that serves no other request and is not closed. |
| ClientPool.GivenBackIsTakenNext | open-sse/executors/chipotle.ts:276-290 | A client given back to a pool with room is the one the next request gets; from a full pool it is closed. |
| ClientPool.FailedIsGone | open-sse/executors/chipotle.ts:407-410 | A client whose request failed is never given to a request again. |
| ClientRequests.AtMostOneCallback | open-sse/executors/chipotle.ts:349-407 | Over every run of requests on pooled clients: a pooled client has no registered callback, and a busy one at most that of the call it serves. |
| ClientAnswers.OwnIffNeverCrosses | open-sse/executors/chipotle.ts:194-197 | The exact condition, over every run and for any assignment of texts to the calls they answer: every answered request was given its own answer if and only if no text message came while the call of its client was open but belonged to another call. |
| ClientAnswers.OrderlyAnswersAreOwn | open-sse/executors/chipotle.ts:356-398 | When each text message belongs to a call made on its client and is the first one for it there, every request is given its own answer, because only an answered call gives its client back. |
| ClientAnswers.LateAnswerCrosses | open-sse/executors/chipotle.ts:194-197 | Whatever happened before: an earlier call of a pooled client was answered by a message heard there, and a second message that belongs to it resolves the request that has taken the client since. |
| FreeModelCatalog.DedupedSum | open-sse/config/freeModelCatalog.ts:80-95 | The loop returns the sum over pools of the pool maximum plus the sum over models without a pool. |
| FreeModelCatalog.MaximumMeans | open-sse/config/freeModelCatalog.ts:90 | A pool's maximum is 0 or the budget of one of its models, and no model of the pool exceeds it. |
| FreeModelCatalog.CatalogOrderIrrelevant | open-sse/config/freeModelCatalog.ts:80-95 | The sum does not depend on the order of the catalog. |
| FreeModelCatalog.CatalogGrowth | open-sse/config/freeModelCatalog.ts:80-95 | With non-negative budgets the sum grows with the bag of models. |
| FreeModelCatalog.TotalBelowPlainSum | open-sse/config/freeModelCatalog.ts:78-95 | With non-negative budgets the sum lies between 0 and the plain sum. |
| FreeModelCatalog.ComputeFreeModelTotals | open-sse/config/freeModelCatalog.ts:97-130 | The four headline numbers as sums over the kept models and the live pools. |
| FreeModelCatalog.HeadlineNumbers | open-sse/config/freeModelCatalog.ts:100-131 | Monthly tokens enter for daily, monthly and keyless models, credits for recurring-credit and then for one-time ones, and boosts for pools with a daily, monthly or keyless model. |
| FreeModelCatalog.KeptCount | open-sse/config/freeModelCatalog.ts:98 | Exactly the models to avoid are left out, and only when that is asked for. |
| FreeModelCatalog.TotalsOrdered | open-sse/config/freeModelCatalog.ts:100-117 | Steady is at most steady with recurring credits, which is at most the first month. |
| FreeModelCatalog.ExcludingNeverRaises | open-sse/config/freeModelCatalog.ts:98 | Leaving out the models to avoid raises none of the four totals. |
| RegistryUtils.IndexIsTheScan | open-sse/config/registryUtils.ts:37-43 | Looking a bare name up in the first-wins index gives what the first-match scan gives. |
| RegistryUtils.IndexCache.GetRegistryModelIndex | open-sse/config/registryUtils.ts:31-46 | An index is built at the first call for a registry object, kept for good, and is the index of what the registry was then. |
| RegistryUtils.IndexCache.ParseModelFromRegistry | open-sse/config/registryUtils.ts:52-76 | For a registry that has not changed since its index was built, parsing with the cache equals parsing by scans alone. |
| RegistryUtils.FirstMatchMeans | open-sse/config/registryUtils.ts:27-30 | The scan gives a provider if and only if it is the first that lists the model, and nothing if and only if none does. |
| RegistryUtils.PrefixedNameParses | open-sse/config/registryUtils.ts:56-68 | A text belongs to the first provider whose id or alias it starts with, and the model is what follows the id, or the alias if it does not start with the id. |
| RegistryUtils.BareNameParses | open-sse/config/registryUtils.ts:69-76 | A text that starts with no name belongs to the first provider that lists it, unless there is none or that has an empty id. |
| RegistryUtils.GetAllModelsFromRegistry | open-sse/config/registryUtils.ts:82-107 | The nested loops return the catalog. |
| RegistryUtils.CatalogHolds | open-sse/config/registryUtils.ts:86-106 | The catalog holds an entry, with the model's name and the provider's id, for each provider, model and non-empty name of the provider, and no other. |
| RegistryUtils.CatalogOrder | open-sse/config/registryUtils.ts:86-104 | Providers and models come in their order, and each model under the provider's id first and its alias second. |
| RegistryUtils.ParsesBackIff | open-sse/config/registryUtils.ts:52-76 | For any names: a catalog id parses back exactly when no earlier provider claims it and an alias id does not start with the provider's own key. |
| RegistryUtils.CatalogRoundTrip | open-sse/config/registryUtils.ts:52-107 | With slash-free names every catalog id parses back to its provider and model exactly when no provider with models bears a name of an earlier one. |
| EmbeddingRegistry.GetAllEmbeddingModels | open-sse/config/embeddingRegistry.ts:529-547 | The nested loops return the catalog. |
| EmbeddingRegistry.CatalogHolds | open-sse/config/embeddingRegistry.ts:536-545 | The catalog holds an entry for each model of each provider, and no other. |
| EmbeddingRegistry.CatalogOrder | open-sse/config/embeddingRegistry.ts:536-545 | Providers and models come in their order, each id with the provider's prefix exactly once in front. |
| EmbeddingRegistry.ParsesBackIff | open-sse/config/embeddingRegistry.ts:417-447 | For a provider whose id has no slash, whatever the aliases: the exact condition for a catalog id to parse back, by what the id is an alias of; when it is its own name the provider is always found, and the model unless the provider also lists it without the prefix. |
| EmbeddingRegistry.BareNameParsesBackIff | open-sse/config/embeddingRegistry.ts:460-467 | The exact condition for a provider whose id is empty or starts with a slash. |
| EmbeddingRegistry.SlashedNameParsesBackIff | open-sse/config/embeddingRegistry.ts:417-447 | The exact condition for a provider whose id has a slash inside, by what is registered and listed: its first segment leads to a registered provider only if the two are aliases of each other and the segment lists the model but not its short form; otherwise the provider is the first registered prefix, and a model without its prefix is not listed by the alias's target with the prefix only, while for a model with the prefix the provider is its own name and does not list the short form. |
| EmbeddingRegistry.RegisteredParses | open-sse/config/embeddingRegistry.ts:389-434 | Any name whose first segment is a registered provider or an alias of one: the model is the rest if the provider lists it, else the rest under the provider's id if it lists that, else the rest without the provider's prefix. |
| EmbeddingRegistry.UnregisteredParses | open-sse/config/embeddingRegistry.ts:436-457 | A name whose first segment leads to no provider, and that starts with no registered id, belongs to the first of the caller's providers it starts with, else to its first segment. |
| EmbeddingRegistry.BareNameParses | open-sse/config/embeddingRegistry.ts:459-467 | A name without a slash belongs to the first provider that lists it. |
| EmbeddingRegistry.CatalogRoundTrip | open-sse/config/embeddingRegistry.ts:389-447 | With provider ids that are not empty, have no slash and are no alias of another, every catalog id parses back exactly when no provider p lists both x and p/x. |
| EmbeddingRegistry.CatalogDimension | open-sse/config/embeddingRegistry.ts:475-481 | A catalog id that parses back has the dimension recorded for its model. |
| EmbeddingRegistry.DimensionIsRecorded | open-sse/config/embeddingRegistry.ts:475-481 | Any name has a known dimension exactly when the provider it leads to lists its model, and then the one recorded with the first listing. |
| EmbeddingRegistry.DetectEmbeddingDimensionConflict | open-sse/config/embeddingRegistry.ts:490-502 | A conflict is reported if and only if two inputs have different known dimensions; the distinct dimensions are listed in increasing order. |
| EmbeddingRegistry.VerdictIsOfTheSet | open-sse/config/embeddingRegistry.ts:490-502 | The verdict depends neither on the order of the inputs nor on repetition. |
| CliFingerprints.OrderFields | open-sse/config/cliFingerprints.ts:206-226 | The two loops build the reordered object. |
| CliFingerprints.ReorderingKeepsFields | open-sse/config/cliFingerprints.ts:202-226 | Every key keeps its value; listed keys come first in list order and the others follow in their old order. |
| CliFingerprints.ReorderingTwice | open-sse/config/cliFingerprints.ts:206-226 | Reordering a reordered object changes nothing. |
| CliFingerprints.OrderHeaders | open-sse/config/cliFingerprints.ts:232-262 | The three loops over the case-insensitive table build the ordered headers. |
| CliFingerprints.HeadersKeepLast | open-sse/config/cliFingerprints.ts:242-259 | With a non-empty order there is one header for each case-insensitive name, the last one given, with its spelling and value. |
| CliFingerprints.HeadersInOrder | open-sse/config/cliFingerprints.ts:248-259 | Listed names come first in list order, the others in the order in which their names first occurred. |
| CliFingerprints.HeadersTwice | open-sse/config/cliFingerprints.ts:232-262 | Ordering ordered headers changes nothing, and neither does an empty order. |

## Left out

- Opaque values: tool inputs and outputs, JSON texts, image bytes and the data-URL match of Bedrock parts are opaque; generated ids come from an arbitrary supply; entries of `tool_calls` are objects, and an id that is no string has no key.
- Bedrock system blocks, tool configuration, request building and error bodies: only easy members.
- BedrockHistory.ConversationPaired: speaks of the caller's ids only; for generated ids see `BedrockGeneratedIds`, where a generated id that repeats or equals an id of the caller is not covered.
- BedrockStreamAgreement.AgreementIffNoStray: the client that accumulates chunks ignores arguments for a call it has not seen; text and reasoning deltas are in block order and tool blocks start in block order; argument text is opaque, so the re-serialisation of a parsed input by the non-streaming translation is not compared with the streamed text.
- The Pro fallback chain of Antigravity's `execute`, whose decision helpers are in other files.
- AntigravityRetryCode.RetryRun.ExecuteOnce: the error thrown after the loop is one value, whether it is the last network error or the status message; marking accounts as exhausted, the second fetch inside `sendAntigravityRequest` and header building are not modelled; answers, classifications and `shouldRetry` are arbitrary.
- AntigravityContentsCode.PrepareContents: the Gemini sanitising that runs before the strip, session ids and safety settings are not modelled.
- Persisting balances to the database and the sweep timer: a sweep may happen at any point of a run.
- UTF-8 decoding and JSON parsing in Adapta: pieces are decoded text and the parser is arbitrary; a failing read ends the streaming loop like the end of input, and the collecting loop, which rethrows it, is modelled up to the end of input.
- The Adapta session cache, login and tool-aware results.
- StompFrames.LfRoundTrip: headers with a blank line or a NUL, from which no frame can be told apart, are not covered.
- AmeliaClient.RunKeeps: the login and the connection are inputs; a message carries no call id, so `ClientAnswers` takes the call that a text belongs to as a parameter, and two messages with the same text belong to the same call; the JSON shapes from which the text of a message is taken are not modelled.
- FreeModelCatalog.ComputeFreeModelTotals: the counts, the sorted model list and the headline text are not modelled.
- RegistryUtils.GetAllModelsFromRegistry: extra fields of the callback, which could override an entry's own, are not modelled; neither is `buildAuthHeaders`.
- EmbeddingRegistry.ParsesBackIff: tables have own properties only, so names such as `constructor` that every JavaScript object inherits are not special here; default parameters and modalities are not modelled.
- CliFingerprints.OrderFields: keys are own properties that are not integer-like, and a value that is no object, which the source returns unchanged, is not modelled.
- CliFingerprints.OrderHeaders: lower-casing is an arbitrary function; the fingerprint tables and body stripping are not modelled.
- Electron, service worker, boot sequence, static tables, URL normalisers and schema stripping.
