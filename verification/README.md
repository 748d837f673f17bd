# Verification model of kou-router

kou-router is a gateway in front of language-model providers. A client sends one request; the gateway
picks a provider and an account, translates the request, retries and fails over, translates the answer
back, and keeps health, cache and login state in tables. This project models the parts of it whose
correctness is not visible from any single function, and proves what they promise.

The model follows the source's own form. Objects the source updates in place are classes whose methods
state their whole new state; loops are methods with loops, proved against a specification function;
code made of expressions is functions. Each claim about a whole run is then a lemma about those
specification functions, for every input, every history or every interleaving.

| file | what it models |
|---|---|
| `Strings.dfy`, `Json.dfy`, `Sorting.dfy` | string helpers, JSON values, their compact text and a reader of it (RFC 8259), a stable sort |
| `SseText.dfy`, `SsePrint.dfy` | the event-stream text format (section 9.2 of the WHATWG HTML Standard, in the code's own variant): parsing, framing on blank lines, printing |
| `SseAdapter.dfy`, `SseStream.dfy`, `SseAgreement.dfy`, `SseDropped.dfy`, `SseUnnoticed.dfy`, `SseGrammar.dfy`, `SseWire.dfy`, `SseFrames.dfy`, `SseHistory.dfy`, `SseRebuild.dfy`, `SseFields.dfy` | Responses events turned into Chat Completions or Messages events, incrementally and from a whole transcript, what the first loses and exactly when the two agree; the grammar of the output; what a client reads, frame by frame and key by key; the conversion as a function of the upstream events alone; the JSON answer rebuilt from a transcript, and what each of its fields holds |
| `CanonicalJson.dfy`, `LabelledText.dfy`, `ResponseCache.dfy` | the canonical printer, texts of labelled lines, the cache key, the cache table |
| `Routing.dfy`, `RoutingCandidates.dfy`, `RoutingSearch.dfy`, `RoutingCooldown.dfy`, `RoutingAccountless.dfy` | failover routing over candidates, providers and accounts |
| `AccountHealth.dfy`, `Retry.dfy`, `RoundRobin.dfy` | health columns, the retry loop and its u64 arithmetic, rotations by shared counters |
| `OAuthSessions.dfy`, `OAuthLiveness.dfy` | the login sessions, as statements on a table and as interleaved steps of many callers; what no run can do, and what a caller in time can count on |
| `Translate.dfy`, `TranslateTurns.dfy` | Claude turns to OpenAI and back, and the request message loop; what each turn says |
| `PercentEncoding.dfy` | the two percent-encoders and the query strings they build |
| `CustomLine.dfy`, `CustomLineMigration.dfy`, `CustomLineFailure.dfy`, `CustomLineColumns.dfy`, `CustomLineRestart.dfy`, `CustomLineTables.dfy` | the start-up step that collapses custom provider lines into accounts |

`dafny verify dfyconfig.toml` checks the whole project. JSON parsing, hashing, the clock, random draws,
the network, the preset catalogue and what a cache or an upstream answers are parameters; every law is
proved for all of them, under the assumptions its `requires` clauses name.

## Where the code does not do what one would expect

Each of these is a lemma that says exactly when the law holds:

- The incremental converter reads one payload of each block the framer cuts out, and a transcript framed
  with CRLF is one block. So it loses the deltas and errors after the first payload of a block. For any one
  JSON parser it sends as many of them as the transcript converter exactly when there are none there
  (`SseDropped.StreamLosesExactly`, `SseDropped.CrlfLosesExactly`), and a client reads the same text exactly
  when there is no text there (`SseDropped.TextSurvivesExactly`). Of two text deltas with CRLF line ends the
  second is lost (`SseDropped.SecondDeltaIsLost`, `SseDropped.CrlfExample`). All frames are the same exactly
  when, besides, no completion is lost that the end of the stream does not make up for and no id or model
  that is shown later (`SseUnnoticed.SameExactly`). The two converters agree for all parsers exactly when no
  block holds two usable events (`SseAgreement.AgreeExactly`), and always on LF text
  (`SseStream.LfOnlyIncrementalEqualsBatch`).
- The converted Messages and Chat streams are grammatical exactly when the upstream sends nothing
  convertible after its first terminal event (`SseGrammar.MessagesGrammar`, `SseGrammar.ChatGrammar`).
- A cache key identifies its request among those in which no field before the path holds a line feed
  followed by the label of the next line (`CacheIdentity.KeyIdentifiesRequest`); every request with such
  a field shares its key with a different one that has none (`CacheIdentity.LineFeedsMergeRequests`), and a
  lookup may then find the other's response (`ResponseCache.LookupIsLatest`).
- A session is checked for expiry before the token exchange and not again: it is consumed after it
  expired exactly when the exchange outlasts what was left of its lifetime
  (`OAuthProtocol.ConsumedInTimeExactly`, `OAuthProtocol.ConsumedAfterExpiry`).
- A connection without accounts has no cooldown inside one request: its row is read once, at the start,
  so it is attempted at most once exactly when at most one candidate matches it
  (`AccountlessRetries.AccountlessIsTriedPerCandidate`, `AccountlessRetries.AccountlessIsRetriedAtOnce`).
  Accounts are re-read and do have one.
- The backoff adds its jitter, and Retry-After its factor 1000, with arithmetic that wraps in a release build; the
  sleeps never decrease exactly when that cannot matter (`Retry.SleepsNeverDecrease`; for the header the corollary
  `Retry.RetryAfterHonoured`).
- Rotation is fair across the counter's wrap only if the number of elements divides 2^64
  (`RoundRobin.RotationIsFair`).
- Combos and accounts take their counters from one map, so a combo named like a connection's key takes turns
  of its rotation (`RoundRobin.KeysMeetExactly`, `RoundRobin.CollidingComboStarves`).
- Putting the picked combo model first drops duplicates of it (`RoundRobin.PickedFirstIsPermutation`).
- An assistant message in the history loses its text exactly when its content is an array that holds any
  (`Translate.HistoryTextSurvives`, `Translate.ArrayTextIsLost`).
- A tool call whose id or name is no string comes back from the round trip with a blank one
  (`Translate.AssistantTurnSurvives`).
- A custom-line migration that stops keeps copies of the orphan it stopped at, exactly when some item of it
  passed before the one that failed (`CustomLineFailure.FailedRunLeavesCopies`,
  `CustomLineFailure.CopiesAreLeftExactly`), and the next start, if it still recognises the shell, makes
  the same copies again (`CustomLineFailure.NextStartCopiesAgain`). Stored accounts can fail: a base URL `https://` passes the
  checks and is stored as `https:`, which does not (`CustomLineFailure.StuckStoreExists`).
- A shell line whose name is normalised to `Codex` or `Claude Code` and that has another model prefix is no
  longer recognised by the next start (`CustomLineRestart.SecondRunChangesNothing`,
  `CustomLineRestart.NamedShellIsLost`).

## Model

| member | source | states |
|---|---|---|
| SseText.ParseSseEvents | src/service.rs:2194-2225 | The parsing loop gives the events of the text: lines cut at line feeds, trailing carriage returns dropped, a blank line or the end of input flushing the event under way. |
| SseText.EventsSplit | src/service.rs:2207-2211 | A blank line separates: the events of `x`, a blank line and `y` are those of `x` followed by those of `y`. |
| SseText.ChunksDoNotMatter | src/service.rs:2239-2247 | Cutting the pending text greedily at blank lines gives the same blocks and the same remainder however the text was split into chunks. |
| SseText.FrameKeepsEvents | src/service.rs:2243-2265 | Whatever the text, the events of the framer's blocks and of its remainder are, in order, those of the whole text. |
| SseText.EventsOfFrame | src/service.rs:2243-2265 | On a text without carriage-return-only lines the framer's blocks and its remainder hold exactly the events the parser finds in the whole text, at most one each. |
| SsePrint.ParsedEventsAreGood | src/service.rs:2194-2225 | What the parser can produce: trimmed names, data lines without leading white space. |
| SsePrint.PrintThenParse | src/service.rs:2282-2296 | Printing a parsed event as the transcript converter does and parsing it again gives that one event back exactly when its data does not end in a line feed and it is not the nameless event without data. |
| SsePrint.PrintAllThenParse | src/service.rs:2282-2296 | A parser that reads a whole printed stream gets the printed events in order. |
| SseConvert.FoldAppend | src/service.rs:2312-2453 | Converting a concatenation of payload lists is converting the second from the state the first left. |
| SseHistory.EventsAreRead | src/service.rs:2194-2225 | Wherever an event stands it gives a payload exactly when its data is JSON: not empty, not `[DONE]`, and read by the parser; the payload is its name and that JSON. |
| SseHistory.ConversionIsHistory | src/service.rs:2312-2474 | For every list of upstream events and either format the output is what each event sends given the events before it, followed by what the end of the stream sends; no converter state is named. |
| SseHistory.NamesAreUpstreams | src/service.rs:2466-2474 | Every frame sent for the k-th event that shows an id and a model shows the string under `id` and `model` in the response (or else the value) of the last event up to it that has one there, or the fallback where none has; the closing frames those of the last of all. |
| SseFrames.DeltaSays | src/service.rs:2344-2361 | The data of a text delta is a chunk with its id, its model and, in the one choice, its text. |
| SseFrames.FinishSays | src/service.rs:2364-2382 | The finishing chunk: the same id and model, an empty delta, the reason. |
| SseFrames.ErrorSays | src/service.rs:2331-2342 | An error frame carries the error itself under one key. |
| SseFrames.MessageStartSays | src/service.rs:2413-2430 | `message_start` carries a message with the id and the model and an empty content. |
| SseFrames.BlockStartSays | src/service.rs:2431 | The block opens as an empty text block. |
| SseFrames.BlockDeltaSays | src/service.rs:2433-2440 | A delta appends its text to that block. |
| SseFrames.MessageDeltaSays | src/service.rs:2511 | The turn ends by itself. |
| SseFrames.ClientDecodes | src/service.rs:2324-2514 | A client that reads the data of a frame as JSON gets a value that means what the frame carries. |
| SseStream.StreamState.ChatEvent | src/service.rs:2324-2385 | The chat converter's frames and new state, for every payload and state. |
| SseStream.StreamState.MessagesEvent | src/service.rs:2387-2453 | The Messages converter's frames and new state, for every payload and state. |
| SseStream.StreamState.StopEvent | src/service.rs:2486-2514 | The closing frames, with a message start if none was sent, and the state after them. |
| SseStream.DrainPending | src/service.rs:2243-2252 | The inner loop sends the frames of every complete block and leaves the remainder pending. |
| SseStream.ResponsesSseToEndpointStream | src/service.rs:2235-2276 | The incremental converter's output depends only on the concatenation of its chunks. |
| SseStream.ResponsesSseTranscriptToEndpointStream | src/service.rs:2278-2310 | The whole-transcript converter's output, event by event. |
| SseStream.IncrementalEqualsBatch | src/service.rs:2235-2310 | Streamed frames, all together, equal the transcript converter's, for both endpoints and every body without carriage-return-only lines; both are the conversion of the body's payloads. |
| SseStream.StreamSendsFirstPayloads | src/service.rs:2235-2276 | Whatever the body, the incremental output is the conversion of the first payload of each block the framer cuts out. |
| SseStream.LfOnlyIncrementalEqualsBatch | src/service.rs:2235-2310 | On text without carriage returns both converters send the same. |
| SseAgreement.AgreeExactly | src/service.rs:2235-2310 | The parser-free condition: the two converters agree for all parsers that ignore a final line feed and read neither nothing nor `[DONE]` exactly when every block holds at most one event whose data is neither. For one given parser it is sufficient. |
| SseAgreement.CrlfAgreesExactly | src/service.rs:2243-2265 | On a text whose lines all end in CRLF they agree for all such parsers exactly when it holds at most one such event in all. |
| SseDropped.StreamLosesExactly | src/service.rs:2235-2464 | For each such parser: the incremental output lacks exactly the delta and error frames of payloads that are not the first of their block; it has as many as the transcript converter's exactly when there are none, and if there is one the outputs differ. |
| SseDropped.TextSurvivesExactly | src/service.rs:2235-2464 | For each such parser a client reads the same text from both outputs exactly when no block holds text after its first payload. |
| SseDropped.CrlfLosesExactly | src/service.rs:2243-2265 | On a text whose lines all end in CRLF everything after the first payload is dropped, with both exact conditions. |
| SseDropped.SecondDeltaIsLost | src/service.rs:2243-2464 | Two text deltas with CRLF line ends, for each such parser that reads them as such: the transcript converter sends both texts, the incremental one the first. |
| SseDropped.CrlfExample | src/service.rs:2243-2464 | So the b of the deltas `a` and `b` never arrives. |
| SseUnnoticed.ChatUnnoticedExactly | src/service.rs:2324-2385 | Payloads can be dropped from a chat conversion with no change exactly when they send nothing and every delta and completion that is kept shows the same id and model. |
| SseUnnoticed.MessagesUnnoticedExactly | src/service.rs:2387-2514 | From a Messages conversion exactly when they carry no delta and no error, no completion but one that is the last thing told by a stream without failure, and the message opens under the same id and model. |
| SseUnnoticed.SameExactly | src/service.rs:2235-2464 | For each such parser, every body and either format the two outputs are equal exactly when that holds of the payloads after the first of each block. |
| SseStream.UnframedStreamSendsOnePayload | src/service.rs:2243-2265 | On a text without a blank line of two line feeds the incremental converter sends the frames of the first payload alone, the transcript converter those of all. |
| SseWire.ClientReadsFrames | src/service.rs:2324-2514 | A client that parses the converted text gets one event per frame, in order, with the frame's name and data. |
| SseGrammar.MessagesGrammar | src/service.rs:2387-2453 | The Messages output has the documented shape exactly when nothing convertible follows the first terminal event. |
| SseGrammar.StartedAtMostOnce | src/service.rs:2407-2442 | In every run `message_start` and `content_block_start` occur at most once, the second only with the first. |
| SseGrammar.ChatGrammar | src/service.rs:2324-2385 | The chat output is deltas and one ending exactly when nothing convertible follows the first terminal event. |
| SseRebuild.MergeResponseFields | src/service.rs:2516-2531 | The eight response fields of an object overwrite what was merged before; every other key, and a value that is no object, is ignored. |
| SseRebuild.ReconstructResponsesFromSse | src/service.rs:2533-2619 | The rebuild loop and the defaults filled in after it. |
| SseFields.FieldsAreLastGiven | src/service.rs:2516-2559 | For every transcript of JSON and each of the eight fields: it is there exactly when some event gives it (or it is `object`), and holds the value of the last one that does. |
| SseFields.ItemsAreFinished | src/service.rs:2561-2566 | The items are those of the finished-item events in order of arrival. |
| SseFields.TextIsWhole | src/service.rs:2568-2574 | The synthesized text is what the first event with any text says, its delta or else its bare text, followed by all deltas after it. |
| SseFields.AnswerIsLastGiven | src/service.rs:2533-2619 | The finished answer holds the last value given of each field, a default exactly where none was; an output without items is replaced by the finished items, and without those by the text. |
| SseFields.AnswerHasNoMore | src/service.rs:2533-2619 | It has no further keys, except the creation time exactly as last given. |
| SseRebuild.ConvertedText | src/service.rs:2324-2442 | Both converted streams carry exactly the payloads' text deltas, in order. |
| SseRebuild.SynthesizedIsStreamed | src/service.rs:2543-2577 | The text synthesized for the rebuilt answer equals the streamed text exactly when every non-empty delta is one the converters send on and no bare text comes first. |
| SseRebuild.RebuiltTextIsStreamed | src/service.rs:2533-2619 | With no items and no non-empty output, the text of the rebuilt answer equals the streamed text under the same exact condition. |
| JsonReader.ReadsBack | src/response_cache.rs:359-390 | A reader of compact JSON text (RFC 8259) gets every valid value back from its text, and what follows it, whatever that is. |
| JsonReader.TextInjective | src/response_cache.rs:359-390 | So the text can be read back in only one way: equal texts before equal remainders mean equal values. |
| CanonicalJson.WriteCanonicalJson | src/response_cache.rs:359-390 | The recursive printer appends the canonical text to the buffer. |
| CanonicalJson.CanonicalReadsBack | src/response_cache.rs:359-390 | Reading the canonical text gives a value that means the same and lists the keys of every object in ascending order of their characters. |
| CanonicalJson.CanonicalInjective | src/response_cache.rs:359-390 | Two values print to the same canonical text exactly when they are equal with objects read as maps. |
| CanonicalJson.EqualHashesMeanEqualBodies | src/response_cache.rs:254-258 | With a collision-free hash, equal body hashes mean equal bodies. |
| CacheIdentity.KeyIdentifiesRequest | src/response_cache.rs:147-177 | For requests in which no field before the path holds a line feed and the label of the next line, cache keys are equal exactly when the requests are, no account and an empty account counting as one. |
| CacheIdentity.KeysEqualExactly | src/response_cache.rs:147-177 | For all requests keys are equal exactly when both read as the same request. |
| CacheIdentity.LineFeedsMergeRequests | src/response_cache.rs:160-172 | Every other request shares its key, whatever the hash, with a different request that has no such field: the one its key reads as. |
| CacheIdentity.KeyIsDigestOf | src/response_cache.rs:147-177 | The key is the digest of eleven lines: the version, the eight fields by name, the stream flag, the digest of the canonical body. |
| ResponseCache.Table.Find | src/repository.rs:297-338 | The row found, and the hit counted on it. |
| ResponseCache.Table.Upsert | src/repository.rs:340-394 | The row is inserted, or overwritten except for its hit count. |
| ResponseCache.Table.Purge | src/repository.rs:396-403 | Exactly the expired rows go, and their number is returned. |
| ResponseCache.HitsAreAnswers | src/repository.rs:297-394 | After every history the hit count of a row is how often it has answered since it was inserted, through every overwrite. |
| ResponseCache.LookupIsLatest | src/repository.rs:297-403 | For all requests and every history a lookup gives exactly the latest response stored under a request whose key reads like this one's, if it was stored in this namespace and is unexpired. |
| ResponseCache.CleanLookupIsLatest | src/repository.rs:297-403 | Where no request holds a label in its fields, that is the latest response stored under the same request, and never another request's. |
| ResponseCache.PurgesAreInvisible | src/repository.rs:396-403 | Purges at any times up to now change no later lookup, whatever the requests and the hash. |
| ResponseCache.PurgeTakesExactly | src/repository.rs:396-403 | After any history a purge changes a lookup exactly by taking the row it would have found, if that was expired at the time of the purge. |
| ResponseCache.EarlyPurgeIsVisible | src/repository.rs:396-403 | A response that expires at e and is purged at p is lost to a reader at `now` exactly when now < e <= p. |
| AccountHealth.HealthTable.MarkFailure | src/repository.rs:1035-1074 | The row after a failure, and every other row unchanged. |
| AccountHealth.HealthTable.MarkSuccess | src/repository.rs:1076-1093 | The row after a success, and every other row unchanged. |
| AccountHealth.HealthIsHistory | src/repository.rs:627-683 | After any history of marks, the backoff level is the trailing failure run, the use count the trailing success run, and the error and both deadlines those of the failures since the last success. |
| AccountHealth.RateLimitExactly | src/repository.rs:1035-1074 | A failure counts as a rate limit exactly when its message says `rate limit`, `quota` or `429` somewhere, in capitals or not. |
| AccountHealth.CountersExclude | src/repository.rs:1035-1093 | A corollary of the history: the two counters are never both positive; error and circuit are set exactly when the backoff level is. |
| AccountHealth.SelectableIsCooledDown | src/repository.rs:739-766 | With a monotone clock an account is selectable exactly when enabled and past every failure since its last success, by 30 seconds for a rate limit and 15 for any other. |
| Routing.Router.ExecutionTargets | src/service.rs:1528-1581 | The targets of a provider, and the rotation counter afterwards. |
| Routing.Router.AttemptTarget | src/service.rs:571-1288 | One attempt: both tables, the entry added to `tried`, and whether the run ends, for every answer. |
| Routing.Router.TryCandidate | src/service.rs:497-571 | One candidate: the providers matching it, sorted, tried until one decides; an entry when there is none. |
| RoutingCandidates.StartingMembers | src/service.rs:470-486 | The providers in the running are exactly the enabled ones whose two deadlines, if any, are over, and that serve the endpoint. |
| RoutingCandidates.SplitAtSlash | src/service.rs:2850-2862 | A candidate splits at its first slash into prefix and raw model, if neither is empty. |
| RoutingCandidates.RefusedExactly | src/service.rs:2850-2862 | It is refused exactly when its first slash is its first or its last character. |
| RoutingCandidates.PrefixedVisits | src/service.rs:497-542 | The candidate prefix/raw is sent to a provider exactly when that is in the running and bears the prefix as model prefix or name, and asks each for raw; with none there is the one unresolved entry. |
| RoutingCandidates.BareVisits | src/service.rs:2868-2900 | A bare model is sent to exactly the providers in the running that it suggests; if its name suggests none and none has it as default, to all. |
| RoutingCandidates.TargetsExactly | src/service.rs:1528-1581 | The targets at a provider are exactly its rested accounts that could be prepared and serve the endpoint; the bare connection exactly when it has no account at all and needs none. |
| RoutingCandidates.RotatesByCounter | src/service.rs:1583-1599 | The counter of a rotating provider with two accounts or more moves on by one; if all its accounts could be prepared and serve, it starts at the one the counter points to and goes once around the sorted list. |
| Routing.Router.Route | src/service.rs:456-1330 | The nested loops refine the run over the flat list of visits: tables, `tried` and result. |
| FailoverSearch.RouteIsFirstDecisive | src/service.rs:495-1330 | The run is the schedule of all targets cut after its first decisive event, and returns that event's outcome; with none it is the whole schedule and ends in exhaustion. |
| FailoverSearch.ScheduleInOrder | src/service.rs:512-521 | Targets are scheduled by candidate; then providers away from their limit before those near it, lower priority number first; then in account order. |
| FailoverSearch.TargetsInAccountOrder | src/repository.rs:739-766 | Unless a provider rotates its accounts, its targets stand by priority and then by age, and no counter moves. |
| Sorting.SortSorts | src/service.rs:512-521 | The sort of the matching providers orders them by near-limit flag and priority. |
| Sorting.SortIsStable | src/service.rs:512-521 | It keeps the order of providers that tie. |
| FailoverSearch.EveryMatchIsVisited | src/service.rs:499-542 | A candidate visits every matching provider exactly once, or leaves one entry. |
| FailoverSearch.ExhaustedTriesEverything | src/service.rs:522-571 | An exhausted run attempted, at every visit, every target prepared when the visit began, in order, and left a 404 entry for every candidate that no provider matches. |
| FailoverSearch.TriedIsTheRun | src/service.rs:495-1302 | `tried` holds one line per event, each the line of its own event, and none for a last event without a readable answer. |
| FailoverSearch.RunStopsExactly | src/service.rs:719-1302 | A run is stopped by its last event exactly if that is a refusal or an attempt with any answer but a connection error or an error of 429, a 5xx or a text about rate limits or quotas; every event before it is such an attempt or a skipped candidate. |
| FailoverSearch.MarksAreVerdicts | src/service.rs:719-1256 | The mark an attempt leaves on both rows, by what came back: none for a cache hit or an unreadable body, a success for a stream or a readable answer, a failure with its message for everything else. |
| FailoverSearch.AttemptsHearInTurn | src/service.rs:571-1288 | The n-th attempt of a run gets what the cache says to the n-th, or what the upstream says to it if the cache has nothing, and is marked at the next two readings of the clock after its start. |
| FailoverSearch.EarlierAttemptsFailed | src/service.rs:719-1302 | Every attempt before the last event of a run was a connection error or a fallback status, and both rows were marked with it. |
| AccountCooldown.NoAccountIsHammered | src/service.rs:495-1330 | With a monotone clock a later attempt on an account starts at least 15 seconds, for a rate limit 30, after an earlier failure on it was recorded. |
| AccountlessRetries.AccountlessIsTriedPerCandidate | src/service.rs:1548-1560 | A request that is not stopped attempts a connection without accounts once for every candidate that matches it, so at most once exactly when at most one does. |
| AccountlessRetries.AccountlessIsRetriedAtOnce | src/service.rs:495-571 | A request for two bare models calls a refusing connection without accounts twice, the second time at the very time its failure was recorded, when a new request would leave it out. |
| RoutingHealth.HealthFollowsTrace | src/service.rs:719-1256 | After a run every account and provider row is its old row with exactly the marks of the trace. |
| Retry.CalculateDelay | src/retry.rs:195-226 | Every delay is within the cap, whatever is drawn. |
| Retry.SleepsExactly | src/retry.rs:85-226 | A reply is retried exactly when it is no success and of one of five kinds, or no reply; the sleeps it can call for are exactly these: Retry-After for a rate limit, or else the base (half of it for a timeout), doubled for each earlier attempt, plus less than half the base, capped. |
| Retry.RetryAfterHonoured | src/retry.rs:203-209 | A corollary of the delay: Retry-After seconds are honoured up to the cap exactly unless the product wraps below it. |
| Retry.SleepsNeverDecrease | src/retry.rs:211-226 | Sleeps for one kind of error never decrease exactly when there is at most one, the cap is zero, or the jitter cannot make the sum wrap. |
| Retry.ExecuteWithRetry | src/retry.rs:75-188 | At most max_retries + 1 sends; every earlier reply was retriable and slept for as computed; the reply returned is the first that is not, or the last allowed; the total reported is the time slept exactly when that fits in a u64. |
| Retry.SleepsAreBounded | src/retry.rs:85-188 | Each sleep is within the cap and their sum within max_retries times the cap. |
| Retry.ExecuteWithOAuthRetry | src/service.rs:1703-1767 | At most one refresh and at most twice the sends and sleeps; a second run only after a 401 and a successful refresh. |
| RoundRobin.RotationState.OrderProviderAccounts | src/service.rs:1583-1599 | The rotated list, and only this key's counter advanced. |
| RoundRobin.RotationState.PickRoundRobin | src/service.rs:1680-1694 | The picked model, and only this combo's counter advanced. |
| RoundRobin.RotationState.ExpandCandidates | src/service.rs:1653-1678 | The candidate models of a request, an error for a disabled or an empty rotating combo, and the counter advanced exactly when a combo rotates. |
| RoundRobin.ExpansionIsCombo | src/service.rs:1653-1678 | The candidates of a combo are its models and no others, whatever the counter. |
| RoundRobin.ExpandsExactly | src/service.rs:1653-1678 | A name stands for itself unless it is a combo asked for by a chat endpoint; for nothing if that is disabled, or rotates and is empty; for its models as listed, or with the one whose turn it is moved to the front and the others in order. |
| RoundRobin.RotateIsPermutation | src/service.rs:1596 | An ordering keeps every account and starts at the chosen one. |
| RoundRobin.PickedFirstIsPermutation | src/service.rs:1671-1676 | The expanded combo keeps every model exactly when the picked one is listed once. |
| RoundRobin.FirstsFollowCounter | src/service.rs:1583-1694 | Whatever turns on other keys come in between, the k-th turn on a key puts first the item its counter picks k steps on, across the counter's wrap. |
| RoundRobin.RotationIsFair | src/service.rs:1590-1596 | Any n consecutive turns on a key over the same n items put each item first exactly once if the counter does not wrap on the way or n divides 2^64, and only then when no item is listed twice. |
| RoundRobin.NoElementIsFavoured | src/service.rs:1590-1596 | After any number of turns two items were first equally often, or one of them once more, while the counter has not wrapped or if n divides 2^64. |
| RoundRobin.KeysMeetExactly | src/service.rs:1590-1690 | Two connections never share a counter; a combo and a connection do exactly when the combo is named like the connection's key. |
| RoundRobin.CollidingComboStarves | src/service.rs:1590-1690 | With such a combo, requests that each pick a model and then order two accounts always put the same account first. |
| OAuthTable.Table.GetByState | src/repository.rs:1217-1231 | The session with that state, or none if no session has it. |
| OAuthTable.Table.MarkConsumed | src/repository.rs:1233-1243 | The compare-and-set: exactly an existing unconsumed session is marked, once. |
| OAuthTable.Table.DeleteExpired | src/repository.rs:1253-1260 | A session is there afterwards, unchanged, exactly when it was and does not expire before now. |
| OAuthProtocol.SingleUse | src/oauth/service.rs:103-206 | Under every interleaving at most one caller wins a session and at most one account is written from it, by a caller that had seen it unexpired and unconsumed. |
| OAuthProtocol.OneCompletion | src/oauth/service.rs:103-206 | Two callers never both complete one session. |
| OAuthProtocol.MarksAndDeletionsStay | src/repository.rs:1233-1260 | From any point of a run on a consumption mark never reverts and a session that is gone never returns. |
| OAuthProtocol.ConsumeWinsIff | src/repository.rs:1233-1243 | A caller at its compare-and-set wins exactly when the row is there and unconsumed. |
| OAuthProtocol.ConsumedInTimeExactly | src/oauth/service.rs:118-150 | An unconsumed row is consumed however long its exchange takes, and before its expiry exactly when the exchange ends before it. |
| OAuthProtocol.ConsumedAfterExpiry | src/oauth/service.rs:103-150 | From an initial system: an authorization started, called back at once and exchanged for some seconds is consumed after its expiry exactly when they reach the lifetime. |
| OAuthLiveness.PurgeTakesTheExpired | src/oauth/service.rs:59 | The purge of a caller about to start takes a session exactly when its expiry is before the time, and changes no other. |
| OAuthLiveness.StaysExactly | src/repository.rs:1217-1260 | One step leaves a session with its state, expiry and mark exactly unless it is the winning consume, its own caller's discard or clean, a removal from outside, or a purge after its expiry. |
| OAuthLiveness.AccountTakenFromSessions | src/repository.rs:1217-1260 | Deleting an account takes it from its sessions and changes nothing else in them. |
| OAuthLiveness.SessionStays | src/oauth/service.rs:53-206 | Over every run without such a step a session stays with the same state, expiry and mark. |
| OAuthLiveness.CallbackWins | src/oauth/service.rs:53-160 | A caller that calls back with the state of a live session, checks it before the expiry and consumes it not after, wins it, however many other sessions are started between its steps. |
| OAuthLiveness.InTimeWins | src/oauth/service.rs:53-160 | From an initial system: an authorization called back, checked and consumed within 600 seconds wins, whatever others are started meanwhile. |
| OAuthLiveness.WinnerFinishes | src/oauth/service.rs:153-206 | A winner updates the account its session was for and drops the session, or fails without a write if that account is gone; without one it makes a new account. |
| OAuthLiveness.WritesGoHome | src/oauth/service.rs:153-206 | Under every interleaving an account written from a session that was for an account is that account. |
| Translate.AssistantTurnSurvives | src/translate/claude_to_openai.rs:7-50 | Claude content sent out and back as history has the same text and its tool calls in order, ids and names that are no strings blanked; the calls are the same exactly when each has a string id, a string name and an input that comes back from its own text. |
| Translate.TranslateRequest | src/translate/openai_to_claude.rs:8-86 | The message loop: system blocks and turns, or an error for no messages. |
| Translate.AssistantBlocks | src/translate/openai_to_claude.rs:33-57 | The blocks of one assistant turn, never none. |
| Translate.HistoryTextSurvives | src/translate/openai_to_claude.rs:33-57 | An assistant message keeps its text exactly when its content is no array that holds any. |
| Translate.ArrayTextIsLost | src/translate/openai_to_claude.rs:33-57 | One text part in an array is such a message: nothing of it is left. |
| Translate.ToolResultsAnswerToolUses | src/translate/openai_to_claude.rs:20-72 | Every tool message becomes one tool result under its id and with its content, and an earlier turn uses a tool under that id exactly when an earlier assistant message made a well-formed call under it. |
| Translate.ConvertedUsesAreCalls | src/translate/common.rs:127-175 | Every tool use of a Claude answer is a well-formed call of the OpenAI message, under the same id, and there are no others. |
| TranslateTurns.TurnsSayMessages | src/translate/openai_to_claude.rs:20-72 | Each message of a user, an assistant or a tool has one turn, in order: its role, and the converted content, the text and the tool uses by their keys, or the tool result. |
| TranslateTurns.SystemSaysMessages | src/translate/openai_to_claude.rs:20-25 | Wherever a message stands it adds its blocks to the system field if it is a system message, and else nothing. |
| TranslateTurns.HintSays | src/translate/openai_to_claude.rs:74-80 | A request for a JSON object adds one block that asks for it, any other none. |
| TranslateTurns.MessageSays | src/translate/claude_to_openai.rs:7-50 | The message of an answer: the joined texts as content, null if there are only calls, and for each tool use, in order, a call with its id, its name and the text of its input; no list of calls without any. |
| PercentEncoding.PercentEncode | src/oauth/codex.rs:110-132 | This encoder computes the encoding. |
| PercentEncoding.EncodeQueryComponent | src/search.rs:472-484 | The other encoder computes the same encoding. |
| PercentEncoding.EncodesExactly | src/oauth/codex.rs:110-132 | Every byte is written in its place, as itself if unreserved (RFC 3986, section 2.3), or as a percent sign and its two upper-case digits (section 2.1). |
| PercentEncoding.DecodeEncode | src/oauth/codex.rs:110-125 | RFC 3986 decoding (section 2.1) inverts it on every byte string. |
| PercentEncoding.EncodedHasNoSeparators | src/search.rs:472-484 | A corollary: an encoded value holds neither an ampersand nor an equals sign. |
| PercentEncoding.QueryRoundTrip | src/search.rs:95-105 | Every built query string splits back into the original keys and values. |
| PercentEncoding.AuthorizationQueryRoundTrip | src/oauth/codex.rs:87-107 | So does the authorization URL's, whose keys are not encoded. |
| CustomLineTables.Repository.CreateProviderAccount | src/repository.rs:790-861 | A row that passes the checks is added; a failed check leaves the tables alone. |
| CustomLineColumns.RefusedExactly | src/repository.rs:790-861 | Credentials are refused exactly for a base URL without a scheme, no token for OAuth, neither key nor base URL otherwise, or a proxy that fails the check. |
| CustomLineColumns.NormalizedColumns | src/repository.rs:790-861 | What is stored: the secret unchanged, white space cut from texts, slashes from the end of the base URL, no empty list. |
| CustomLineTables.Repository.EnsureSingleCustomApiLine | src/presets.rs:663-768 | The migration loop refines its specification, in runs that go through and in runs that stop. |
| CustomLineTables.Repository.NormalizeBuiltinLineNames | src/presets.rs:644-661 | Renaming row by row renames exactly the rows with a canonical name that differs. |
| CustomLineTables.Repository.EnsureBuiltinProviderConnections | src/presets.rs:596-622 | The whole start-up step. |
| CustomLineMigration.MigrationConservesAccounts | src/presets.rs:663-768 | No secret under a custom line is ever lost; a run that goes through leaves one custom line with all of them and one more per orphan with a usable base URL. |
| CustomLineMigration.MigrationGoesThrough | src/presets.rs:691-768 | It goes through exactly when every endpoint and account passes the checks on its own, and the shell then holds, in order, every one of them filled in from its orphan. |
| CustomLineColumns.LinesLiveOn | src/presets.rs:691-730 | After a run that goes through, every orphan with a usable base URL has an account under the shell that is no OAuth account and holds its API key, enabled flag, priority, trimmed base URL, protocol and endpoints. |
| CustomLineColumns.AccountsLiveOn | src/presets.rs:730-765 | Every account of an orphan has a copy there: the same secret, and the columns of the orphan where its own are missing. |
| CustomLineColumns.KeysAreConserved | src/presets.rs:663-768 | The API keys of usable orphans and of accounts under custom lines before the run are, as a multiset, those of the accounts under custom lines after it. |
| CustomLineColumns.HostLabel | src/presets.rs:539-551 | An orphan without a name is labelled with the host of its base URL, or `custom endpoint` if that is none or the fake one. |
| CustomLineColumns.ShellIs | src/presets.rs:663-677 | The shell is the first, by priority and then by age, of the custom lines recognised as one. |
| CustomLineColumns.NewShellIs | src/presets.rs:566-591 | Where none is recognised, one line with the shell's columns is added. |
| CustomLineColumns.CopiesInOrder | src/presets.rs:730-765 | The accounts of an orphan are copied by priority and then by age. |
| CustomLineFailure.FailedRunLeavesCopies | src/presets.rs:691-768 | After every run that stops: the orphans before the first that cannot be moved are gone with all they held under the shell, and the secrets added beyond that are exactly those of the items of that orphan before its first failing one. |
| CustomLineFailure.CopiesAreLeftExactly | src/presets.rs:709-765 | Copies are left of that orphan exactly when its first item passes the checks, one for each item before the first that fails. |
| CustomLineFailure.NextStartCopiesAgain | src/presets.rs:663-768 | If the shell is still recognised, the next run finds the same shell and the orphans from there on, stops at the same one and adds the same copies again. |
| CustomLineFailure.NextStartStopsAgain | src/presets.rs:596-622 | So does the whole start-up step. |
| CustomLineFailure.StuckStoreExists | src/repository.rs:1801-1811 | Such a store is reached by adding one account with the base URL `https://`, which is stored as `https:` and fails the checks when it is moved. |
| CustomLineRestart.RecognisedAfterRename | src/presets.rs:553-564 | When the shell is still recognised after its name was normalised. |
| CustomLineRestart.SecondRunChangesNothing | src/presets.rs:596-622 | A second start changes nothing exactly when the shell found before the first one, if any, has the shell's model prefix or a name that does not pass for Codex or Claude. |
| CustomLineRestart.NamedShellIsLost | src/presets.rs:553-661 | A store with one line, a shell by its fake URL and named codex, for which the second start does change something. |

## Left out

- HTTP, SQL text, the async runtime, proxies, tracing, debug logs and the polling cache writer: each statement is one atomic step and each upstream call an arbitrary answer.
- SHA-256, base64, JWT, password hashing and random draws: the hash is any function, collision-free where a lemma says so; draws are any numbers.
- The JSON parser is a parameter; a float is identified by its text, so `-0.0` and numbers that parse to the same double are not identified.
- Bytes that cut a character (`from_utf8_lossy`): chunks are texts split at character boundaries. Transport errors in the middle of a stream are not modelled.
- Endpoints other than Chat Completions and Messages in the event-stream adapter: `route` asks it for no others.
- Retry.ExecuteWithRetry: the parsing of the Retry-After header is left out (its value is part of the reply), and `max_retries` of 2^32 - 1, whose attempt counter would wrap, is excluded.
- Routing.Router.Route: alias resolution, the combo lookup, endpoint capabilities, model-name inference, request preparation and secret refresh are parameters of the environment; concurrent requests and clock jumps are not modelled.
- Routing.Router.AttemptTarget: what is written to the response cache after a success is not part of the attempt; the cache table has its own model.
- AccountCooldown.NoAccountIsHammered: assumes that no other request writes the rows meanwhile.
- AccountHealth.HealthTable.MarkFailure: timestamps are numbers; the source compares their RFC 3339 texts, which order the same way for four-digit years.
- ResponseCache.LookupIsLatest: the policy that decides what may be cached, the time-to-live headers and the deletion of cached rows with their provider are left out.
- OAuthProtocol.SingleUse: PKCE values and the exchange itself are library and network behaviour; the exchange is an arbitrary success or failure.
- Translate.TranslateRequest: user and system contents are converted by parameters; tools, tool choice, sampling parameters and cache control of the result are left out.
- Translate.AssistantTurnSurvives: finish reason, usage and ids of the response object are left out.
- The translator hub, which applies a response table to a request body, is not part of this model.
- CustomLineTables.Repository.CreateProviderAccount: health columns and refresh times of a copied account start afresh, in the source as in the model; `updated_at` is not modelled.
- Pricing, preset tables, endpoint paths, finish-reason maps, header selection, error labels, search result normalisation, fingerprints, audio, CLI and user interface: constant tables and input or output without state of their own.
