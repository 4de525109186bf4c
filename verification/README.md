# Service extension samples: models and proofs

Dafny models of the parts of the service extension samples that carry state or nontrivial
text algorithms, with proofs of what they promise. `dafny verify dfyconfig.toml` checks
everything. Nothing here executes the original programs.

## What is modelled

- **Lua stream coroutine** (`LuaScript`, `LuaStream`, `LuaDriver`, `LuaLedger`, `LuaRuns`,
  `LuaTheorems`, `LuaReplies`, `LuaAnswers`, `LuaIterator`, `LuaBodies`, `LuaChunks`,
  `LuaNil`, `LuaCoroutine`, `LuaPlugin`). Headers, body and trailers events are interleaved with a suspended script
  that waits for headers, the body, body chunks or trailers. A script is a strategy: a
  function from the answers it has had to its next call, return or error. The event
  handlers are functions on the coroutine's state; the classes `LuaThread`,
  `LuaStreamCoroutine` and `LuaHttpContext` hold the source's fields, and each of their
  methods is proved equal to such a function. What holds over whole runs is proved about
  the functions.
- **Back-to-front rewriting** (`Splice`, `TextSearch`, `AdInsertion`, `CdnToken`). Both
  plugins edit a body from its end to its front. The edits are proved to be one
  left-to-right rewriting of the original body.
- **Masking** (`PiiMask`, `PiiSurvivors`). The two passes over header values and bodies,
  and, as conditions on the text that goes in, exactly what they leave.
- **SSE re-framing** (`SseReframing`). The incremental parser with its carry-over buffer,
  around an arbitrary state-transforming provider parser.
- **Cookie manager** (`CookieText`, `CookieManager`, `CookieFold`, `CookieAttributes`). Parser
  and printer of the Cookie header (syntax of section 4.2.1 of RFC 6265), deletion in three
  forms, the fold of SET and OVERWRITE over the Set-Cookie values, and what a user agent
  reads of them.
- **Token exchange** (`TokenCache`, `IdentityHeaders`). The cache as a step system of any
  number of requests with arbitrary eviction, and the header mutation that the callout
  returns.
- **Percent-encoding and PEM** (`UrlEncoding`), **benchmark stream** (`BenchmarkStream`).

## Assumptions

- Lua: the headers event comes first, because `HandleHeaders` overwrites the end-of-stream
  flag (plugins/samples/lua/coroutine.cc:157). Only whole-run statements assume this; what
  every call keeps is proved for any order of calls. The script suspends only through the
  four accessors, which always suspend it. Pushing a value succeeds. The stack is that of
  the values the host pushes. A Buffer stands for the bytes that can be read from it when
  it is handed out. The proxy appends each chunk to what it holds and sends everything on
  when the filter continues.
- From any point on, a script does finitely much work unless it is handed another body
  chunk. The bound is an ordinal, so the work may depend on any answer yet to come; and a
  chunk may start any work anew, so a loop over the chunks may make any calls in each
  round (`LuaScript.ChunkLoopIsRanked`). A loop over the length of the body is admitted as
  well (`LuaScript.BodyLoopIsRanked`); its bound is a limit ordinal, and that lemma assumes
  that an ordinal above every natural number exists.
- Parameters stand for the sort routine of the standard library, the generated ad markup,
  the signing of a URL with its clock and key, the provider parser together with JSON, the
  decoding of a JWT, and the hash of a token. The cache theorems take the hash to be
  injective; `TokenCache.CollidingKeysMixTokens` shows why.
- SSE chunks are decoded character sequences.
- The proxy removes headers before it sets headers. The two lists of a mutation are
  disjoint, so the order does not matter.

## Where the code surprises

- plugins/samples/check_pii/plugin.cc:109-125: the comments promise masked card numbers and
  ten-digit codes. Since matches are taken from the left, 17 digits keep ten of them
  (`PiiSurvivors.SeventeenDigits`), and a card number that shares digits with another may
  be kept (`PiiSurvivors.SecondCardSurvives`). `PiiSurvivors.CodeSurvives` and
  `PiiSurvivors.CardSurvives` say exactly when.
- plugins/samples/lua/coroutine.cc:241-262: the chunk iterator may hand out nil and then a
  chunk. `LuaNil.NilIsFinalForEveryScript` says exactly on which streams.
- plugins/samples/lua/lua_plugin.cc:241-249: if starting the script fails, the headers
  event stops the iteration and sends no local reply; later body events continue
  (`LuaTheorems.FailedStart`). That happens exactly if the entry point is missing, as it is
  on responses when only `envoy_on_request` is defined, or if it raises an error before its
  first call, and no other failure goes without a reply (`LuaTheorems.SilentFailure`).
- plugins/samples/lua/coroutine.cc:160-165: a headers map is pushed without the guard
  that other headers maps carry, so it accepts changes after the headers were passed on.
  `LuaAnswers.FirstHeadersLackTheGuard` says which maps these are.
- callouts/python/extproc/example/litellm_gateway/service_callout_example.py:567-571: the
  field name `data: ` is written before the payload turns out not to be serializable, and
  stays in the output. It is then read as part of the next event, and if there is none, of
  the end marker (`SseReframing.DanglingFieldHidesEnd`). `SseReframing.OutputReadsBack`
  and `SseReframing.EndMarkerIsSeen` say exactly when all is read back.
- callouts/python/extproc/example/litellm_gateway/service_callout_example.py:550: line ends
  are normalized chunk by chunk, so a cut within a CRLF pair can lose an event
  (`SseReframing.CutPairLosesEvent`). `SseReframing.EventsSurviveChunking` and
  `SseReframing.OutputIsOfTheWhole` say exactly when the events and the output are those
  of the whole text.

## Model

Each class method below is stated against a function of the state before the call; the
lemmas of the same module are about that function.

| member | source | states |
|---|---|---|
| LuaStream.RunScriptRunsOn | plugins/samples/lua/envoy_lua_api_registration.cc:128-212 | Lua code that is resumed stops at a return, an error or an accessor whose data has not arrived; every answer on the way fits the call, is one that was given without suspending, and never costs more work than was left. |
| LuaStream.AnswerRunsOn | plugins/samples/lua/coroutine.cc:66-86 | A value pushed for the pending call resumes a consistent coroutine without any of the driver's own errors, and leaves it consistent: exited, or suspended in the accessor that its yield reason names. |
| LuaStream.ExecuteRunsOn | plugins/samples/lua/lua_state.cc:285-305 | The same for the first entry into the script. |
| LuaDriver.TurnRunsOn | plugins/samples/lua/coroutine.cc:88-153 | One turn of the completion loop hands out the one pending chunk or uses up script work: the loop terminates although the end of a headers-only stream leaves the body unreceived. |
| LuaDriver.RunToCompletionFacts | plugins/samples/lua/coroutine.cc:88-153 | The loop ends with an error of the script, or with a coroutine that has exited or waits for neither body, chunks nor trailers; it keeps the invariant and changes no flag but the chunk's. |
| LuaDriver.StartKeepsInv | plugins/samples/lua/coroutine.cc:40-64 | Starting keeps the invariant; it is refused exactly when already started, fails with "not found" exactly when the entry point is missing, and any other failure leaves the coroutine exited. |
| LuaDriver.HandleHeadersKeepsInv | plugins/samples/lua/coroutine.cc:155-178 | A headers event in any state keeps the invariant, reports the state it leaves, and can fail only through the script. |
| LuaDriver.HandleBodyKeepsInv | plugins/samples/lua/coroutine.cc:180-215 | The same for a body event, which is refused exactly on an ended stream. |
| LuaDriver.HandleTrailersKeepsInv | plugins/samples/lua/coroutine.cc:217-280 | The same for trailers, with the exact condition of each of the three refusals. |
| LuaDriver.HandleHeadersFlags | plugins/samples/lua/coroutine.cc:155-178 | A headers event sets the end-of-stream flag to what it says and changes no other flag than "headers received". |
| LuaDriver.HandleBodyFlags | plugins/samples/lua/coroutine.cc:180-215 | What an accepted body event does to every flag, whatever the script does meanwhile. |
| LuaDriver.HandleTrailersFlags | plugins/samples/lua/coroutine.cc:217-280 | The same for accepted trailers. |
| LuaDriver.ApplyKeepsInv | plugins/samples/lua/coroutine.cc:40-280 | Whatever entry point is called, in whatever order: the invariant holds after it. |
| LuaDriver.NoInternalError | plugins/samples/lua/lua_state.cc:251-290 | For every sequence of calls, in any order and with any body buffers: no call ever reports "cannot resume exited coroutine", a dead, yielded or running thread, or too few arguments. |
| LuaCoroutine.LuaThread.LuaResume | plugins/samples/lua/lua_state.cc:270-272 | lua_resume on the script model: moves the pushed slots into the history and runs on; the new thread is the one the resume function gives. |
| LuaCoroutine.LuaThread.Resume | plugins/samples/lua/lua_state.cc:251-283 | Guards in the source's order, then the resume; thread and coroutine end as the specification of a resume says. |
| LuaCoroutine.LuaThread.ExecuteFunction | plugins/samples/lua/lua_state.cc:285-305 | Guards, the missing entry point, and the first entry, against the specification. |
| LuaCoroutine.LuaStreamCoroutine.constructor | plugins/samples/lua/coroutine.h:40-50 | A new coroutine is the initial state of every run: suspended, waiting to start, no flag set. |
| LuaCoroutine.LuaStreamCoroutine.Call | plugins/samples/lua/envoy_lua_api_registration.cc:128-212 | Each accessor returns at once exactly when its data counts as received, and else suspends with its own reason. |
| LuaCoroutine.LuaStreamCoroutine.Yield | plugins/samples/lua/coroutine.cc:82-86 | Suspends, and records the reason. |
| LuaCoroutine.LuaStreamCoroutine.Resume | plugins/samples/lua/coroutine.cc:66-80 | Field updates equal the specification of a resume, on success and on failure. |
| LuaCoroutine.LuaStreamCoroutine.RunToCompletion | plugins/samples/lua/coroutine.cc:88-153 | The while loop over the fields computes the recursive completion function. |
| LuaCoroutine.LuaStreamCoroutine.Start | plugins/samples/lua/coroutine.cc:40-64 | Field updates equal the specification of starting. |
| LuaCoroutine.LuaStreamCoroutine.HandleHeaders | plugins/samples/lua/coroutine.cc:155-178 | Field updates equal the specification of a headers event. |
| LuaCoroutine.LuaStreamCoroutine.HandleBody | plugins/samples/lua/coroutine.cc:180-215 | Field updates equal the specification of a body event. |
| LuaCoroutine.LuaStreamCoroutine.HandleTrailers | plugins/samples/lua/coroutine.cc:217-280 | Field updates equal the specification of a trailers event. |
| LuaPlugin.LuaHttpContext.OnHeaders | plugins/samples/lua/lua_plugin.cc:85-110 | Filter status, local reply and coroutine state of a headers event, in both directions, also without a coroutine; the other direction's coroutine is untouched. A failed start stops the iteration without a reply. |
| LuaPlugin.LuaHttpContext.OnBody | plugins/samples/lua/lua_plugin.cc:112-139 | The same for a body event. |
| LuaPlugin.LuaHttpContext.OnTrailers | plugins/samples/lua/lua_plugin.cc:141-164 | The same for a trailers event. |
| LuaLedger.RunToCompletionKeeps | plugins/samples/lua/coroutine.cc:88-153 | On an ended stream the loop gives only timely answers, hands out the pending chunk at most once, and no chunk after nil unless it was overtaken. |
| LuaLedger.HandleHeadersKeeps | plugins/samples/lua/coroutine.cc:155-178 | The account of timely answers and delivered chunks is kept by a headers event. |
| LuaLedger.HandleBodyKeeps | plugins/samples/lua/coroutine.cc:180-215 | The same for a body event, which brings at most one chunk. |
| LuaLedger.HandleTrailersKeeps | plugins/samples/lua/coroutine.cc:217-280 | The same for trailers; order of nil and chunks is lost only if a chunk was pending. |
| LuaRuns.DeliverKeepsInv | plugins/samples/lua/lua_plugin.cc:85-164 | Invariant, reported state and "started stays started" for one event of the proxy, with its buffering. |
| LuaRuns.DeliverKeepsLedger | plugins/samples/lua/lua_plugin.cc:85-164 | The account for one event of the proxy. |
| LuaRuns.RunKeeps | plugins/samples/lua/coroutine.cc:88-280 | The invariant and the account for whole event sequences. |
| LuaRuns.AnswersFitAndAreTimely | plugins/samples/lua/envoy_lua_api_registration.cc:128-212 | In every state reached by well-ordered events: each answer has the kind and direction its call asked for; headers only after headers, body, trailers and nil only after the end; body and trailers are never both received. |
| LuaAnswers.AnswersHoldWhatThereIs | plugins/samples/lua/coroutine.cc:88-280 | For every script, over every run: each buffer handed out while an event is handled holds exactly the bytes the proxy holds at that event, which are the chunks since the last reply that continued; a headers map lacks the guard exactly if it is the first answer, and a trailers map exactly if the script did not ask for it during the trailers event. |
| LuaAnswers.FirstHeadersLackTheGuard | plugins/samples/lua/coroutine.cc:155-178 | So in every state reached by well-ordered events, a headers map in the hands of the script lacks the guard of headers that were passed on exactly if it answers the script's first call. |
| LuaIterator.IteratorLaw | plugins/samples/lua/coroutine.cc:88-262 | For every script, over every run: which steps of the chunk iterator get a buffer and which get nil. A step that waits when a body event comes gets the chunk; any other gets a buffer exactly while there is data that no answer has shown; only trailers can answer nil first, to a script that waits for the body or a chunk. |
| LuaReplies.FlagsTellTheEvents | plugins/samples/lua/coroutine.cc:155-280 | For every script that starts, at every point of a run: each flag of the coroutine is the stated function of the events and replies so far. |
| LuaReplies.RepliesFollowTheScript | plugins/samples/lua/lua_plugin.cc:85-164 | For every script that starts, every reply of a run: without an error, body events are buffered and headers stopped exactly if the script is then suspended in body(), and all else continues; an error is the script's own and carries local reply 500. |
| LuaReplies.RefusalsAreTold | plugins/samples/lua/coroutine.cc:180-237 | In any state: events that the protocol rules out are refused with status 400, a second headers event without a reply, and the script hears of none. |
| LuaTheorems.RunCompletes | plugins/samples/lua/coroutine.cc:88-280 | For every script that does finitely much work unless it is handed another chunk, and every complete well-ordered run: if the last event succeeds the coroutine has exited, and if all events succeed the script was run to its return, every call answered in order. |
| LuaTheorems.StartFails | plugins/samples/lua/coroutine.cc:40-64 | On a new stream, the script fails to start exactly if its entry point is missing or its first action is an error, and then no answer was given and no flag changed; it waits for the headers exactly if its first action is to ask for them. |
| LuaTheorems.SilentFailure | plugins/samples/lua/lua_plugin.cc:234-261 | Over every well-ordered run: some event fails without a local reply exactly if the script fails on entry. |
| LuaTheorems.FailedStart | plugins/samples/lua/lua_plugin.cc:234-261 | For those scripts: the headers event reports the error and stops the iteration without a reply, every body event continues, and trailers are refused with status 400. |
| LuaTheorems.ChunksNeverOverrun | plugins/samples/lua/coroutine.cc:180-215 | Chunks handed out plus the pending one never exceed the body events. |
| LuaNil.NilIsFinalForEveryScript | plugins/samples/lua/coroutine.cc:241-262 | Nil is final for all scripts exactly on the event sequences that bring no body data or do not end in trailers. |
| LuaNil.ChunkAfterNil | plugins/samples/lua/coroutine.cc:88-113 | On every other sequence one and the same script receives the body, then nil, then the body as a chunk. |
| LuaBodies.HoldAndRelease | plugins/samples/lua/lua_plugin.cc:112-139 | A script parked in body(): for every split of the body each chunk is answered with StopIterationAndBuffer, the script receives the concatenation, by final body event or by trailers, and an error-free final event continues. |
| LuaBodies.BodyIsHeldFromTheStart | plugins/samples/lua/lua_plugin.cc:85-139 | The same from the creation of the stream: the headers event answers StopIteration. |
| LuaChunks.ChunkLoopLoops | plugins/samples/lua/envoy_lua_api_registration.cc:185-212 | A loop over bodyChunks() that asks for the headers in every round is one of the scripts that these statements are about. |
| LuaChunks.LoopTakesChunk | plugins/samples/lua/coroutine.cc:186-212 | A script looping over the chunks receives each body event's bytes once, goes through its round and waits again. |
| LuaChunks.LoopEnds | plugins/samples/lua/coroutine.cc:248-262 | The event that ends the stream gives the loop its own chunk, if it is a body event, and then nil. |
| LuaChunks.LoopGetsEveryChunk | plugins/samples/lua/coroutine.cc:180-262 | Over any complete sequence of events, the answers of the iterator are one Buffer a body event, in order, then nil. |
| LuaChunks.LoopFromTheStart | plugins/samples/lua/coroutine.cc:88-262 | The same from the creation of the stream, also when the headers end it, for every script that until nil asks only for chunks and headers, before the loop and in any round. |
| LuaBodies.CompletionAnswers | plugins/samples/lua/coroutine.cc:88-153 | A wait that the end of the stream finds pending is answered first: body() with the buffer, trailers() with the unguarded map, the iterator with the buffer if a chunk is pending and else with nil. |
| Splice.ApplyBackToFront | plugins/samples/ad_insertion/plugin.cc:229-239 | Editing in place from the last edit to the first equals one left-to-right rewriting of the original text. |
| Splice.RewriteLength | plugins/samples/ad_insertion/plugin.cc:229-239 | Length of the result: the body, plus the texts, minus what was cut. |
| Splice.TextSurvives | plugins/samples/ad_insertion/plugin.cc:229-239 | Every inserted text is a contiguous block of the result, at its place. |
| Splice.TextInContext | plugins/samples/ad_insertion/plugin.cc:229-239 | A text stands between what the body has in front of it and behind it, as far as no other edit comes near. |
| Splice.InsertionsInterleave | plugins/samples/ad_insertion/plugin.cc:229-239 | Insertions in ascending order equal the merge that puts, before each element of the body, the texts meant for that place. |
| AdInsertion.ApplyAllInsertions | plugins/samples/ad_insertion/plugin.cc:229-239 | The sort and splice loop gives the simultaneous insertion, for any correct sort. |
| AdInsertion.Collect | plugins/samples/ad_insertion/plugin.cc:178-227 | The prepare functions collect the snippets of the library script and of every ad, in order. |
| AdInsertion.CollectedArePlaced | plugins/samples/ad_insertion/plugin.cc:172-227 | Read off the body: the script stands behind the first head tag, or else in front of the first body tag, exactly if it is asked for and none of the three signs of it occurs; each ad whose marker occurs has one snippet, in front of the first occurrence or behind it, and no other ad has one. |
| AdInsertion.AdStandsAtItsMarker | plugins/samples/ad_insertion/plugin.cc:217-239 | In the body that goes out, markup and marker are adjacent, in the order the configuration asks for, unless another snippet comes near the marker. |
| AdInsertion.SingleAd | plugins/samples/ad_insertion/plugin.cc:217-239 | The whole body for a single ad: the markup directly in front of the first marker or directly behind it, and the body as it was if there is no marker. |
| AdInsertion.ProcessBody | plugins/samples/ad_insertion/plugin.cc:178-199 | The processed body is the original with the collected snippets inserted. |
| AdInsertion.CollectedInsertable | plugins/samples/ad_insertion/plugin.cc:201-227 | Every collected position is in range when it is used. |
| AdInsertion.InsertsSimultaneously | plugins/samples/ad_insertion/plugin.cc:229-239 | The result is the left-to-right merge of body and snippets at their original positions. |
| AdInsertion.ResultLength | plugins/samples/ad_insertion/plugin.cc:229-239 | The result is as long as the body and all snippets together. |
| AdInsertion.EverySnippetSurvives | plugins/samples/ad_insertion/plugin.cc:229-239 | Every snippet is found in the result as a contiguous block. |
| AdInsertion.DeletingSnippetsRestores | plugins/samples/ad_insertion/plugin.cc:229-239 | Deleting the inserted characters restores the body. |
| AdInsertion.OrderIsIrrelevant | plugins/samples/ad_insertion/plugin.go:236-250 | With distinct positions, neither the order of collection nor the sort matters. |
| AdInsertion.TiesReorderOnly | plugins/samples/ad_insertion/plugin.cc:229-239 | With ties, the results differ only in the order of the snippets at the same position. |
| AdInsertion.BodyIndependentOfMapOrder | plugins/samples/ad_insertion/plugin.rs:226-246 | The same, for iteration orders of the map of ad configurations. |
| AdInsertion.StableReversesTies | plugins/samples/ad_insertion/plugin.rs:183-192 | A stable sort puts tied snippets into the body in the reverse of the order they were collected in. |
| CdnToken.NextMatch | plugins/samples/cdn_token_generator/plugin.cc:186-189 | The next match is the leftmost place at which the URL pattern matches. |
| CdnToken.CollectMatches | plugins/samples/cdn_token_generator/plugin.cc:181-189 | The search loop collects all leftmost matches, each behind the one before. |
| CdnToken.EveryUrlIsCovered | plugins/samples/cdn_token_generator/plugin.cc:181-189 | Every place at which the pattern matches lies within a collected match. |
| CdnToken.MatchesInOrder | plugins/samples/cdn_token_generator/plugin.cc:181-189 | The matches are in range, ordered and disjoint. |
| CdnToken.ReplaceAll | plugins/samples/cdn_token_generator/plugin.cc:195-206 | Replacing from the last match to the first equals the original body with token text inserted at the match ends, and nothing else changed. |
| CdnToken.OnResponseBody | plugins/samples/cdn_token_generator/plugin.cc:155-216 | Status and written body for every path: buffering, over-long, unreadable, empty, no match. |
| CdnToken.NothingToSign | plugins/samples/cdn_token_generator/plugin.cc:191-193 | Without a match the signed text is the body. |
| CdnToken.MatchIsUrl | plugins/samples/cdn_token_generator/plugin.cc:81-81 | A match at one of the two schemes is the scheme and the longest run of characters behind it that are no white space, quote or angle bracket, of which there must be one. |
| CdnToken.NoSchemeNoMatch | plugins/samples/cdn_token_generator/plugin.cc:81-81 | Nothing else matches. |
| CdnToken.SignedUrlReadsBack | plugins/samples/cdn_token_generator/plugin.cc:255-262 | A reader that parts a URL at its first question mark and the query at ampersands finds the path and the parameters of the URL, in order, and the token as the last parameter. |
| CdnToken.SignedUrlsSurvive | plugins/samples/cdn_token_generator/plugin.cc:199-205 | Each URL of the body stands in the written body, followed by its token, and reads back like this. |
| PiiMask.MatchesAre | plugins/samples/check_pii/plugin.cc:109-125 | What matches: four groups of four digits parted by hyphens, and ten digits. |
| PiiMask.GlobalReplace | plugins/samples/check_pii/plugin.cc:109-125 | The replacement loop: leftmost matches without overlap, and their number. |
| PiiMask.MaskPII | plugins/samples/check_pii/plugin.cc:109-125 | Two passes; the flag is returned exactly when the text changed. |
| PiiMask.MaskedMasks | plugins/samples/check_pii/plugin.cc:109-125 | The length is kept, and each position is as it was or went from a digit to X. |
| PiiMask.CountsChanges | plugins/samples/check_pii/plugin.cc:109-125 | A pass counts no match exactly when it changes nothing. |
| PiiMask.ReplacedAt | plugins/samples/check_pii/plugin.cc:109-125 | A pass writes X over exactly the masked digits of the matches it takes, position by position. |
| PiiMask.MaskedRunsAreShort | plugins/samples/check_pii/plugin.cc:120-123 | No run of digits in the result is longer than twelve. |
| PiiSurvivors.CodeSurvives | plugins/samples/check_pii/plugin.cc:109-125 | A run of ten digits is left in the masked text exactly if the text has a run of n >= 10 digits with n modulo 10 at least 7, where the last four digits do not count if a card number begins with them. |
| PiiSurvivors.CodeSurvivesWithoutCards | plugins/samples/check_pii/plugin.cc:120-123 | Without card numbers: exactly if some run has such a length. |
| PiiSurvivors.SeventeenDigits | plugins/samples/check_pii/plugin.cc:120-123 | Such inputs: masking any seventeen digits leaves ten. |
| PiiSurvivors.CardSurvives | plugins/samples/check_pii/plugin.cc:109-125 | A card number is left at a position of the masked text exactly if there was one, it begins in the last group of one of the leftmost disjoint card numbers, no other begins within it, and the run of digits at its last group is shorter than ten, not counting four that begin a card number. |
| PiiSurvivors.CardInChainSurvives | plugins/samples/check_pii/plugin.cc:114-118 | A chain of n groups of four digits keeps a card number exactly if n is at least 7 and n modulo 4 is 3. |
| PiiSurvivors.SecondCardSurvives | plugins/samples/check_pii/plugin.cc:114-118 | Such inputs: masking any seven groups of four digits leaves the second card number. |
| PiiMask.MaskHeaders | plugins/samples/check_pii/plugin.cc:73-91 | Header values are masked one by one; the headers are written back exactly if one changed. |
| PiiMask.MaskBody | plugins/samples/check_pii/plugin.cc:93-104 | The body is written back exactly if it changed, with the length it had. |
| SseReframing.StreamState.HandleStreamingChunk | callouts/python/extproc/example/litellm_gateway/service_callout_example.py:535-576 | The loop over the carry-over buffer emits what the complete events translate to and keeps the rest; the end marker follows exactly on the last chunk; without an iterator chunks pass through. |
| SseReframing.BufferedIsOfTheWhole | callouts/python/extproc/example/litellm_gateway/service_callout_example.py:476-498 | However a body is cut, the outputs before the last are empty, and the last is the transform of the whole body, or the whole body as it came if that fails. |
| SseReframing.NormalizeConcat | callouts/python/extproc/example/litellm_gateway/service_callout_example.py:549-550 | Line ends of a concatenation: piecewise, except where the cut goes through a CRLF pair. |
| SseReframing.LineEndsSurviveChunking | callouts/python/extproc/example/litellm_gateway/service_callout_example.py:549-550 | Normalizing chunk by chunk equals normalizing the whole exactly if no pair is cut. |
| SseReframing.EventsConcat | callouts/python/extproc/example/litellm_gateway/service_callout_example.py:552-554 | Splitting incrementally with a carry-over gives the events of the whole. |
| SseReframing.NothingLeftToSplit | callouts/python/extproc/example/litellm_gateway/service_callout_example.py:552-554 | The carry-over buffer never contains a blank-line delimiter between calls. |
| SseReframing.UnsplitEvents | callouts/python/extproc/example/litellm_gateway/service_callout_example.py:552-554 | Splitting loses nothing but the delimiters. |
| SseReframing.EventsAreFound | callouts/python/extproc/example/litellm_gateway/service_callout_example.py:552-554 | Splitting finds the events that a text was put together from. |
| SseReframing.TranslateConcat | callouts/python/extproc/example/litellm_gateway/service_callout_example.py:555-571 | The provider's state runs on from event to event across chunks. |
| SseReframing.EventsSurviveChunking | callouts/python/extproc/example/litellm_gateway/service_callout_example.py:549-554 | The parser finds the events, and the rest, of the whole text exactly if no pair is cut. |
| SseReframing.OutputIsOfTheData | callouts/python/extproc/example/litellm_gateway/service_callout_example.py:549-576 | For every chunking and every provider: the output is that of the data of the events, fed to the provider in order, followed by one end marker. |
| SseReframing.SameOutputMeansSameData | callouts/python/extproc/example/litellm_gateway/service_callout_example.py:549-576 | Two chunkings give the same output for every provider exactly if they give the same data. |
| SseReframing.OutputIsOfTheWhole | callouts/python/extproc/example/litellm_gateway/service_callout_example.py:549-576 | A stream in chunks gives the output of the stream in one chunk, for every provider, exactly if its data is that of the whole text. |
| SseReframing.ChunkingIsIrrelevant | callouts/python/extproc/example/litellm_gateway/service_callout_example.py:549-576 | So two chunkings of one stream that cut no pair give the same output, for providers with any state and any JSON. |
| SseReframing.EventHasData | callouts/python/extproc/example/litellm_gateway/service_callout_example.py:676-686 | An event of any lines has data exactly if one of them begins with the field name. |
| SseReframing.OtherLinesAreIgnored | callouts/python/extproc/example/litellm_gateway/service_callout_example.py:676-686 | Any other line can be inserted or dropped anywhere. |
| SseReframing.DataLinesExtract | callouts/python/extproc/example/litellm_gateway/service_callout_example.py:676-686 | The data of an event of data lines is their payloads, without the white space in front of each, joined by line ends. |
| SseReframing.OtherEventsAreIgnored | callouts/python/extproc/example/litellm_gateway/service_callout_example.py:555-557 | Events without data, and those with the provider's end marker, can be inserted anywhere, and no reader sees the marker. |
| SseReframing.OutputReadsBack | callouts/python/extproc/example/litellm_gateway/service_callout_example.py:564-576 | For every chunking: what a client finds when it splits the output, for any payloads; it is one event a payload, in order, then the end marker, and nothing left, exactly if every payload could be serialized. |
| SseReframing.EndMarkerIsSeen | callouts/python/extproc/example/litellm_gateway/service_callout_example.py:567-573 | The client finds the end marker exactly if the last payload that wrote anything could be serialized. |
| SseReframing.DanglingFieldHidesEnd | callouts/python/extproc/example/litellm_gateway/service_callout_example.py:567-573 | Such an input: one payload that cannot be serialized, and the client finds one event with the data of a whole end marker, and no end marker. |
| SseReframing.CutPairLosesEvent | callouts/python/extproc/example/litellm_gateway/service_callout_example.py:549-550 | A cut within the last CRLF pair loses the last event. |
| CookieText.ParsedIsParsable | plugins/samples/set_reset_cookie/plugin.cc:154-168 | What the parser produces has stripped names and values, no separator in either, and no "=" in a name. |
| CookieText.ParseConcat | plugins/samples/set_reset_cookie/plugin.cc:154-168 | Semicolons part the header: a header of two halves parses to the cookies of both. |
| CookieText.NoEqualsNoCookie | plugins/samples/set_reset_cookie/plugin.cc:156-163 | A piece without an equals sign is no cookie. |
| CookieText.CookieIsFound | plugins/samples/set_reset_cookie/plugin.cc:156-168 | A cookie is found with any white space around its name and its value. |
| CookieText.RoundTrip | plugins/samples/set_reset_cookie/plugin.cc:148-209 | Parsing a rebuilt header gives back the same list, for every list the parser can produce. |
| CookieManager.EraseNamed | plugins/samples/set_reset_cookie/plugin.cc:181-184 | Erasing by name keeps the order of the rest and counts what it removed. |
| CookieManager.RemoveCookies | plugins/samples/set_reset_cookie/plugin.go:186-197 | The in-place filter over the shared array leaves the same list in its front part. |
| CookieManager.DeleteInPlace | plugins/samples/set_reset_cookie/plugin.go:101-143 | Config by config over one shared array: the list is that of one batch deletion, and the header changes exactly if something was removed. |
| CookieManager.DeleteInBatch | plugins/samples/set_reset_cookie/plugin.rs:183-224 | The batch with its early return gives the same list and the same header. |
| CookieManager.EraseOneMore | plugins/samples/set_reset_cookie/plugin.cc:176-189 | Deleting one more name after a set of names is deleting the larger set. |
| CookieManager.DeletedExactly | plugins/samples/set_reset_cookie/plugin.cc:176-184 | The names to delete are exactly those of DELETE operations. |
| CookieManager.EachByItsName | plugins/samples/set_reset_cookie/plugin.cc:176-184 | Each cookie stays or goes by its own name, and the others keep their places. |
| CookieManager.SetCookieInAnyCase | plugins/samples/set_reset_cookie/plugin.cc:269-271 | The header is recognized in letters of either case, and no other name is. |
| CookieManager.CookieManagerHttpContext.ParseRequestCookies | plugins/samples/set_reset_cookie/plugin.cc:148-169 | The parsing loop equals the parser function. |
| CookieManager.CookieManagerHttpContext.ProcessCookieDeletions | plugins/samples/set_reset_cookie/plugin.cc:171-195 | The cookies of deleted names are gone, the rest is in order, and the header is touched exactly when something was removed. |
| CookieManager.CookieManagerHttpContext.RebuildCookieHeader | plugins/samples/set_reset_cookie/plugin.cc:197-209 | The header is removed when no cookie is left and else printed from the list. |
| CookieManager.CookieManagerHttpContext.OnRequestHeaders | plugins/samples/set_reset_cookie/plugin.cc:121-130 | The request header after both steps. |
| CookieManager.BackendReadsTheRest | plugins/samples/set_reset_cookie/plugin.cc:148-209 | The backend parses exactly the cookies that were not deleted, and an untouched header is the client's own. |
| CookieManager.DeletionIsIdempotent | plugins/samples/set_reset_cookie/plugin.cc:171-195 | Running the deletions again changes nothing. |
| CookieManager.CookieManagerHttpContext.RemoveExistingSetCookie | plugins/samples/set_reset_cookie/plugin.cc:264-289 | The Set-Cookie values for the name are gone, the others remain in order, and all other headers are unchanged. |
| CookieManager.CookieManagerHttpContext.OverwriteCookie | plugins/samples/set_reset_cookie/plugin.cc:292-311 | Removal, then the one value the config builds. |
| CookieManager.CookieManagerHttpContext.OnResponseHeaders | plugins/samples/set_reset_cookie/plugin.cc:212-222 | The loop over the configs is the fold of their operations; all other headers are unchanged. |
| CookieFold.TargetsIsExact | plugins/samples/set_reset_cookie/plugin.cc:264-279 | For a well-formed name the prefix test holds exactly of the values that name this cookie. |
| CookieFold.RemovedIsSet | plugins/samples/set_reset_cookie/plugin.cc:264-311 | A value that an overwrite removes names the very cookie that the overwrite sets. |
| CookieAttributes.BuiltReadsBack | plugins/samples/set_reset_cookie/plugin.cc:225-311 | A user agent that reads the built value finds the cookie and exactly the attributes that are asked for; of an overwrite without a value, the path, an age of zero, and the domain. |
| CookieAttributes.DecimalReadsBack | plugins/samples/set_reset_cookie/plugin.cc:236-239 | The printed age reads back as the number. |
| CookieFold.SetsAccumulate | plugins/samples/set_reset_cookie/plugin.cc:212-222 | Without an overwrite, the values for a name are those it had and then those set, in order. |
| CookieFold.OverwriteSettles | plugins/samples/set_reset_cookie/plugin.cc:212-311 | After the last OVERWRITE of a name: its value, then those of later SETs. |
| CookieFold.LastOverwriteWins | plugins/samples/set_reset_cookie/plugin.cc:212-311 | If the last operation on a well-formed name is OVERWRITE, exactly one value names it, the one that config built. |
| CookieFold.UnmentionedSurvive | plugins/samples/set_reset_cookie/plugin.cc:264-289 | Set-Cookie values for names that no operation sets all survive, in order. |
| TokenCache.StepIsSafe | callouts/python/extproc/example/token_exchange/service_callout_example.py:135-156 | Safety is kept by every step: look-up, check, exchange, failed exchange, store, and the eviction of any entry. |
| TokenCache.RunIsSafe | callouts/python/extproc/example/token_exchange/service_callout_example.py:135-156 | Safety in every state of every interleaving. |
| TokenCache.ServedTokensAreOwn | callouts/python/extproc/example/token_exchange/service_callout_example.py:135-156 | A served token was minted by an exchange of the same subject token, and a hit had more than 60 seconds left when it was checked. |
| TokenCache.CachedTokensHaveExpiries | callouts/python/extproc/example/token_exchange/service_callout_example.py:153-156 | Every cached token was minted for the subject token of its key and with the known expiry it is stored with. |
| TokenCache.CacheDecides | callouts/python/extproc/example/token_exchange/service_callout_example.py:135-147 | A request is served from the cache exactly if the entry of its subject token has more than 60 seconds left. |
| TokenCache.EvictedIsMissed | callouts/python/extproc/example/token_exchange/service_callout_example.py:138-141 | What is evicted is not served, and nothing else is forgotten. |
| TokenCache.ExchangeIsStored | callouts/python/extproc/example/token_exchange/service_callout_example.py:148-156 | A request that missed is served the exchanged token, which is cached exactly if its expiry is known. |
| TokenCache.CollidingKeysMixTokens | callouts/python/extproc/example/token_exchange/service_callout_example.py:137-143 | Two subject tokens with equal keys: one is served the other's token, so injectivity is needed. |
| IdentityHeaders.OwnedHeadersAreExpected | callouts/python/extproc/example/token_exchange/service_callout_example.py:203-239 | On every forwarded path in inbound mode the owned headers have the values that the token outcome gives, whatever the client sent. |
| IdentityHeaders.OwnedHeadersIgnoreTheClient | callouts/python/extproc/example/token_exchange/service_callout_example.py:203-239 | Two header maps and the same outcome: the same owned headers. |
| IdentityHeaders.IdentityMeansExchanged | callouts/python/extproc/example/token_exchange/service_callout_example.py:203-219 | A request is rejected exactly when not exchanged in fail-closed mode, and an owned header has a value only after an exchange. |
| IdentityHeaders.OtherHeadersPass | callouts/python/extproc/example/token_exchange/service_callout_example.py:221-239 | All headers but those and the authorization header pass unchanged. |
| IdentityHeaders.AuthorizationIsExchanged | callouts/python/extproc/example/token_exchange/service_callout_example.py:111-239 | The authorization header carries the exchanged token, or stays as the client sent it, or the request is rejected with the status and the reason of its failure. |
| IdentityHeaders.IdentityIsTheTokens | callouts/python/extproc/example/token_exchange/service_callout_example.py:221-283 | The value of each owned header, from the claims: the email or else the preferred user name, the subject, and groups that read back from the list. |
| UrlEncoding.UrlEncode | plugins/samples/lua/envoy_lua_api.cc:67-79 | The loop computes the encoding, character by character. |
| UrlEncoding.DecodeEncode | plugins/samples/lua/envoy_lua_api.cc:67-79 | Decoding by sections 2.1 and 2.3 of RFC 3986 undoes the encoding. |
| UrlEncoding.EncodeDistributes | plugins/samples/lua/envoy_lua_api.cc:67-79 | The encoding of a concatenation is the concatenation of the encodings. |
| UrlEncoding.EncodeSize | plugins/samples/lua/envoy_lua_api.cc:67-79 | Two more characters for each that is not unreserved, so at most three times the length; only unreserved characters and percent signs appear. |
| UrlEncoding.EncodeIsShortest | plugins/samples/lua/envoy_lua_api.cc:67-79 | No text that decodes to the same value is shorter. |
| UrlEncoding.EncodeInjective | plugins/samples/lua/envoy_lua_api.cc:67-79 | Different values have different encodings. |
| UrlEncoding.EscapesAreUpperCase | plugins/samples/lua/envoy_lua_api.cc:67-79 | Exactly the unreserved characters stand for themselves, and all else is written with two upper-case digits. |
| UrlEncoding.Base64DerToUrlEncodedPem | plugins/samples/lua/envoy_lua_api.cc:81-96 | The wrapping loop computes the encoded PEM block of the text without its enclosing colons. |
| UrlEncoding.LinesShape | plugins/samples/lua/envoy_lua_api.cc:91-94 | Lines of exactly 64 characters but for the last, as section 2 of RFC 7468 has it, holding the text in order. |
| UrlEncoding.WrappingIsUndone | plugins/samples/lua/envoy_lua_api.cc:91-94 | Dropping the line ends gives the text back exactly if it had none of its own. |
| UrlEncoding.OneColonIsDropped | plugins/samples/lua/envoy_lua_api.cc:86-89 | One colon is dropped at each end, and no more. |
| Sequences.SplitParts | plugins/samples/lua/envoy_lua_api.cc:526-526 | Splitting at the separator loses nothing but the separators. |
| Sequences.SplitJoined | plugins/samples/lua/envoy_lua_api.cc:526-526 | Splitting undoes joining. |
| UrlEncoding.CertificatesInOrder | plugins/samples/lua/envoy_lua_api.cc:513-532 | The leaf comes first, if there is one, and the others join to the chain as it came. |
| UrlEncoding.GetUrlEncodedPemEncodedPeerCertificateChain | plugins/samples/lua/envoy_lua_api.cc:513-532 | The chain output is the encoding of the concatenated PEM blocks, leaf first, in order. |
| UrlEncoding.BundleReadsBack | plugins/samples/lua/envoy_lua_api.cc:81-96 | A reader of PEM bundles finds the wrapped texts, in order. |
| UrlEncoding.ChainReadsBack | plugins/samples/lua/envoy_lua_api.cc:513-532 | Decoding and reading the chain output gives the certificates of the connection. |
| BenchmarkStream.AdditionalStream.Advance | plugins/test/dynamic_test.cc:235-315 | The loop performs the one action the specification gives, and reports a failed VM except on creation. |
| BenchmarkStream.Turns | plugins/test/dynamic_test.cc:235-315 | Every call ends within five turns of the loop. |
| BenchmarkStream.CycleShape | plugins/test/dynamic_test.cc:235-315 | What a round is: creation, the request headers and chunks, the response headers and chunks, destruction, with the end flag on the last chunk of either body and on no other. |
| BenchmarkStream.AdvanceTakesNext | plugins/test/dynamic_test.cc:235-315 | A call performs the first of the actions left in the round and leaves the others. |
| BenchmarkStream.RunRepeatsTheCycle | plugins/test/dynamic_test.cc:235-315 | After any number of whole rounds, action k of a run is action k of the round: create, headers, all chunks of each direction with the end flag on the last, destroy. |
| BenchmarkStream.NthAction | plugins/test/dynamic_test.cc:235-315 | The same for the n-th action, counting its place in the round cyclically. |
| BenchmarkStream.ContextIsLive | plugins/test/dynamic_test.cc:235-315 | Every action but creation finds a live context. |
| BenchmarkStream.CutLosesNothing | plugins/test/dynamic_test.cc:879-892 | The chunks of a body concatenate to the body. |
| BenchmarkStream.ChunksAreTheBody | plugins/test/dynamic_test.cc:879-892 | A plan by number yields exactly that many chunks for exactly the bodies that are long enough; a plan by size meets the size in every chunk but the last. |

## Left out

- PiiSurvivors.NoCardSurvives: a simple condition that suffices; the exact one is PiiSurvivors.CardSurvives.
- SseReframing.OutputReadsBack: for payload texts without line ends, as serialized JSON has none.
- AdInsertion.AdStandsAtItsMarker: when no other snippet comes near the marker; what several at one place give is AdInsertion.InsertsSimultaneously.
- CdnToken.SignedUrlReadsBack: for tokens without an ampersand, as the signer's have none.
- CookieAttributes.BuiltReadsBack: for names, values, paths and domains without semicolons or outer white space, as the builder does not escape them.
- UrlEncoding.ChainReadsBack: for texts without dashes and line ends, as Base64 has neither.
- Lua: scripts that run for ever without asking for a chunk, the virtual machine, the binding library, `coroutine.yield` called by a script, yields across C boundaries, the HTTP-call and response reasons beyond their switch arms, and `HandleHttpResponse`, which does nothing.
- Lua: header and trailer contents and the refusal to change headers that were passed on; the model only records which maps carry that guard.
- Lua: loading the configuration and creating threads; a coroutine that could not be created is modelled as missing.
- Ad insertion: configuration parsing, the request path guard and content types, the handling of the end-of-stream flag, and the markup of an ad.
- CDN tokens: HMAC, Base64 and the configuration. The signer is a function of the URL and the number of its match.
- Masking: the accept-encoding request header, and bodies that are masked chunk by chunk, where a number cut between chunks is missed.
- SSE: UTF-8 sequences cut between chunks, the choice of the provider's iterator, and request transforms.
- Cookies: configuration parsing and validation, the Go plugin's treatment of an unspecified operation and of Set-Cookie values it splits, and log lines.
- Token exchange: extracting the bearer token, the HTTP exchange itself, and the size and lifetime policy of the cache, which may drop any entry at any time in the model.
- UrlEncoding: the single-certificate accessor, which is the chain with one leaf, and the other connection accessors.
- Benchmark stream: parsing test files, timing and statistics.
- gRPC and HTTP servers, clients, TLS, health checks, command lines, the one-branch header samples and the plugins built on HTML and URL parsing libraries.
