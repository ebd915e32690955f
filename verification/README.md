# Voice assistant control logic in Dafny

This project models the sequential rules that sit between the cloud calls of a voice assistant
built on Amazon Transcribe, Bedrock and Polly:

- the transcript filters that turn streaming Transcribe results into texts;
- the debounced utterance buffer, with its single replaceable silence timer;
- three intent-driven session controllers (START / STOP / INTERRUPT / COMMAND / IGNORE) that
  flip an `active` flag and keep at most one command task running, by cancel-then-replace;
- the simpler cancel/replace dispatch of the web apps and their start-up retry;
- the barge-in, synthesis and shutdown steps of the streaming assistant;
- the `retry_sync` / `retry_async` decorators;
- the `_parse_tag` reply parser;
- the LFU semantic cache;
- the retrieval-augmented `answer` loop and its prompt template;
- the fixed-size audio upload loops;
- the audio URL and PCM path building.

How the model represents the system:

- An asyncio task is a handle into a log of tasks kept by its owner. Each task is `Running`,
  `Done` or `Cancelled`, and cancelling is setting that state.
- A timer's expiry, a classifier's reply, a model's reply and each attempt of a retried call
  are inputs. The retry attempts are given as a function from the attempt number to its outcome.
- Delays are recorded as the sequence of pauses slept.
- Objects whose fields the Python code changes in place are Dafny classes:
  - the two `LiveTranscriber` classes, with their fragment buffer;
  - the `app2.py` globals;
  - `VoiceAssistant`;
  - `InMemorySemanticCache`;
  - `RAGPipeline`;
  - the transcript handlers.
- Each state-changing method is specified by a pure function of the old state. The properties
  the code promises are proved about those functions: invariants kept across any run, agreement
  between the controller variants, round trips and bounds.

Modules:

| module | file | models |
|---|---|---|
| `Tasks` | tasks.dfy | task handles, `cancel`, `create_task`, the shared cancel-then-replace step and the session invariant |
| `Intents` | intents.dfy | the intent labels |
| `PyStr` | pystr.dfy | `strip`, `join`, `upper`, `find`, `replace`, `startswith` with CPython's semantics |
| `Options` | options.dfy | optional values |
| `Transcripts` | transcripts.dfy | the final-transcript filters and `TranscribeHandler` of stt/stt.py (also the one in tools/flow_utils.py and live_transcriber/live_transcriber.py) |
| `Debounce` | debounce.dfy | the fragment buffer and silence timer of both `LiveTranscriber`s |
| `FlowUtils` | flow_utils.dfy | `LiveTranscriber` of tools/flow_utils.py |
| `Live` | live_transcriber.dfy | `LiveTranscriber` of live_transcriber/live_transcriber.py, and how it differs from the first |
| `App2` | app2.dfy | the intent controller, classifier and upload loop of app2.py |
| `App` | app.dfy | `cancellable_socket_handle_text` and `run_transcriber` of app.py |
| `AppNgrok` | app_ngrok.dfy | the transcript handler, upload loop, PCM path and audio URL of app_ngrok.py |
| `VoiceStreaming` | voice_streaming.dfy | `VoiceAssistant` of sonic_test/voice_streaming.py |
| `VoiceChatbot` | voice_chatbot.dfy | the transcript filter of experiment/chatbot/voice_chatbot.py |
| `RetryUtils` | retry_utils.dfy | tools/retry_utils.py |
| `TaskClassification` | task_classification.dfy | `_parse_tag` and the end of `classify_task` |
| `Cache` | cache.dfy | `LFUSlot` and `InMemorySemanticCache` |
| `Rag` | rag.dfy | `PromptBuilder.build_prompt` and `RAGPipeline.answer` |
| `Chunking` | chunking.dfy | `data[i:i+size]` for `i` in `range(0, len(data), size)` |

## Model

| member | source | states |
|---|---|---|
| Tasks.CancelAndReplace | app.py:311-322 | the new command task for the text is running at the end of the log and becomes current; the previous current task is cancelled exactly when it had not finished and keeps its work; every other task is untouched; "only the current command runs" is kept |
| App.HandleTexts | app.py:311-322 | a burst of texts adds exactly one task per text to the log and keeps the held handle inside the log; no texts leaves the state as it was |
| App.OnlyLatestCommandRuns | app.py:311-322 | after any burst of texts, one task per text is logged in arrival order, the last text's command is current and running, and no earlier command runs |
| App.HandleTextsLatest | app.py:320-322 | after a burst the last text's command is current and running |
| App.HandleTextsLogsCommands | app.py:320-322 | the j-th text of a burst gets the j-th new task of the log |
| App.HandleTextsKeepsOnlyCurrent | app.py:314-322 | handling texts keeps "no command runs except the current one" |
| App.HandleTextsKeepsLog | app.py:314-322 | handling texts never changes the work of a task already in the log |
| App.HandleTextsAppend | app.py:311-322 | handling `a + b` is handling `a`, then `b` from the state that left |
| App.CommandSlot.constructor | app.py:24 | no command is held at start and the log is empty |
| App.CommandSlot.CancellableSocketHandleText | app.py:311-322 | the call is the cancel-then-replace step: a handle is always held afterwards, and the slot's invariant is kept (app_ngrok.py:525-533 is the same code) |
| App.RunTranscriber | app.py:324-341 | the transcriber is connected iff one of the two starts returns; a first start that returns ends the loop after one call; two failures give up without raising after one pause of 1 s; the run is `retry` with 2 tries |
| AppNgrok.HandleTranscriptEvent | app_ngrok.py:43-51 | the texts handed on, in order, are the stripped non-empty first alternatives of the final results before the first final result without alternatives; that result raises `IndexError` and ends the event |
| AppNgrok.HandleResult | app_ngrok.py:45-51 | one result raises iff it is final without alternatives; otherwise its first text, if any, is handed on |
| AppNgrok.SendChunks | app_ngrok.py:446-449 | the slices sent are the 6400-byte chunks of the data, which concatenate back to it, with every chunk but the last full |
| AppNgrok.PcmPathOfRecording | app_ngrok.py:433 | a recording `stem + ".webm"` is converted to `stem + ".wav"` when the stem has no other `.webm` |
| AppNgrok.PcmPathWithoutWebm | app_ngrok.py:433 | a path without `.webm` is its own PCM path |
| AppNgrok.ReplaceAbsent | app_ngrok.py:433 | `replace` of an absent pattern changes nothing |
| AppNgrok.ReplaceTrailing | app_ngrok.py:433 | `replace` of a pattern occurring only at the end swaps just that occurrence |
| AppNgrok.ConfiguredAudioUrl | app_ngrok.py:502-507 | an unset server name (Flask's default `None`) raises instead of producing a URL; a set one gives `AudioUrl` of it, which starts with `http` |
| AppNgrok.ServerBase | app_ngrok.py:502-504 | a name starting with `http` is its own base, and any other name gets exactly `https://` in front; either way the base starts with `http` and ends with the name |
| AppNgrok.ServerBaseIdempotent | app_ngrok.py:503-504 | adding the scheme twice is adding it once |
| AppNgrok.Basename | app_ngrok.py:506 | the base name is the suffix of the path after its last `/`, and contains no `/` |
| AppNgrok.BasenameWhole | app_ngrok.py:506 | the base name is the whole path iff the path has no `/` |
| AppNgrok.AudioUrl | app_ngrok.py:502-507 | the URL is the server base, then `/history_result/`, then the file's base name; so it starts with `http` and ends with the route and the base name |
| AppNgrok.AudioUrlOfConfiguredServer | app_ngrok.py:29 | with the ngrok host the app configures, the URL is `https://` + host + `/history_result/` + base name |
| AppNgrok.ConfiguredBase | app_ngrok.py:29 | the configured host has no scheme, so `https://` is put in front of it |
| App2.InvokeSync | app2.py:89-114 | an attempt raises iff the call fails; a reply with no usable content, or one that is not an intent once stripped and upper-cased, is COMMAND; a recognised intent is returned |
| App2.ClassifyIntent | app2.py:74-122 | the intent is one of the four, or IGNORE exactly when both attempts raised; the first attempt that does not raise decides it |
| App2.ClassifierRun | app2.py:88-122 | `retry_sync(retries=2)` over the attempts: the first non-raising attempt wins, and the call fails only when both raise |
| App2.Dispatch | app2.py:937-1012 | START in standby and STOP when active flip the flag and cancel a running command; START when active and STOP in standby change nothing; INTERRUPT cancels only when active; COMMAND starts a task only when active; IGNORE and unknown intents change nothing; the session invariant is kept |
| App2.RunAppend | app2.py:927-1012 | handling `a + b` is handling `a`, then `b` |
| App2.RunKeepsInvariant | app2.py:937-1012 | any run keeps at most one command running, the current one, and none in standby |
| App2.StandbyIgnoresAllButStart | app2.py:937-1012 | in standby, utterances none of which is START change nothing |
| App2.AgreesWithFlowUtils | app2.py:937-1012 | for the same intents, app2.py starts and cancels exactly the command tasks the tools/flow_utils.py controller does, and keeps the same flag |
| App2.Classified | app2.py:136-142 | the j-th handled text is paired with the intent of its own classification |
| App2.RunClassifiedSnoc | app2.py:136-142 | handling one more text is one more dispatch after the texts before it |
| App2.VoiceServer.constructor | app2.py:39-41 | in standby with no command held at start |
| App2.VoiceServer.CancellableSocketHandleText | app2.py:1117-1137 | the cancel-then-replace step; a handle is always held afterwards and the flag is untouched |
| App2.VoiceServer.HandleIntentFromText | app2.py:927-1013 | the new state is the dispatch of the classified intent; the session invariant is kept; `interrupted` holds iff INTERRUPT cancelled a running task while active |
| App2.VoiceServer.HandleTranscriptEvent | app2.py:135-142 | the state is the run of the handled texts, the stripped non-empty first alternatives of the final results, up to a final result without alternatives, which raises |
| App2.WriteChunks | app2.py:866-879 | the slices sent are the 8000-byte chunks of the data, which concatenate back to it, and the byte count equals its length |
| Transcripts.FirstAlternativesUnchecked | app2.py:136-142 | the handler raises iff some final result has no alternatives; without that it forwards every first text, and it always forwards a prefix of them |
| Transcripts.UncheckedStep | app2.py:137-142 | one more result either raises or adds its first text |
| Transcripts.FirstUncheckedStops | app2.py:137-142 | once a result has raised, later results change nothing |
| Transcripts.KeptForwardable | stt/stt.py:23-26 | every kept alternative is non-empty and stripped |
| Transcripts.FinalAlternativesForwardable | stt/stt.py:20-26 | every text the all-alternatives handlers forward is non-empty and stripped |
| Transcripts.FirstAlternativesForwardable | experiment/chatbot/voice_chatbot.py:48-55 | every text the first-alternative handlers forward is non-empty and stripped |
| Transcripts.KeptSnoc | stt/stt.py:23-26 | one more alternative adds its stripped text when that is non-empty |
| Transcripts.FinalAlternativesSnoc | stt/stt.py:21-26 | one more result adds its kept alternatives when it is final |
| Transcripts.FirstAlternativesSnoc | experiment/chatbot/voice_chatbot.py:49-55 | one more result adds its first text |
| Transcripts.FinalAlternativesAppend | stt/stt.py:20-26 | the filter of two events is the concatenation of their filters, so order is kept |
| Transcripts.FirstAlternativesAppend | experiment/chatbot/voice_chatbot.py:48-55 | the first-alternative filter distributes over concatenation |
| Transcripts.PartialContributesNothing | stt/stt.py:22 | a partial result forwards nothing |
| Transcripts.SkippedContributesNothing | experiment/chatbot/voice_chatbot.py:50-52 | a partial result, or one without alternatives, forwards nothing |
| Transcripts.PartialIgnoredByFinalAlternatives | stt/stt.py:21-22 | removing a partial result from an event leaves what is forwarded unchanged |
| Transcripts.SkippedByFirstAlternatives | experiment/chatbot/voice_chatbot.py:49-52 | removing a skipped result leaves what is forwarded unchanged |
| Transcripts.TranscribeHandler.constructor | stt/stt.py:16-18 | `final_transcripts` starts empty |
| Transcripts.TranscribeHandler.HandleTranscriptEvent | stt/stt.py:20-26 | `final_transcripts` grows by exactly the stripped non-empty alternatives of the final results, in order (the handlers at tools/flow_utils.py:39-45 and live_transcriber/live_transcriber.py:28-34 feed the same texts to their queue) |
| Transcripts.TranscribeHandler.AppendAlternatives | stt/stt.py:23-26 | one final result appends its stripped non-empty alternatives in order |
| VoiceChatbot.HandleTranscriptEvent | experiment/chatbot/voice_chatbot.py:48-55 | the callback is called once per final result whose first alternative is non-empty once stripped, with that text, in order; every text is stripped and non-empty |
| VoiceStreaming.VoiceAssistant.HandleTranscriptEvent | sonic_test/voice_streaming.py:78-90 | the transcript queue grows by the stripped non-empty first alternatives of the final results, in order; nothing else changes |
| Debounce.Utterance | tools/flow_utils.py:141-146 | an utterance is made exactly when the buffer is not empty |
| Debounce.UtteranceOfFragments | live_transcriber/live_transcriber.py:118-122 | for fragments from the filter, the utterance is the fragments in order joined by single spaces |
| Debounce.FragmentBuffer.constructor | tools/flow_utils.py:54-55 | empty buffer and no timer |
| Debounce.FragmentBuffer.OnFragment | tools/flow_utils.py:119-125 | the fragment is appended; every earlier timer has stopped and the new timer is the only one held and running (the same loop body is at live_transcriber/live_transcriber.py:98-104) |
| Debounce.FragmentBuffer.Listen | tools/flow_utils.py:117-125 | all fragments are buffered in arrival order, and only the newest timer is still running |
| Debounce.FragmentBuffer.TakeUtterance | tools/flow_utils.py:141-146 | the utterance of the old buffer is returned and the buffer is cleared |
| Debounce.FragmentBuffer.Finish | tools/flow_utils.py:133-138 | the timer stops running; buffer and held timer are untouched |
| FlowUtils.ClassifyIntent | tools/flow_utils.py:60-73 | a failed call is IGNORE; otherwise the result is the reply with its whitespace-only ends cut off, each character upper-cased: stripped, with no lower-case ASCII letter |
| FlowUtils.PaddedIntent | tools/flow_utils.py:69 | an intent word in any ASCII case, with any whitespace around it, classifies as that intent |
| FlowUtils.UpperOfStrip | tools/flow_utils.py:69 | the stripped, upper-cased reply is the reply's whitespace-trimmed slice with each character upper-cased, has no whitespace at either end and no lower-case ASCII letter |
| FlowUtils.AfterCancelCurrent | tools/flow_utils.py:98-102 | the handle is always cleared; the held task is no longer running and keeps its work; nothing else changes |
| FlowUtils.Dispatch | tools/flow_utils.py:152-190 | START sets the flag and touches no task; STOP clears the flag and cancels only if it was active; INTERRUPT cancels only when active and running; COMMAND in standby and unknown intents change nothing; COMMAND when active replaces the command; the session invariant is kept |
| FlowUtils.RunKeepsInvariant | tools/flow_utils.py:141-190 | any run keeps at most one command running, the current one, and none in standby |
| FlowUtils.StandbyIgnoresAllButStart | tools/flow_utils.py:152-190 | in standby, utterances none of which is START change nothing |
| FlowUtils.LiveTranscriber.constructor | tools/flow_utils.py:49-57 | empty buffer, no timer, standby, no command held |
| FlowUtils.LiveTranscriber.CancelCurrent | tools/flow_utils.py:98-102 | the state becomes that of the cancel step |
| FlowUtils.LiveTranscriber.FlushBuffer | tools/flow_utils.py:141-190 | an empty buffer changes nothing; otherwise the buffer is cleared before the utterance is classified and dispatched; the invariant is kept |
| FlowUtils.LiveTranscriber.ActOnIntent | tools/flow_utils.py:152-190 | the new state is the dispatch of the intent, and the invariant is kept |
| FlowUtils.LiveTranscriber.TimerFires | tools/flow_utils.py:133-138 | a cancelled timer does nothing; the held running one flushes the buffer and stops; with nothing buffered the session is unchanged |
| Live.ClassifyIntent | live_transcriber/live_transcriber.py:46-55 | the result is the piece of the reply left once its whitespace-only ends are cut off, with its characters and case kept; a stripped reply is returned as is |
| Live.PaddedReply | live_transcriber/live_transcriber.py:55 | whitespace around a stripped reply is dropped and nothing else changes |
| Live.LowerCaseReplyDiffers | live_transcriber/live_transcriber.py:46-55 | the reply " start " is START for the tools/flow_utils.py transcriber and the unmatched "start" here |
| Live.AfterCancelCurrent | live_transcriber/live_transcriber.py:76-81 | only a running task is cancelled, and only then is the handle cleared; otherwise nothing changes |
| Live.Dispatch | live_transcriber/live_transcriber.py:130-157 | START sets the flag; STOP clears it and cancels a running task whatever the state; INTERRUPT and COMMAND act only when active; everything else changes nothing; the session invariant is kept |
| Live.RunKeepsInvariant | live_transcriber/live_transcriber.py:118-157 | any run keeps at most one command running, the current one, and none in standby |
| Live.StandbyIgnoresAllButStart | live_transcriber/live_transcriber.py:136-140 | in standby, utterances none of which is START change nothing, because nothing runs in standby |
| Live.VariantsAgree | live_transcriber/live_transcriber.py:76-81 | for the same intents, both `LiveTranscriber`s start and cancel the same command tasks and keep the same flag |
| Live.FinishedHandleKept | live_transcriber/live_transcriber.py:76-81 | STOP after the command finished keeps its handle here and clears it in tools/flow_utils.py |
| Live.LiveTranscriber.constructor | live_transcriber/live_transcriber.py:37-44 | empty buffer, no timer, standby, no command held |
| Live.LiveTranscriber.CancelCurrent | live_transcriber/live_transcriber.py:76-81 | the state becomes that of the cancel step |
| Live.LiveTranscriber.FlushBuffer | live_transcriber/live_transcriber.py:118-157 | an empty buffer changes nothing; otherwise the buffer is cleared; a classifier failure escapes with the session unchanged, and a reply is dispatched |
| Live.LiveTranscriber.ActOnIntent | live_transcriber/live_transcriber.py:130-157 | the new state is the dispatch of the intent, and the invariant is kept |
| Live.LiveTranscriber.TimerFires | live_transcriber/live_transcriber.py:111-116 | a cancelled timer does nothing; the running one flushes; with nothing buffered or when the classifier raises (the exception escapes the timer) the session is unchanged, and otherwise the session is the dispatch of the classified intent for the flushed utterance |
| PyStr.StripSpec | stt/stt.py:24 | `strip` yields the slice of its input left once whitespace-only ends are cut off; it has no whitespace at either end, is empty iff the input is all whitespace, and a stripped string is left alone |
| PyStr.StripPadded | stt/stt.py:24 | `strip` of a stripped string padded with whitespace on both sides gives that string back |
| PyStr.JoinOfStrippedIsStripped | tools/flow_utils.py:145 | stripping the join of non-empty stripped fragments changes nothing |
| PyStr.Upper | tools/flow_utils.py:69 | each character is upper-cased and the length is kept |
| PyStr.UpperCharSpace | tools/flow_utils.py:69 | upper-casing a character never turns it into or out of whitespace and leaves no lower-case ASCII letter |
| PyStr.FindSpec | task_classification/task_classification.py:64-65 | `find` is -1 iff the pattern is absent, and is otherwise the first index where it occurs |
| PyStr.FindIs | task_classification/task_classification.py:64-65 | an occurrence with none before it is what `find` returns |
| RetryUtils.Geometric | tools/retry_utils.py:41-42 | the number of delays asked for |
| RetryUtils.GeometricAt | tools/retry_utils.py:41-42 | the pause before attempt `i + 1` is `delay * backoff ** i` |
| RetryUtils.From | tools/retry_utils.py:31-42 | from attempt k with n tries left: no call when n <= 0, otherwise 1 to n calls, all but the last raising a caught exception; the last call's outcome is the result; a caught failure is re-raised only when all n raised; the pauses are geometric, one fewer than the calls |
| RetryUtils.Retry | tools/retry_utils.py:27-44 | `retries <= 0` returns None with no call; otherwise 1 to `retries` calls; a re-raised caught failure uses all of them |
| RetryUtils.FirstSuccessWins | tools/retry_utils.py:32-36 | the first attempt that returns gives the result, and no further call is made |
| RetryUtils.RetryExhausted | tools/retry_utils.py:35-42 | `retries` caught failures re-raise the last after `retries - 1` geometric pauses |
| RetryUtils.RetrySucceedsAt | tools/retry_utils.py:31-42 | success at attempt m: m + 1 calls and m geometric pauses |
| RetryUtils.RetryLoop | tools/retry_utils.py:8-44 | the `retry_sync` wrapper loop, and the identical loop of `retry_async`, compute exactly the result, calls and pauses of `retry` |
| TaskClassification.PySlice | task_classification/task_classification.py:68 | an empty slice once the end is not after the start, and the plain slice inside the string |
| TaskClassification.Tagged | task_classification/task_classification.py:61-68 | the slice between the tags is never longer than the reply |
| TaskClassification.ParseTag | task_classification/task_classification.py:61-68 | the result is stripped and no longer than the reply |
| TaskClassification.ParseTagMissing | task_classification/task_classification.py:64-67 | a missing `<tag>` or `</tag>` gives `""` |
| TaskClassification.ClosingFirstGivesEmpty | task_classification/task_classification.py:68 | a first `</tag>` before the end of the first `<tag>` gives `""` |
| TaskClassification.ParseTagOfTagged | task_classification/task_classification.py:68 | the result is the slice stripped |
| TaskClassification.TaggedAt | task_classification/task_classification.py:64-68 | where the tags are found decides the slice |
| TaskClassification.FindOpenAfter | task_classification/task_classification.py:64 | the first `<tag>` after a prefix without one is found right after it |
| TaskClassification.FindCloseAfter | task_classification/task_classification.py:65 | the first `</tag>` of a framed text is the one closing the frame |
| TaskClassification.OpenFoundAt | task_classification/task_classification.py:64 | `find` locates the framing `<tag>` |
| TaskClassification.TaggedIn | task_classification/task_classification.py:61-68 | the slice of `pre + <tag> + s + </tag> + rest` is `s` |
| TaskClassification.ParseTagIn | task_classification/task_classification.py:61-68 | a tagged part anywhere in the reply is returned stripped |
| TaskClassification.ParseTagFramed | task_classification/task_classification.py:61-68 | round trip: parsing `<tag>` + s + `</tag>` gives s stripped when s has no `</tag>` |
| TaskClassification.ClassifyTask | task_classification/task_classification.py:94-97 | both parts are stripped |
| TaskClassification.ClassifyWellFormedReply | task_classification/task_classification.py:94-97 | a reply in the requested format yields its class and explanation, stripped |
| Rag.TemplateLacksAngle | rag_chat/rag.py:30-40 | the fixed text of the template contains no `<` |
| Rag.PromptFramesContexts | rag_chat/rag.py:29-40 | the `<context>` part of the prompt is the contexts joined by newlines, on a line of their own |
| Rag.PromptFramesQuestion | rag_chat/rag.py:29-40 | the `<question>` part of the prompt, after the contexts, is the query on a line of its own |
| Rag.AttemptsSpec | rag_chat/rag.py:77-87 | `converse` is called again exactly while it raises `ClientError` and attempts remain, with doubling pauses; the call that ends the loop decides the outcome and the history |
| Rag.AttemptsCalls | rag_chat/rag.py:77-84 | between one and the remaining number of calls, all but the last raising `ClientError` |
| Rag.AttemptsSleeps | rag_chat/rag.py:85-87 | the pauses double from `initial_delay * 2 ** attempt`, one fewer than the calls |
| Rag.AttemptsEnd | rag_chat/rag.py:78-84 | a reply is appended and its first text returned, or an `IndexError` raised if it has none; an exception escapes with the history unchanged |
| Rag.RunAnswer | rag_chat/rag.py:68-87 | the user message for the built prompt is appended before any call; at most five calls; an answer is the first text of the reply appended after it; a final `ClientError` leaves the user message unanswered |
| Rag.AnswerGivesUp | rag_chat/rag.py:82-84 | `answer` re-raises `ClientError` iff all five calls raised it |
| Rag.AnswerBackoff | rag_chat/rag.py:85-87 | the pause after failed attempt i is `initial_delay * 2 ** i` |
| Rag.OtherErrorNotRetried | rag_chat/rag.py:78-82 | another exception escapes from the first call, with no retry |
| Rag.RAGPipeline.constructor | rag_chat/rag.py:63-66 | the history starts empty |
| Rag.RAGPipeline.Answer | rag_chat/rag.py:68-87 | the history, outcome, calls and pauses are those of `answer` run on the previous history, which persists across calls |
| Cache.LeastUsed | cache_tools/cache.py:56-57 | the first slot of least usage |
| Cache.InsertByUsage | cache_tools/cache.py:56 | inserting adds exactly the slot |
| Cache.InsertSorted | cache_tools/cache.py:56 | inserting into a usage-sorted list keeps it sorted |
| Cache.SortByUsage | cache_tools/cache.py:56 | the sort is a permutation, sorted by usage, whose head is the earliest least-used slot |
| Cache.SortByUsageHead | cache_tools/cache.py:56-57 | the slot the sort puts first, which `pop(0)` evicts, is the earliest of the least used |
| Cache.InsertByUsageStable | cache_tools/cache.py:56 | inserting a slot passes only slots of lower usage, so the slots of each usage keep their order |
| Cache.SortByUsageStable | cache_tools/cache.py:56 | the sort is stable: for every usage, the slots with that usage are in the same order before and after, which decides the order of later evictions |
| Cache.Added | cache_tools/cache.py:53-58 | below the bound the new slot, with usage 0, is appended; at the bound exactly one least-used slot makes way and the length is kept; `pop(0)` on an empty cache raises iff the bound is at most 0 |
| Cache.EvictionKeepsUsageOrder | cache_tools/cache.py:55-58 | after an eviction the surviving slots are in usage order |
| Cache.AddedKeepsBound | cache_tools/cache.py:53-58 | with a bound of at least 1, adding never fails and never exceeds the bound |
| Cache.Top | cache_tools/cache.py:65-69 | the highest-scoring slot, ties going to the later index |
| Cache.Lookup | cache_tools/cache.py:60-74 | a hit reaches the threshold, has the highest score, and scores strictly above every later slot, so ties go to the later slot; there is no hit iff the cache is empty, `[:k]` keeps nothing, or no slot reaches the threshold |
| Cache.LaterDuplicateServed | cache_tools/cache.py:65-85 | of two slots for the same query, as left by an empty cached response that was generated again, the earlier one is never served |
| Cache.QueryStep | cache_tools/cache.py:60-74 | a hit returns the chosen slot's response and counts one use of that slot and no other; a miss changes nothing |
| Cache.Respond | cache_tools/cache.py:76-85 | a non-empty cached response is served without calling the generator; otherwise the generator's answer is cached last and served; each answer is logged once |
| Cache.RespondKeepsBound | cache_tools/cache.py:53-85 | with a bound of at least 1 every call answers, logs exactly one pair, and keeps the cache within the bound |
| Cache.InMemorySemanticCache.constructor | cache_tools/cache.py:32-37 | empty cache and log |
| Cache.InMemorySemanticCache.AddToCache | cache_tools/cache.py:53-58 | the cache becomes that of the add step, and the log is unchanged |
| Cache.InMemorySemanticCache.QueryCache | cache_tools/cache.py:60-74 | the best slot is found by a scan and served per the lookup step |
| Cache.InMemorySemanticCache.GetOrGenerateResponse | cache_tools/cache.py:76-85 | the state and answer are those of the respond step |
| Chunking.ChunksCover | app2.py:871-872 | the chunks concatenate to the data, and every one is full except a shorter last |
| VoiceStreaming.Initial | sonic_test/voice_streaming.py:95-102 | empty queues and not speaking |
| VoiceStreaming.Started | sonic_test/voice_streaming.py:104-123 | three running service tasks are added; nothing else changes |
| VoiceStreaming.AfterBargeIn | sonic_test/voice_streaming.py:227-242 | nothing happens unless speaking; when speaking, the Polly task is cancelled iff it exists and has not finished (otherwise no task changes), the audio queue is emptied and the flag reset |
| VoiceStreaming.Turn | sonic_test/voice_streaming.py:216-294 | one transcript is taken and barge-in runs; a failed, empty or stopped reply creates no Polly task; otherwise one Polly task runs to its end and queues the reply's audio; the flag is false afterwards |
| VoiceStreaming.CancelAllSpec | sonic_test/voice_streaming.py:141-147 | after the cancel loop each listed task that was running is cancelled, a task that had already finished keeps its state, and every task not listed is unchanged |
| VoiceStreaming.ToCancel | sonic_test/voice_streaming.py:133-139 | the three services, then the Polly task if it has not finished |
| VoiceStreaming.AfterStop | sonic_test/voice_streaming.py:127-155 | the stop event is set; on a started assistant both queues are empty; before `start`, `stop` raises once the event is set and nothing else changes |
| VoiceStreaming.StopEndsEverything | sonic_test/voice_streaming.py:127-147 | after `stop` no service task is still running, and after a `stop` that does not raise no Polly task either |
| VoiceStreaming.Next | sonic_test/voice_streaming.py:216-294 | no event turns the speaking flag on outside the Polly task; transcripts and turns arrive only between `start` and `stop` |
| VoiceStreaming.NeverSpeakingBetweenTurns | sonic_test/voice_streaming.py:229-242 | from a quiet state, the flag is false whenever the pipeline looks at it, so the barge-in block never runs |
| VoiceStreaming.StaleAudioSurvivesBargeIn | sonic_test/voice_streaming.py:229-242 | a reply's audio still queued when the next utterance arrives is not silenced |
| VoiceStreaming.AfterBargeInIntended | sonic_test/voice_streaming.py:227-242 | intended barge-in: pending speech is cancelled and the audio queue emptied |
| VoiceStreaming.TurnIntended | sonic_test/voice_streaming.py:216-294 | a turn with the intended barge-in takes one transcript and ends not speaking |
| VoiceStreaming.IntendedTurnSilencesEarlierReplies | sonic_test/voice_streaming.py:227-242 | with the intended barge-in, after a turn the audio queue holds only this turn's speech |
| VoiceStreaming.IntendedAgreesWhenQuiet | sonic_test/voice_streaming.py:227-242 | the intended turn differs from the written one only while earlier speech is pending |
| VoiceStreaming.VoiceAssistant.constructor | sonic_test/voice_streaming.py:95-102 | the initial state |
| VoiceStreaming.VoiceAssistant.Start | sonic_test/voice_streaming.py:104-123 | the state after `start` |
| VoiceStreaming.VoiceAssistant.DrainAudio | sonic_test/voice_streaming.py:153-155 | the audio queue is emptied and nothing else changes |
| VoiceStreaming.VoiceAssistant.DrainTranscripts | sonic_test/voice_streaming.py:150-152 | the transcript queue is emptied and nothing else changes |
| VoiceStreaming.VoiceAssistant.BargeIn | sonic_test/voice_streaming.py:229-242 | the state after the barge-in block |
| VoiceStreaming.VoiceAssistant.SynthesizeAndQueueAudio | sonic_test/voice_streaming.py:315-377 | the audio read is queued, the task ends, and the speaking flag is false on exit |
| VoiceStreaming.VoiceAssistant.PipelineTurn | sonic_test/voice_streaming.py:216-294 | the state after one pipeline turn |
| VoiceStreaming.VoiceAssistant.BargeInIntended | sonic_test/voice_streaming.py:227-242 | the state after the intended barge-in |
| VoiceStreaming.VoiceAssistant.PipelineTurnIntended | sonic_test/voice_streaming.py:216-294 | the state after a pipeline turn with the intended barge-in |
| VoiceStreaming.VoiceAssistant.Stop | sonic_test/voice_streaming.py:127-155 | the state after `stop`, and whether it raised: exactly when `start` never created the service tasks |

## Left out

- Concurrency: asyncio scheduling, threads and the `threading.Lock` sections are not modelled. Each lock section, and each synchronous stretch between awaits, is one atomic step. A task finishing is a separate event (`CommandFinishes`, `Finish`, `Complete`).
- Time: `asyncio.sleep` and `time.sleep` are recorded as the sequence of pauses, as reals. Float rounding of `delay * backoff` is not modelled.
- The log line of `run_transcriber` announces a two-second wait; the code sleeps one second, which is what `App.RETRY_PAUSE` holds.
- Cloud calls: Bedrock, Polly, Transcribe and S3 are not modelled, nor are `Retriever.retrieve`, `ConversationalModel.converse` and the embedding call. Their results are inputs: the reply of each attempt, the texts of a converse reply, the chunks a synthesis reads.
- Socket.IO emits, status strings, animations, the Flask routes and the HTML page are not modelled. So the status that `interrupted` selects in app2.py is only the flag.
- Audio: microphone and speaker streaming, `_run_audio_playback`, the Polly reader thread's own loop, ffmpeg conversion, temporary files and `delete_audio` / `get_audio` are not modelled.
- voice_streaming.py never imports `time`, so the Polly reader thread raises `NameError` at its `time.sleep` (line 355) just after queueing its first chunk, and its handler (line 357) ends the read. So each reply queues at most one 1024-byte chunk. The `chunks` input of a turn allows any number of chunks, which covers more than the code can produce.
- `handle_text` (the per-command pipeline) is not modelled, except its audio URL. A command task is only its text and its state.
- The `'localhost:5000'` default of `app.config.get('SERVER_NAME', ...)` in app_ngrok.py is never used: Flask's default configuration already holds `SERVER_NAME` as `None`. So an unset name raises `AttributeError` at `.startswith`, which `ConfiguredAudioUrl` models as `None`.
- The streaming Bedrock reply of voice_streaming.py is given as a whole text. A reply cut short by the stop event is covered by the stop-event skip.
- Errors caught by the pipeline's generic handlers, and their one-second pauses, are not modelled. A failed model call skips speech.
- `cosine_similarity` and embeddings are not modelled: similarity is a function from a slot's query to a real. `create_date`, `ttl` and `save_session_to_txt_and_upload` are not modelled.
- PyStr.Upper: upper-cases ASCII letters only; Unicode case mapping (for example `ß` to `SS`) is not modelled.
- PyStr.StripSpec: whitespace is the set `str.isspace` accepts among the characters modelled; Unicode normalisation is not modelled.
- Cache.InMemorySemanticCache.QueryCache: the sorted `scored_entries` list is represented by its best entry. Only that entry is ever served, since entries after the first below the threshold are lower still.
- Cache slots are values in a sequence. The Python objects are not shared, so no aliasing is lost.
- `RetryUtils`: only an integer `retries` is modelled. A non-integer one never reaches 0 in the loop, so it can sleep after the last call and return None. The `exceptions` tuple is represented by whether each raised exception is caught.
- `run_transcriber` creates a new `LiveTranscriber` per attempt; the attempt is modelled only by whether `start()` returned.
- An exception escaping a transcript handler ends the event, as `raised`. Its effect on the Transcribe stream (`process_audio_file` catches it in app_ngrok.py) is not modelled.
- `Rag.RunAnswer`: each `converse` reply is modelled as the texts of its content blocks, and a missing `text` key is not modelled.
- The `build_prompt` instruction lines are the template's own words; no other formatting detail of the f-string is dropped.

## Findings

| source | as written | input that shows it | evidently intended | confidence | as-written member | corrected member |
|---|---|---|---|---|---|---|
| sonic_test/voice_streaming.py:229-242 | barge-in runs only when `is_assistant_speaking` is true, but the flag is set and reset inside the Polly task that the pipeline awaits, so the pipeline always finds it false | start; hear "hello"; reply "hi", which queues one audio chunk; hear "stop" while that chunk is still queued: the next turn leaves the chunk in the audio queue | a new utterance interrupts any pending speech of the previous reply, as the comment on the block says | high, not executed | VoiceStreaming.StaleAudioSurvivesBargeIn | VoiceStreaming.IntendedTurnSilencesEarlierReplies |
