# xiaozhi-server connection core, modelled in Dafny

This project models the per-connection logic of the xiaozhi voice server
(`core/connection.py`, class `ConnectionHandler`) and its speaker-recognition
client (`core/utils/voiceprint_provider.py`, class `VoiceprintProvider`),
and proves what that logic promises.

- **Segmenter** (`segmenter.dfy`). The model's streamed answer is cut into
  speakable segments at the right-most sentence terminator. A digit before
  the last `.` suppresses every later mark of the scan (the "decimal quirk").
  `_process_text_segment` also forces a 10-character cut. A watermark
  `processed_chars` and a 1-based `text_index` advance, and the remainder is
  flushed after the stream. Proved: the cut is the right-most terminator, or
  only `。` under the quirk; the segments are numbered 1, 2, …; and the raw
  segments followed by the remainder rebuild the whole text.
- **Synthesis to playback** (`synthesis.dfy`). Queued `(job, index)` pairs
  become playback items strictly in order, one per job. A timeout or failure
  still yields an item, without audio. The first and last spoken index of a
  turn are tracked.
- **Dialogue and tool results** (`dialogue.dfy`). This covers the tool round
  trip appended for a `REQLLM` result and the reply spoken for the other
  actions. It also covers how an MCP tool's result is normalised: the last
  text item wins, and failures become fixed texts.
- **Session** (`session.dfy`). `ConnectionHandler` is a class whose methods
  update the dialogue, the queues and the flags:
  - `chat`, with its loop over the stream;
  - `_handle_function_result`;
  - one pass, and a run of passes, of `_tts_priority_thread`;
  - `clear_queues` and the state `close` changes;
  - the idle watchdog `_check_timeout`;
  - the overlay of a device's private configuration
    (`_initialize_private_config`).

  Each method is proved against the specification functions of the modules
  above.
- **Private configuration** (`privateconfig.dfy`). The overlay is a function,
  proved to take every given provider section together with its selection,
  to keep everything else, and to raise exactly when a selection is missing
  or `int()` fails.
- **Lifecycle** (`lifecycle.dfy`). This covers the watchdog's budget
  (`close_connection_no_voice_time`, default 120, plus 60 seconds), its
  expiry test, and the client address taken from `x-real-ip` /
  `x-forwarded-for`.
- **Voiceprint** (`voiceprint.dfy`). The provider's constructor derives
  `enabled`, `api_url`, `api_key` and `speaker_ids`. `_parse_speakers` builds
  the id → speaker map, where a later duplicate wins. The answer of
  `identify_speaker` is mapped to a name.
- **Support** (`text.dfy`, `config.dfy`, `wrappers.dfy`). These model the
  Python built-ins the core relies on: `str.find`, `rfind`, `strip`,
  `split(sep, maxsplit)`, `isdigit`, `dict.get`, truthiness and `int()`.

Foreign code is passed in as parameters:

- `get_string_no_punctuation_or_emoji` is the parameter `clean`;
- the language model's stream is an `Answer`, its chunks followed by either
  the end or a raise, or `None` when the call itself raises;
- a synthesis result is `Completed` with the file it named, `TimedOut` or
  `Failed`;
- `urlparse`/`parse_qs` and `json.loads` are functions given as parameters;
- fresh `uuid`s and clock readings are parameters too.

## Model

| member | source | states |
|---|---|---|
| `Text.Find` | main/xiaozhi-server/core/connection.py:200 | `str.find`: -1 exactly when the character is absent, otherwise its left-most position |
| `Text.RFind` | main/xiaozhi-server/core/connection.py:741 | `str.rfind`: -1 exactly when absent, otherwise the right-most position |
| `Text.Strip` | main/xiaozhi-server/core/connection.py:200 | `str.strip()` leaves no whitespace at either end |
| `Text.StripIsInnerSlice` | main/xiaozhi-server/core/connection.py:200 | strip removes exactly a leading and a trailing run of whitespace and keeps the slice between them |
| `Text.StripKeepsTrimmed` | main/xiaozhi-server/core/connection.py:200 | a string with no whitespace at its ends is its own strip |
| `Text.StripKeepsAbsent` | main/xiaozhi-server/core/connection.py:200 | stripping never introduces a character (a comma-free address stays comma-free) |
| `Text.FirstField` | main/xiaozhi-server/core/connection.py:200 | `s.split(sep)[0]` holds no separator and is either the whole string or the prefix before the first separator |
| `Text.SplitN` | main/xiaozhi-server/core/utils/voiceprint_provider.py:66 | `split(sep, maxsplit)` gives between 1 and `maxsplit + 1` fields |
| `Text.SplitNJoins` | main/xiaozhi-server/core/utils/voiceprint_provider.py:66 | joining the fields of `split(sep, maxsplit)` with `sep` gives back the string |
| `Text.SplitNFirst` | main/xiaozhi-server/core/utils/voiceprint_provider.py:48-50 | the first field of a split with splits allowed is the text before the first separator |
| `Config.Get` | main/xiaozhi-server/core/connection.py:88 | `dict.get(key, default)`: the entry when present, otherwise the default |
| `Config.Truthy` | main/xiaozhi-server/core/connection.py:480 | Python truthiness: None is false, a boolean is itself, and a string, integer or dictionary is true exactly when non-empty or non-zero |
| `Config.AsInt` | main/xiaozhi-server/core/connection.py:543 | `int()` of an integer is itself, of a boolean 0 or 1, and raises for None and dictionaries |
| `Config.Numeral` | main/xiaozhi-server/core/connection.py:165 | the decimal numeral of a natural number is a non-empty digit string |
| `Config.NumeralRoundTrip` | main/xiaozhi-server/core/connection.py:165 | reading a numeral's digits back gives the number |
| `Config.IntOfNumeral` | main/xiaozhi-server/core/connection.py:165 | `int()` of a decimal numeral text is its value |
| `Config.IntOfNegativeNumeral` | main/xiaozhi-server/core/connection.py:543 | `int()` of `-` followed by a numeral is the negated value |
| `Lifecycle.TimeoutSeconds` | main/xiaozhi-server/core/connection.py:164-166 | the budget is 180 seconds without a configured limit; it exists exactly when `int()` accepts the configured limit, and is that limit plus 60 |
| `Lifecycle.IdleExpiryMonotone` | main/xiaozhi-server/core/connection.py:1313-1317 | expiry needs a recorded activity time and more than the budget elapsed; once expired, a later clock stays expired, and a later activity time only postpones it |
| `Lifecycle.ClientIp` | main/xiaozhi-server/core/connection.py:196-202 | without a non-empty forwarding header the socket's address is used; otherwise the stripped text before the first comma of `x-real-ip` when it is non-empty, else of `x-forwarded-for`, which holds no comma and no outer whitespace |
| `Lifecycle.ClientIpTakesFirstHop` | main/xiaozhi-server/core/connection.py:196-200 | with a chosen header `hop,rest…` (`x-real-ip` first) the address is the stripped first hop, and the hop itself when it is already trimmed |
| `Lifecycle.ClientIpOfOneAddress` | main/xiaozhi-server/core/connection.py:196-200 | a chosen header holding one address without a comma gives that address, stripped |
| `Segmenter.LastTerminator` | main/xiaozhi-server/core/connection.py:639-650 | a found position holds a sentence terminator |
| `Segmenter.FindSplit` | main/xiaozhi-server/core/connection.py:639-650 | the split point the scan finds is a terminator position of the text |
| `Segmenter.LastPunctuation` | main/xiaozhi-server/core/connection.py:737-747 | the loop over the marks computes `FindSplit` (-1 when none) |
| `Segmenter.ScanBounds` | main/xiaozhi-server/core/connection.py:639-650 | every prefix of the scan keeps -1 or a terminator position |
| `Segmenter.ScanIsMaximum` | main/xiaozhi-server/core/connection.py:639-650 | without the decimal quirk the scan is the maximum `rfind` over the marks and the flag stays set |
| `Segmenter.MaxRFindBounds` | main/xiaozhi-server/core/connection.py:639-650 | that maximum is a terminator position with none of the visited marks after it |
| `Segmenter.ScanUnderQuirk` | main/xiaozhi-server/core/connection.py:639-650 | under the decimal quirk only `。` can be chosen and the flag stays cleared |
| `Segmenter.LastTerminatorIsRightmost` | main/xiaozhi-server/core/connection.py:639-650 | no terminator found iff the text has none; a found one has no terminator after it |
| `Segmenter.ScanFindsSplit` | main/xiaozhi-server/core/connection.py:639-650 | the source's scan equals `FindSplit` in both the quirk and the plain case |
| `Segmenter.SegmentStep` | main/xiaozhi-server/core/connection.py:652-676 | a step never consumes more than the unprocessed text |
| `Segmenter.SegmentStepEmits` | main/xiaozhi-server/core/connection.py:652-676 | an emitted segment is a non-empty prefix whose cleaned text is non-empty and takes `text_index + 1`; otherwise nothing is consumed and the index stays |
| `Segmenter.SegmentStepCuts` | main/xiaozhi-server/core/connection.py:652-676 | a terminator cuts `pos + 1` characters when they clean to something; without one a forced step cuts exactly 10 characters of a longer text; otherwise the step is `(0, text_index)` |
| `Segmenter.Feed` | main/xiaozhi-server/core/connection.py:727-763 | one chunk extends the text by the chunk; the watermark only grows and stays inside the text |
| `Segmenter.FeedAll` | main/xiaozhi-server/core/connection.py:727-763 | the watermark stays inside the text received |
| `Segmenter.Streamed` | main/xiaozhi-server/core/connection.py:727-763 | the same after an abort |
| `Segmenter.FlushedSegments` | main/xiaozhi-server/core/connection.py:766-776 | the flush adds the final segment when there is one, and nothing otherwise |
| `Segmenter.Flush` | main/xiaozhi-server/core/connection.py:766-776 | the flush appends exactly the flushed segments |
| `Segmenter.StepKeepsConsistent` | main/xiaozhi-server/core/connection.py:750-763 | a step shaped as the segmenter's keeps raw segments = text before the watermark and the numbering 1, 2, … |
| `Segmenter.FeedKeepsConsistent` | main/xiaozhi-server/core/connection.py:727-763 | each chunk preserves that invariant, keeps the earlier segments, and adds at most one |
| `Segmenter.FeedAllConsistent` | main/xiaozhi-server/core/connection.py:727-763 | the invariant holds after the loop, whose text is the concatenation of the chunks |
| `Segmenter.FlushCompletes` | main/xiaozhi-server/core/connection.py:766-776 | consumed raw segments followed by the remainder are the whole text; a final segment makes the raw segments cover it |
| `Segmenter.SegmentsCoverStream` | main/xiaozhi-server/core/connection.py:727-776 | for a whole answer: the invariant, the coverage, and the text (only the first chunk after an abort) |
| `Segmenter.InterruptionLosesOnlyTheFlush` | main/xiaozhi-server/core/connection.py:727-779 | a stream that raises after its chunks queues the segments of the same stream ending normally, less at most the final one, still numbered 1, 2, … |
| `Dialogue.StoredArguments` | main/xiaozhi-server/core/connection.py:1012 | empty arguments are stored as "{}", others unchanged |
| `Dialogue.ToolRoundTrip` | main/xiaozhi-server/core/connection.py:1003-1030 | exactly two messages: the assistant's tool call, then the tool's answer with the result text and the call's id or a fresh one |
| `Dialogue.ToolAnswerMatchesCall` | main/xiaozhi-server/core/connection.py:1003-1030 | with an id, the tool answer refers to the call it answers |
| `Dialogue.Reply` | main/xiaozhi-server/core/connection.py:992-1039 | `RESPONSE` speaks the response, `NOTFOUND`/`ERROR` the result text, other actions nothing |
| `Dialogue.ReplyIsLostAsWritten` | main/xiaozhi-server/core/connection.py:992-997 | as written, every result that should be spoken raises instead |
| `Dialogue.LastTextIsLatest` | main/xiaozhi-server/core/connection.py:970-978 | the content text is "" without text items, otherwise the text of the last one |
| `Dialogue.LastTextContent` | main/xiaozhi-server/core/connection.py:970-978 | the loop over the content items computes that text |
| `Dialogue.HandleMcpToolCall` | main/xiaozhi-server/core/connection.py:950-990 | always `REQLLM` with a non-empty result: unparsable arguments, a raised call, or a result without text give the fixed messages, else the last text |
| `Synthesis.Jobs` | main/xiaozhi-server/core/connection.py:757-776 | one queued job per segment |
| `Synthesis.PlaybackItem` | main/xiaozhi-server/core/connection.py:1057-1091 | the item keeps the job's index; a completed synthesis hands on the job's own text, with the decoded frames exactly when the text is non-empty and the file exists, and empty audio otherwise; a timeout or failure gives empty audio and no text |
| `Synthesis.Playback` | main/xiaozhi-server/core/connection.py:1041-1097 | one playback item per popped job |
| `Synthesis.PlaybackKeepsOrder` | main/xiaozhi-server/core/connection.py:1041-1097 | the items' indices are the jobs' indices in queue order, item k being the k-th job's |
| `Synthesis.TurnIsPlayedInOrder` | main/xiaozhi-server/core/connection.py:1041-1097 | the segments an answer queues are played as 1, 2, …, strictly increasing, whether the stream ends or raises |
| `Synthesis.NumberedSegmentsPlayInOrder` | main/xiaozhi-server/core/connection.py:1041-1097 | segments numbered 1, 2, … are played in that order |
| `Synthesis.MarkSpokenOfTurn` | main/xiaozhi-server/core/connection.py:1181-1185 | over a turn the first index is the first sentence (or the earlier mark) and the last is the count |
| `Synthesis.MarkSpokenConcat` | main/xiaozhi-server/core/connection.py:1181-1185 | marking two runs one after the other equals marking their concatenation |
| `Synthesis.BareHandleIsNeverPlayed` | main/xiaozhi-server/core/connection.py:1046-1049 | a bare pending result, as the loop of `chat` queues it, is never played and only clears the speak status |
| `PrivateConfig.SelectModule` | main/xiaozhi-server/core/connection.py:506-534 | a given section replaces the section and its selection and nothing else; it raises exactly when a selection is missing |
| `PrivateConfig.CopyIfGiven` | main/xiaozhi-server/core/connection.py:535-541 | a given entry is copied, an absent or null one changes nothing |
| `PrivateConfig.IntIfGiven` | main/xiaozhi-server/core/connection.py:542-545 | a given integer setting is `int()` of the value, otherwise the current one |
| `PrivateConfig.FlagsFor` | main/xiaozhi-server/core/connection.py:496-534 | TTS, LLM, memory and intent are rebuilt exactly when their sections are given; VLLM rebuilds nothing |
| `PrivateConfig.SelectAllTakesGivenSections` | main/xiaozhi-server/core/connection.py:506-534 | a successful overlay takes every given section with its selection, keeps the server's selection otherwise, and leaves other entries alone |
| `PrivateConfig.SelectAllRaisesIffSelectionMissing` | main/xiaozhi-server/core/connection.py:506-534 | the sections raise exactly when a given section has no selection in the device configuration |
| `PrivateConfig.OverlayRaisesIff` | main/xiaozhi-server/core/connection.py:496-545 | the overlay raises exactly for a missing selection or a setting `int()` rejects; an empty device configuration changes nothing |
| `Session.DeviceConfig` | main/xiaozhi-server/core/connection.py:473-494 | a failed fetch overlays nothing; a fetched one gets the server's `delete_audio` as a boolean and keeps its other entries |
| `Session.ConnectionSession.constructor` | main/xiaozhi-server/core/connection.py:68-166 | the initial state: own copy of the configuration, no binding, empty queues and dialogue, listening, watchdog budget from `TimeoutSeconds` |
| `Session.ConnectionSession.RecodeFirstLastText` | main/xiaozhi-server/core/connection.py:1181-1185 | the first index is set once per turn, the last index every time |
| `Session.ConnectionSession.ClearSpeakStatus` | main/xiaozhi-server/core/connection.py:1175-1179 | listening again, both indices reset to -1 |
| `Session.ConnectionSession.Speak` | main/xiaozhi-server/core/connection.py:769-776 | records the index as spoken and appends the `(job, index)` pair |
| `Session.ConnectionSession.SpeakSegment` | main/xiaozhi-server/core/connection.py:636-676 | consumes and numbers as `SegmentStep`, and queues exactly the segment it emits |
| `Session.ConnectionSession.Chat` | main/xiaozhi-server/core/connection.py:678-783 | the depth-0 bookkeeping; `None` from the model leaves the rest unchanged; otherwise every segment of the answer is queued in order, and unless the stream raises the remainder follows, the whole text joins the dialogue and `llm_finish_task` is set |
| `Session.ConnectionSession.OpenTurn` | main/xiaozhi-server/core/connection.py:680-692 | at depth 0 only: a new sentence id, the user's message appended, one FIRST action queued; deeper calls change none of them |
| `Session.ConnectionSession.SpeakAnswer` | main/xiaozhi-server/core/connection.py:725-776 | the loop's segments are queued and marked as spoken, then the flushed one unless the stream raised, which it reports |
| `Session.ConnectionSession.StreamAnswer` | main/xiaozhi-server/core/connection.py:725-763 | the loop ends in the segmenter state `Streamed`, with the text, watermark and index it holds, and all its segments queued |
| `Session.ConnectionSession.StreamChunk` | main/xiaozhi-server/core/connection.py:731-763 | one pass is the segmenter's `Feed` and queues what it emits |
| `Session.ConnectionSession.SpeakRemainder` | main/xiaozhi-server/core/connection.py:766-776 | the remainder is queued exactly as `FlushedSegments` |
| `Session.ConnectionSession.HandleFunctionResult` | main/xiaozhi-server/core/connection.py:992-1039 | a reply is spoken and recorded; `REQLLM` with text appends the round trip then chats one level deeper (a raise of that stream leaves the round trip and the queued segments); anything else changes nothing |
| `Session.ConnectionSession.SpeakReply` | main/xiaozhi-server/core/connection.py:994-997 | one assistant message and one queued pair at the given index |
| `Session.ConnectionSession.AskAgain` | main/xiaozhi-server/core/connection.py:999-1031 | the round trip joins the dialogue before the deeper chat's answer, which is added only when its stream ends; no new sentence id or FIRST marker |
| `Session.ConnectionSession.TtsPriorityStep` | main/xiaozhi-server/core/connection.py:1041-1097 | the oldest pair leaves the queue and yields one playback item unless the client aborted; an empty queue changes nothing |
| `Session.ConnectionSession.DrainTtsQueue` | main/xiaozhi-server/core/connection.py:1041-1097 | the first jobs leave in order and their playback items follow in the same order unless aborted; nothing happens once stopped |
| `Session.ConnectionSession.ClearQueues` | main/xiaozhi-server/core/connection.py:1270-1288 | both queues are empty afterwards; nothing else changes |
| `Session.ConnectionSession.Close` | main/xiaozhi-server/core/connection.py:1212-1217 | the stop event is set and both queues are cleared |
| `Session.ConnectionSession.CheckTimeout` | main/xiaozhi-server/core/connection.py:1308-1336 | with the clock and `last_activity_time` read afresh at each wake-up, the connection stops exactly when some wake-up finds it past the budget, is then closed exactly once, and nothing happens when already stopped |
| `Session.ConnectionSession.InitializePrivateConfig` | main/xiaozhi-server/core/connection.py:468-545 | nothing without `read_config_from_api`; a failed fetch asks to bind (keeping a bind code); it raises exactly when `Overlay` does, else the state is `Overlay`'s result and the rebuild flags are `FlagsFor` |
| `Session.ConnectionSession.ApplyOverlay` | main/xiaozhi-server/core/connection.py:506-545 | the overlay steps in source order compute `Overlay` |
| `Session.ConnectionSession.FetchPrivateConfig` | main/xiaozhi-server/core/connection.py:473-494 | the configuration to overlay is `DeviceConfig`; the binding flags follow the exception |
| `Session.ConnectionSession.ApplyEntries` | main/xiaozhi-server/core/connection.py:535-545 | the plain entries and the two integers as `OverlayEntries` |
| `Session.ConnectionSession.ApplySections` | main/xiaozhi-server/core/connection.py:506-534 | the five sections in source order compute `SelectAll` |
| `Session.ConnectionSession.ApplySection` | main/xiaozhi-server/core/connection.py:506-511 | one section as `SelectModule`; when it raises, the section itself was already copied |
| `Voiceprint.QueryKey` | main/xiaozhi-server/core/utils/voiceprint_provider.py:35 | the key is the first value of the query's `key` when that is non-empty, and "" when the query has no `key` |
| `Voiceprint.SpeakerIdShape` | main/xiaozhi-server/core/utils/voiceprint_provider.py:46-51 | a speaker id has no comma and no outer whitespace |
| `Voiceprint.SpeakerIdOfField` | main/xiaozhi-server/core/utils/voiceprint_provider.py:46-51 | the id of `a,b` is the stripped `a`, whatever `b` is |
| `Voiceprint.SplitTwiceShape` | main/xiaozhi-server/core/utils/voiceprint_provider.py:66-68 | three fields from two splits: the string is `id,name,description`; id and name hold no comma, and the description keeps any further commas |
| `Voiceprint.SplitTwiceCuts` | main/xiaozhi-server/core/utils/voiceprint_provider.py:66 | the two cuts are at the first comma and at the first comma after it |
| `Voiceprint.EntryShape` | main/xiaozhi-server/core/utils/voiceprint_provider.py:63-77 | an entry is made only from three fields, and its id is the string's speaker id |
| `Voiceprint.CollectDomain` | main/xiaozhi-server/core/utils/voiceprint_provider.py:63-77 | an id is in the map exactly when some speaker string defines it |
| `Voiceprint.CollectLastWins` | main/xiaozhi-server/core/utils/voiceprint_provider.py:63-77 | the id maps to the speaker of the last string defining it |
| `Voiceprint.MappedSpeakersAreRequested` | main/xiaozhi-server/core/utils/voiceprint_provider.py:46-77 | every id of the map is among the `speaker_ids` sent to the service |
| `Voiceprint.VoiceprintProvider.constructor` | main/xiaozhi-server/core/utils/voiceprint_provider.py:16-61 | no URL or no key disables it; otherwise the endpoint is `scheme://netloc/voiceprint/identify` and there is one id per speaker string, in order; enabled iff endpoint and some speaker string |
| `Voiceprint.VoiceprintProvider.CollectSpeakerIds` | main/xiaozhi-server/core/utils/voiceprint_provider.py:46-53 | the loop appends the id of every speaker string, in order |
| `Voiceprint.VoiceprintProvider.ParseSpeakers` | main/xiaozhi-server/core/utils/voiceprint_provider.py:63-77 | the loop builds `SpeakerMap` |
| `Voiceprint.VoiceprintProvider.IdentifySpeaker` | main/xiaozhi-server/core/utils/voiceprint_provider.py:79-134 | `None` when inactive, failed or not HTTP 200; on 200 the mapped name of a known non-empty id, else "未知说话人" |
| `Voiceprint.ConfiguredSpeakerIsNamed` | main/xiaozhi-server/core/utils/voiceprint_provider.py:114-116 | an answer naming a configured id gives the name from the last string defining it |

## Left out

- Sockets, threads, the executor and asyncio are left out, and so is the
  sending of audio (`_audio_play_priority_thread`, `sendAudioMessage`). The
  queues are sequences handled in program order. The abort flag and the
  stop event do not change during a call.
- The providers (LLM, TTS, ASR, memory, intent, MCP) are not modelled. The
  memory query and `initialize_modules` are left out, as are
  `check_vad_update` / `check_asr_update` and the provider instances they
  replace. These are foreign calls whose bodies are not part of this model.
  For the same reason the rebuild flags cover TTS, LLM, memory and intent
  only.
- `chat_with_function_calling` is left out because it cannot run as written:
  it has a syntax error near main/xiaozhi-server/core/connection.py:920-924
  and reads an undefined `depth`.
- As written, connection.py does not parse. Besides the syntax error at lines
  920-924, the `try:` that opens `close()` at line 1188 has neither `except`
  nor `finally`. Throughout this model, and under "as written" in the
  findings, the file's behaviour means its behaviour once those two places
  parse.
- Session.ConnectionSession.Chat: the `function_call` intent is not a
  separate path. It reads an undefined `functions` and raises, which is the
  `None` stream.
- Session.ConnectionSession.constructor: the tool and provider fields are
  left out, and so are the report queue and the headers. `tts_first_text_index`
  and `tts_last_text_index` are not set by the source's `__init__`; the model
  starts them at -1, as `clearSpeakStatus` does. The source never assigns
  `last_activity_time` in this file; the model starts it at 0 ("no activity
  recorded").
- Session.ConnectionSession.InitializePrivateConfig: after a raise the state
  is only partly overlaid. The contract does not state that state;
  `ApplySection` states it for one section.
- Session.ConnectionSession.TtsPriorityStep:
  - `None` entries and a `None` future in the queue are not modelled.
  - Decoding the file to PCM or Opus is the `Decoded` frames of the
    synthesis result.
  - Deleting the audio file and reporting are left out.
  - The outer handler's `clearSpeakStatus` is modelled only for the bare
    entry (`ConsumeAsWritten`).
- Session.ConnectionSession.DrainTtsQueue takes one result per job it pops.
  Passes that time out on an empty queue are `TtsPriorityStep` on an empty
  queue.
- Session.ConnectionSession.Close: the rest of `close()` is network and
  provider cleanup.
- Session.ConnectionSession.CheckTimeout: `time.time()` readings are whole
  milliseconds, given as a sequence of wake-ups. The 10-second sleep only
  spaces them. `last_activity_time` is written by message handlers that are
  not part of this model; each wake-up is given its value as read then. The
  field of the class keeps the initial value.
- `get_string_no_punctuation_or_emoji` is the uninterpreted parameter
  `clean`.
- `urlparse`/`parse_qs` are the parameter `parse` of the voiceprint
  constructor.
- `json.loads` is the parameter `parse` of `HandleMcpToolCall`.
- Fresh ids from `uuid` are parameters.
- `Config.AsInt` / `Config.ParseInt`: `int()` of text accepts optional
  whitespace, a sign and ASCII digits. Underscores, non-ASCII digits and
  floats are not modelled. `str.isdigit` in the decimal quirk accepts ASCII
  and full-width digits only.
- Voiceprint:
  - The confidence score and the elapsed time are left out; they are floats
    that only feed logging.
  - A `speakers` value that is not a list of strings is not modelled. The
    loops over it (voiceprint_provider.py:46 and :66) are outside their
    `try` blocks. A value that cannot be iterated therefore raises out of the
    constructor, and the connection then leaves the provider unset. A single
    string is iterated character by character. An entry that is not a
    string raises inside the `try` blocks and is skipped.
  - A `speaker_id` in the answer that is not a string is not modelled.
- Text.SplitN: the contract gives only the number of fields. The fields'
  relation to the separators is stated for two splits by
  `Voiceprint.SplitTwiceShape`, and for the first field by `SplitNFirst` and
  `SplitNJoins`.

## Findings

| source | as written | input that shows it | evidently intended | confidence | as-written member | corrected member |
|---|---|---|---|---|---|---|
| main/xiaozhi-server/core/connection.py:762 | the loop of `chat` (and `_process_text_segment` at lines 661 and 673) queues the bare pending result, but the consumer at line 1049 unpacks `(future, text_index)` | any answer with a terminator, e.g. the chunk `"你好。"`: its segment is queued bare, unpacking raises, and the segment is never played | queue the pair `(future, text_index)`, as the flush at line 776 does | high, not executed | `Synthesis.BareHandleIsNeverPlayed` | `Session.ConnectionSession.SpeakSegment` |
| main/xiaozhi-server/core/connection.py:995 | `_handle_function_result` reads `text_index`, which is defined nowhere in the method, before speaking a `RESPONSE`, `NOTFOUND` or `ERROR` result | `ActionResponse(Action.RESPONSE, None, "好的")`: `NameError`, so nothing is spoken or recorded | speak the reply at a text index of the turn and record it | high, not executed | `Dialogue.ReplyIsLostAsWritten` | `Session.ConnectionSession.HandleFunctionResult` |
