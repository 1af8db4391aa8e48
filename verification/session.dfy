/**
 * One client connection (`core.connection.ConnectionHandler`) as the state
 * its methods update: the dialogue, the synthesis and playback queues, the
 * first and last spoken index of a turn, the stop event and watchdog, and
 * the configuration with the device's private overrides.
 */
module Session {
  import opened Wrappers
  import opened Config
  import opened Segmenter
  import opened Synthesis
  import opened Dialogue
  import opened Lifecycle
  import opened PrivateConfig

  /** A message for the synthesis provider's text queue; `chat` only sends the FIRST action of a sentence. */
  datatype TextMessage = FirstAction(sentenceId: string)

  /** What `get_private_config_from_api` did: returned the device's configuration, or raised one of three ways. */
  datatype FetchOutcome =
    | Fetched(privateConfig: map<string, Value>)
    | DeviceNotFound
    | DeviceBind(bindCode: string)
    | FetchFailed

  /**
   * The device configuration that is overlaid: empty when the fetch raised,
   * otherwise the fetched one with the server's `delete_audio` (default on)
   * added as a boolean.
   */
  function DeviceConfig(fetch: FetchOutcome, config: map<string, Value>): (p: map<string, Value>)
    ensures !fetch.Fetched? ==> p == map[]
    ensures fetch.Fetched? ==>
      && p.Keys == fetch.privateConfig.Keys + {"delete_audio"}
      && p["delete_audio"] == Flag(Truthy(Get(config, "delete_audio", Flag(true))))
      && forall k :: k in fetch.privateConfig && k != "delete_audio" ==> p[k] == fetch.privateConfig[k]
  {
    match fetch
    case Fetched(q) => q["delete_audio" := Flag(Truthy(Get(config, "delete_audio", Flag(true))))]
    case _ => map[]
  }

  /** One wake-up of the watchdog: the clock and `last_activity_time` as it reads them, in milliseconds. */
  datatype Wakeup = Wakeup(now: int, lastActivity: int)

  class ConnectionSession {
    /** The connection's own copy of the server configuration. */
    var config: map<string, Value>
    var readConfigFromApi: bool
    var needBind: bool
    var bindCode: Option<string>
    var maxOutputSize: int
    var chatHistoryConf: int

    /**
     * The watchdog's budget in seconds, and the last activity in milliseconds
     * (0 while none is recorded); the message handlers that move the latter
     * on are not part of this model, so `CheckTimeout` is given its value at
     * each wake-up.
     */
    var timeoutSeconds: int
    var lastActivityTime: int
    /** `stop_event`. */
    var stopped: bool
    /** How many times the connection has been closed. */
    ghost var closeCount: nat

    var clientAbort: bool
    var asrServerReceive: bool
    var llmFinishTask: bool
    var sentenceId: Option<string>
    var dialogue: seq<Message>
    /** The synthesis provider's text queue. */
    var ttsTextQueue: seq<TextMessage>
    var ttsQueue: seq<QueuedJob>
    var audioPlayQueue: seq<PlayItem>
    var ttsFirstTextIndex: int
    var ttsLastTextIndex: int

    /**
     * `ConnectionHandler(config, ...)`: Python raises unless the
     * configuration has `exit_commands` and an integer idle limit.
     */
    constructor(config: map<string, Value>)
      requires "exit_commands" in config
      requires TimeoutSeconds(config).Some?
      ensures this.config == config
      ensures readConfigFromApi == Truthy(Get(config, "read_config_from_api", Flag(false)))
      ensures !needBind && bindCode == None && maxOutputSize == 0 && chatHistoryConf == 0
      ensures timeoutSeconds == TimeoutSeconds(config).value && lastActivityTime == 0
      ensures !stopped && closeCount == 0
      ensures !clientAbort && asrServerReceive && !llmFinishTask && sentenceId == None
      ensures dialogue == [] && ttsTextQueue == [] && ttsQueue == [] && audioPlayQueue == []
      ensures ttsFirstTextIndex == -1 && ttsLastTextIndex == -1
    {
      this.config := config;
      readConfigFromApi := Truthy(Get(config, "read_config_from_api", Flag(false)));
      needBind := false;
      bindCode := None;
      maxOutputSize := 0;
      chatHistoryConf := 0;
      timeoutSeconds := TimeoutSeconds(config).value;
      lastActivityTime := 0;
      stopped := false;
      closeCount := 0;
      clientAbort := false;
      asrServerReceive := true;
      llmFinishTask := false;
      sentenceId := None;
      dialogue := [];
      ttsTextQueue := [];
      ttsQueue := [];
      audioPlayQueue := [];
      ttsFirstTextIndex := -1;
      ttsLastTextIndex := -1;
    }

    // -------------------------------------------------------------------------
    // Speaking status
    // -------------------------------------------------------------------------

    /** `recode_first_last_text`: one step of the `MarkSpoken` fold. */
    method RecodeFirstLastText(index: int)
      modifies this`ttsFirstTextIndex, this`ttsLastTextIndex
      ensures (ttsFirstTextIndex, ttsLastTextIndex) == MarkSpoken(old(ttsFirstTextIndex), old(ttsLastTextIndex), [index])
    {
      assert [index][..0] == [];
      if ttsFirstTextIndex == -1 {
        ttsFirstTextIndex := index;
      }
      ttsLastTextIndex := index;
    }

    /** `clearSpeakStatus`: the server listens again and no sentence of the turn counts as spoken. */
    method ClearSpeakStatus()
      modifies this`asrServerReceive, this`ttsFirstTextIndex, this`ttsLastTextIndex
      ensures asrServerReceive && ttsFirstTextIndex == -1 && ttsLastTextIndex == -1
    {
      asrServerReceive := true;
      ttsLastTextIndex := -1;
      ttsFirstTextIndex := -1;
    }

    /**
     * Record `text` as spoken at `index` and queue its synthesis as the pair
     * `(future, text_index)` the consumer unpacks.
     */
    method Speak(text: string, index: int)
      modifies this`ttsFirstTextIndex, this`ttsLastTextIndex, this`ttsQueue
      ensures ttsQueue == old(ttsQueue) + [QueuedJob(SynthesisJob(text, index), index)]
      ensures (ttsFirstTextIndex, ttsLastTextIndex) == MarkSpoken(old(ttsFirstTextIndex), old(ttsLastTextIndex), [index])
    {
      RecodeFirstLastText(index);
      ttsQueue := ttsQueue + [QueuedJob(SynthesisJob(text, index), index)];
    }

    // -------------------------------------------------------------------------
    // Segmenting the model's answer
    // -------------------------------------------------------------------------

    /**
     * Cut `current` at its last terminator and speak the cleaned cut. This is
     * `_process_text_segment` when `forced` (which also cuts at 10
     * characters when there is no terminator and `current` is longer) and the
     * copy of it inside the loop of `chat` when not. Returns how many
     * characters were consumed and the new `text_index`. (`_process_text_segment`
     * also takes `processed_chars`, which it does not use.)
     */
    method SpeakSegment(current: string, textIndex: nat, forced: bool, clean: string -> string) returns (consumed: nat, newIndex: nat)
      modifies this`ttsFirstTextIndex, this`ttsLastTextIndex, this`ttsQueue
      ensures var step := SegmentStep(current, textIndex, forced, clean);
        && consumed == step.consumed && newIndex == step.index
        && ttsQueue == old(ttsQueue) + Jobs(Emitted(step))
        && (ttsFirstTextIndex, ttsLastTextIndex) ==
             MarkSpoken(old(ttsFirstTextIndex), old(ttsLastTextIndex), SegmentIndices(Emitted(step)))
    {
      ghost var step := SegmentStep(current, textIndex, forced, clean);
      var lastPunctPos := LastPunctuation(current);
      if lastPunctPos != -1 {
        var raw := current[..lastPunctPos + 1];
        var segmentText := clean(raw);
        if segmentText != [] {
          newIndex := textIndex + 1;
          // The source queues the bare future here; the consumer needs the pair.
          Speak(segmentText, newIndex);
          return |raw|, newIndex;
        }
      } else if forced && |current| > ForcedCutLength {
        var raw := current[..ForcedCutLength];
        var segmentText := clean(raw);
        if segmentText != [] {
          newIndex := textIndex + 1;
          // The source queues the bare future here; the consumer needs the pair.
          Speak(segmentText, newIndex);
          return |raw|, newIndex;
        }
      }
      return 0, textIndex;
    }

    /**
     * `chat(query, depth)`. `stream` is what the language model's stream
     * does, or `None` when the memory query or the model call raises (which
     * includes the `function_call` intent: the name `functions` it tests is
     * not defined); `chat` then returns `None`. At depth 0 the user's message
     * opens the turn under the new `newSentenceId`. Every segment the stream
     * is cut into is queued for synthesis in order; unless the stream raises
     * (and `chat` with it), the remainder after the stream is spoken last and
     * the whole answer joins the dialogue. `ok` is false when `chat` returns
     * `None` or raises. The abort flag is read once per chunk, after
     * appending it, and does not change during the call.
     */
    method Chat(query: string, depth: nat, stream: Option<Answer>, newSentenceId: string, clean: string -> string)
      returns (ok: bool)
      modifies this`llmFinishTask, this`sentenceId, this`dialogue, this`ttsTextQueue
      modifies this`ttsQueue, this`ttsFirstTextIndex, this`ttsLastTextIndex
      ensures ok <==> stream.Some? && !Interrupted(stream.value, clientAbort)
      ensures llmFinishTask == ok
      ensures sentenceId == if depth == 0 then Some(newSentenceId) else old(sentenceId)
      ensures ttsTextQueue == old(ttsTextQueue) + if depth == 0 then [FirstAction(newSentenceId)] else []
      ensures var asked := old(dialogue) + if depth == 0 then [User(query)] else [];
        match stream
        case None => dialogue == asked && unchanged(this`ttsQueue, this`ttsFirstTextIndex, this`ttsLastTextIndex)
        case Some(a) =>
          var spoken := SpokenSegments(a, clientAbort, clean);
          && dialogue == asked + (if ok then [Assistant(Streamed(a.chunks, clientAbort, clean).full)] else [])
          && ttsQueue == old(ttsQueue) + Jobs(spoken)
          && (ttsFirstTextIndex, ttsLastTextIndex) ==
               MarkSpoken(old(ttsFirstTextIndex), old(ttsLastTextIndex), SegmentIndices(spoken))
    {
      llmFinishTask := false;
      OpenTurn(query, depth, newSentenceId);
      if stream.None? {
        return false;
      }
      var fullText, completed := SpeakAnswer(stream.value, clean);
      if !completed {
        assert dialogue + [] == dialogue;
        return false;
      }
      llmFinishTask := true;
      dialogue := dialogue + [Assistant(fullText)];
      return true;
    }

    /** At depth 0 the user's message opens a new turn: a new sentence id, and its FIRST action for synthesis. */
    method OpenTurn(query: string, depth: nat, newSentenceId: string)
      modifies this`sentenceId, this`dialogue, this`ttsTextQueue
      ensures sentenceId == if depth == 0 then Some(newSentenceId) else old(sentenceId)
      ensures ttsTextQueue == old(ttsTextQueue) + if depth == 0 then [FirstAction(newSentenceId)] else []
      ensures dialogue == old(dialogue) + if depth == 0 then [User(query)] else []
    {
      if depth == 0 {
        sentenceId := Some(newSentenceId);
        dialogue := dialogue + [User(query)];
        ttsTextQueue := ttsTextQueue + [FirstAction(newSentenceId)];
      } else {
        assert dialogue + [] == dialogue && ttsTextQueue + [] == ttsTextQueue;
      }
    }

    /**
     * The speaking half of `chat`: the loop over the stream, then, unless the
     * stream raised (`completed` false), the flush of what is left. Returns
     * the whole text received.
     */
    method SpeakAnswer(a: Answer, clean: string -> string) returns (fullText: string, completed: bool)
      modifies this`ttsQueue, this`ttsFirstTextIndex, this`ttsLastTextIndex
      ensures completed <==> !Interrupted(a, clientAbort)
      ensures fullText == Streamed(a.chunks, clientAbort, clean).full
      ensures var spoken := SpokenSegments(a, clientAbort, clean);
        && ttsQueue == old(ttsQueue) + Jobs(spoken)
        && (ttsFirstTextIndex, ttsLastTextIndex) ==
             MarkSpoken(old(ttsFirstTextIndex), old(ttsLastTextIndex), SegmentIndices(spoken))
    {
      ghost var t;
      var processedChars, textIndex;
      fullText, processedChars, textIndex, t := StreamAnswer(a.chunks, clean);
      if a.raises && !(clientAbort && a.chunks != []) {
        // The stream raised when the loop asked for the next chunk.
        return fullText, false;
      }
      completed := true;
      ghost var queued := ttsQueue;
      SpeakRemainder(t, fullText, processedChars, textIndex, clean);
      ghost var flushed := FlushedSegments(t, clean);
      QueueExtend(old(ttsQueue), queued, ttsQueue, t.segments, flushed);
      assert Flush(t, clean).segments == t.segments + flushed;
      MarkSpokenSegmentsConcat(old(ttsFirstTextIndex), old(ttsLastTextIndex), t.segments, flushed);
    }

    /**
     * The loop of `chat` over the model's stream: returns the text received
     * (`"".join(response_message)`), `processed_chars` and `text_index`, and
     * queues every segment cut on the way; `t` is the segmenter's state at
     * the end of the loop.
     */
    method StreamAnswer(chunks: seq<string>, clean: string -> string)
      returns (fullText: string, processedChars: nat, textIndex: nat, ghost t: Turn)
      modifies this`ttsQueue, this`ttsFirstTextIndex, this`ttsLastTextIndex
      ensures t == Streamed(chunks, clientAbort, clean)
      ensures fullText == t.full && processedChars == t.processed && textIndex == t.index
      ensures ttsQueue == old(ttsQueue) + Jobs(t.segments)
      ensures (ttsFirstTextIndex, ttsLastTextIndex) ==
                MarkSpoken(old(ttsFirstTextIndex), old(ttsLastTextIndex), SegmentIndices(t.segments))
    {
      var responseMessage: seq<string> := [];
      processedChars := 0;
      textIndex := 0;
      t := Start;
      var i := 0;
      while i < |chunks|
        invariant 0 <= i <= |chunks|
        invariant clientAbort ==> i == 0
        invariant responseMessage == chunks[..i]
        invariant t == FeedAll(chunks[..i], clean)
        invariant Joined(responseMessage) == t.full && processedChars == t.processed && textIndex == t.index
        invariant ttsQueue == old(ttsQueue) + Jobs(t.segments)
        invariant (ttsFirstTextIndex, ttsLastTextIndex) ==
                    MarkSpoken(old(ttsFirstTextIndex), old(ttsLastTextIndex), SegmentIndices(t.segments))
      {
        responseMessage := responseMessage + [chunks[i]];
        if clientAbort {
          break;
        }
        JoinedStep(chunks, i);
        FeedAllStep(chunks, i, clean);
        var full := Joined(responseMessage);
        ghost var emitted;
        ghost var next;
        ghost var queued := ttsQueue;
        processedChars, textIndex, next, emitted := StreamChunk(t, chunks[i], full, processedChars, textIndex, clean);
        QueueExtend(old(ttsQueue), queued, ttsQueue, t.segments, emitted);
        MarkSpokenSegmentsConcat(old(ttsFirstTextIndex), old(ttsLastTextIndex), t.segments, emitted);
        t := next;
        i := i + 1;
      }
      if clientAbort && chunks != [] {
        assert [chunks[0]][..0] == [];
        t := Turn(chunks[0], 0, 0, []);
      } else {
        assert chunks[..|chunks|] == chunks;
      }
      fullText := Joined(responseMessage);
    }

    /**
     * One pass of the loop of `chat` after the chunk was appended: cut the
     * text past `processed_chars` and speak the cut. `next` is the
     * segmenter's state after the pass and `emitted` the segments it added.
     */
    method StreamChunk(ghost t: Turn, chunk: string, full: string, processedChars: nat, textIndex: nat, clean: string -> string)
      returns (newProcessed: nat, newIndex: nat, ghost next: Turn, ghost emitted: seq<Segment>)
      requires t.processed <= |t.full|
      requires full == t.full + chunk && processedChars == t.processed && textIndex == t.index
      modifies this`ttsQueue, this`ttsFirstTextIndex, this`ttsLastTextIndex
      ensures next == Feed(t, chunk, clean)
      ensures newProcessed == next.processed && newIndex == next.index
      ensures next.segments == t.segments + emitted
      ensures ttsQueue == old(ttsQueue) + Jobs(emitted)
      ensures (ttsFirstTextIndex, ttsLastTextIndex) ==
                MarkSpoken(old(ttsFirstTextIndex), old(ttsLastTextIndex), SegmentIndices(emitted))
    {
      var currentText := full[processedChars..];
      ghost var step := SegmentStep(currentText, textIndex, false, clean);
      var consumed;
      consumed, newIndex := SpeakSegment(currentText, textIndex, false, clean);
      newProcessed := processedChars + consumed;
      emitted := Emitted(step);
      next := Feed(t, chunk, clean);
    }

    /** After the stream: speak what is left after `processed_chars`, when it cleans to something. */
    method SpeakRemainder(ghost t: Turn, fullText: string, processedChars: nat, textIndex: nat, clean: string -> string)
      requires fullText == t.full && processedChars == t.processed && textIndex == t.index
      requires processedChars <= |fullText|
      modifies this`ttsQueue, this`ttsFirstTextIndex, this`ttsLastTextIndex
      ensures ttsQueue == old(ttsQueue) + Jobs(FlushedSegments(t, clean))
      ensures (ttsFirstTextIndex, ttsLastTextIndex) ==
                MarkSpoken(old(ttsFirstTextIndex), old(ttsLastTextIndex), SegmentIndices(FlushedSegments(t, clean)))
    {
      var remainingText := fullText[processedChars..];
      if remainingText != [] {
        var segmentText := clean(remainingText);
        if segmentText != [] {
          Speak(segmentText, textIndex + 1);
          assert Jobs([Segment(remainingText, segmentText, textIndex + 1)]) == [QueuedJob(SynthesisJob(segmentText, textIndex + 1), textIndex + 1)];
          assert SegmentIndices([Segment(remainingText, segmentText, textIndex + 1)]) == [textIndex + 1];
        }
      }
    }
      // -------------------------------------------------------------------------
    // Tool results
    // -------------------------------------------------------------------------

    /**
     * `_handle_function_result`. A reply (see `Reply`) is spoken at
     * `textIndex` and joins the dialogue as the assistant's message; the
     * source reads an undefined name `text_index` there, which the model
     * takes as a parameter. A `REQLLM` result with text appends the tool
     * round trip and asks the model again one level deeper (`stream` is what
     * the model yields, `freshId` the id a call without one is given). An
     * empty `REQLLM` text and every other action change nothing.
     */
    method HandleFunctionResult(result: ActionResponse, call: FunctionCall, depth: nat, textIndex: int,
                                freshId: string, stream: Option<Answer>, clean: string -> string)
      modifies this`llmFinishTask, this`sentenceId, this`dialogue, this`ttsTextQueue
      modifies this`ttsQueue, this`ttsFirstTextIndex, this`ttsLastTextIndex
      ensures unchanged(this`sentenceId, this`ttsTextQueue)
      ensures Reply(result).SpeaksReply? ==>
        var text := Reply(result).text;
        && dialogue == old(dialogue) + [Assistant(text)]
        && ttsQueue == old(ttsQueue) + [QueuedJob(SynthesisJob(text, textIndex), textIndex)]
        && (ttsFirstTextIndex, ttsLastTextIndex) == MarkSpoken(old(ttsFirstTextIndex), old(ttsLastTextIndex), [textIndex])
        && llmFinishTask == old(llmFinishTask)
      ensures result.action == ReqLlm && result.result != [] ==>
        var asked := old(dialogue) + ToolRoundTrip(call, result.result, freshId);
        && (llmFinishTask <==> stream.Some? && !Interrupted(stream.value, clientAbort))
        && match stream
           case None => dialogue == asked && unchanged(this`ttsQueue, this`ttsFirstTextIndex, this`ttsLastTextIndex)
           case Some(a) =>
             var spoken := SpokenSegments(a, clientAbort, clean);
             && dialogue == asked + (if llmFinishTask then [Assistant(Streamed(a.chunks, clientAbort, clean).full)] else [])
             && ttsQueue == old(ttsQueue) + Jobs(spoken)
             && (ttsFirstTextIndex, ttsLastTextIndex) ==
                  MarkSpoken(old(ttsFirstTextIndex), old(ttsLastTextIndex), SegmentIndices(spoken))
      ensures Reply(result) == NoReply && !(result.action == ReqLlm && result.result != []) ==>
        unchanged(this`llmFinishTask, this`dialogue, this`ttsQueue, this`ttsFirstTextIndex, this`ttsLastTextIndex)
    {
      match result.action
      case Response =>
        SpeakReply(result.response, textIndex);
      case ReqLlm =>
        var text := result.result;
        if |text| > 0 {
          AskAgain(call, text, depth, freshId, stream, clean);
        }
      case NotFound =>
        SpeakReply(result.result, textIndex);
      case Error =>
        SpeakReply(result.result, textIndex);
      case Other =>
    }

    /** A reply of `_handle_function_result`: spoken at `textIndex` and recorded as the assistant's message. */
    method SpeakReply(text: string, textIndex: int)
      modifies this`dialogue, this`ttsQueue, this`ttsFirstTextIndex, this`ttsLastTextIndex
      ensures dialogue == old(dialogue) + [Assistant(text)]
      ensures ttsQueue == old(ttsQueue) + [QueuedJob(SynthesisJob(text, textIndex), textIndex)]
      ensures (ttsFirstTextIndex, ttsLastTextIndex) == MarkSpoken(old(ttsFirstTextIndex), old(ttsLastTextIndex), [textIndex])
    {
      Speak(text, textIndex);
      dialogue := dialogue + [Assistant(text)];
    }

    /** The `REQLLM` branch with text: the tool round trip joins the dialogue and the model is asked again one level deeper. */
    method AskAgain(call: FunctionCall, text: string, depth: nat, freshId: string, stream: Option<Answer>, clean: string -> string)
      modifies this`llmFinishTask, this`sentenceId, this`dialogue, this`ttsTextQueue
      modifies this`ttsQueue, this`ttsFirstTextIndex, this`ttsLastTextIndex
      ensures unchanged(this`sentenceId, this`ttsTextQueue)
      ensures llmFinishTask <==> stream.Some? && !Interrupted(stream.value, clientAbort)
      ensures var asked := old(dialogue) + ToolRoundTrip(call, text, freshId);
        match stream
        case None => dialogue == asked && unchanged(this`ttsQueue, this`ttsFirstTextIndex, this`ttsLastTextIndex)
        case Some(a) =>
          var spoken := SpokenSegments(a, clientAbort, clean);
          && dialogue == asked + (if llmFinishTask then [Assistant(Streamed(a.chunks, clientAbort, clean).full)] else [])
          && ttsQueue == old(ttsQueue) + Jobs(spoken)
          && (ttsFirstTextIndex, ttsLastTextIndex) ==
               MarkSpoken(old(ttsFirstTextIndex), old(ttsLastTextIndex), SegmentIndices(spoken))
    {
      dialogue := dialogue + ToolRoundTrip(call, text, freshId);
      assert dialogue + [] == dialogue && ttsTextQueue + [] == ttsTextQueue;
      var _ := Chat(text, depth + 1, stream, "", clean);
    }

    // -------------------------------------------------------------------------
    // Synthesis to playback
    // -------------------------------------------------------------------------

    /**
     * One pass of `_tts_priority_thread`: take the oldest pair, wait for its
     * synthesis (`result`), and hand its playback item on unless the client
     * aborted; a timeout or failure still hands on an item, without audio.
     * An empty queue times out and changes nothing.
     */
    method TtsPriorityStep(result: SynthesisResult)
      modifies this`ttsQueue, this`audioPlayQueue
      ensures old(ttsQueue) == [] ==> ttsQueue == [] && audioPlayQueue == old(audioPlayQueue)
      ensures old(ttsQueue) != [] ==>
        && ttsQueue == old(ttsQueue)[1..]
        && audioPlayQueue == old(audioPlayQueue) + if clientAbort then [] else [PlaybackItem(old(ttsQueue)[0], result)]
    {
      if ttsQueue == [] {
        return;
      }
      var item := ttsQueue[0];
      ttsQueue := ttsQueue[1..];
      var played := PlaybackItem(item, result);
      if !clientAbort {
        audioPlayQueue := audioPlayQueue + [played];
      }
    }

    /**
     * The loop of `_tts_priority_thread` while the connection runs, over the
     * first `|results|` queued jobs, `results[k]` being what waiting on the
     * k-th gives: the jobs leave the queue in order, and unless the client
     * aborted their playback items follow in the same order.
     */
    method DrainTtsQueue(results: seq<SynthesisResult>)
      requires |results| <= |ttsQueue|
      modifies this`ttsQueue, this`audioPlayQueue
      ensures old(stopped) ==> unchanged(this`ttsQueue, this`audioPlayQueue)
      ensures !old(stopped) ==>
        && ttsQueue == old(ttsQueue)[|results|..]
        && audioPlayQueue == old(audioPlayQueue) +
             if clientAbort then [] else Playback(old(ttsQueue)[..|results|], results)
    {
      if stopped {
        return;
      }
      ghost var jobs := ttsQueue;
      ghost var pending := jobs[..|results|];
      var i := 0;
      while i < |results|
        invariant 0 <= i <= |results|
        invariant ttsQueue == jobs[i..]
        invariant audioPlayQueue == old(audioPlayQueue) + if clientAbort then [] else Playback(pending[..i], results[..i])
      {
        assert ttsQueue[0] == pending[i];
        TtsPriorityStep(results[i]);
        PlaybackPrefix(pending, results, i);
        assert jobs[i..][1..] == jobs[i + 1..];
        i := i + 1;
      }
      assert pending[..|results|] == pending && results[..|results|] == results;
    }

    /** `clear_queues`: both queues are drained; nothing else changes. */
    method ClearQueues()
      modifies this`ttsQueue, this`audioPlayQueue
      ensures ttsQueue == [] && audioPlayQueue == []
    {
      while ttsQueue != []
        decreases |ttsQueue|
      {
        ttsQueue := ttsQueue[1..];
      }
      while audioPlayQueue != []
        invariant ttsQueue == []
        decreases |audioPlayQueue|
      {
        audioPlayQueue := audioPlayQueue[1..];
      }
    }

    /** The state `close` changes: the stop event is set and both queues are cleared. */
    method Close()
      modifies this`stopped, this`closeCount, this`ttsQueue, this`audioPlayQueue
      ensures stopped && closeCount == old(closeCount) + 1
      ensures ttsQueue == [] && audioPlayQueue == []
    {
      stopped := true;
      ClearQueues();
      closeCount := closeCount + 1;
    }

    // -------------------------------------------------------------------------
    // Idle watchdog
    // -------------------------------------------------------------------------

    /**
     * `_check_timeout`, waking at `wakeups` while the connection runs; each
     * wake-up reads the clock and `last_activity_time` afresh, which the
     * message handlers move on between wake-ups. At the first wake-up past
     * the idle budget it sets the stop event, then closes the connection, and
     * exits; so the connection stops exactly when some wake-up finds it idle
     * too long, and is closed at most once.
     */
    method CheckTimeout(wakeups: seq<Wakeup>)
      modifies this`stopped, this`closeCount, this`ttsQueue, this`audioPlayQueue
      ensures old(stopped) ==> unchanged(this`stopped, this`closeCount, this`ttsQueue, this`audioPlayQueue)
      ensures !old(stopped) ==>
        (stopped <==> exists k :: 0 <= k < |wakeups| && IdleExpired(wakeups[k].lastActivity, wakeups[k].now, timeoutSeconds))
      ensures closeCount == old(closeCount) + if stopped && !old(stopped) then 1 else 0
      ensures stopped && !old(stopped) ==> ttsQueue == [] && audioPlayQueue == []
      ensures !stopped ==> unchanged(this`ttsQueue, this`audioPlayQueue)
    {
      var k := 0;
      while k < |wakeups| && !stopped
        invariant 0 <= k <= |wakeups|
        invariant !old(stopped) ==> !stopped
        invariant old(stopped) ==> k == 0
        invariant forall j :: 0 <= j < k ==> !IdleExpired(wakeups[j].lastActivity, wakeups[j].now, timeoutSeconds)
        invariant unchanged(this`stopped, this`closeCount, this`ttsQueue, this`audioPlayQueue)
      {
        var lastActivity := wakeups[k].lastActivity;
        if lastActivity > 0 {
          var currentTime := wakeups[k].now;
          if currentTime - lastActivity > timeoutSeconds * 1000 {
            if !stopped {
              stopped := true;
              Close();
            }
            assert IdleExpired(wakeups[k].lastActivity, wakeups[k].now, timeoutSeconds);
            break;
          }
        }
        k := k + 1;
      }
    }
      // -------------------------------------------------------------------------
    // Private configuration
    // -------------------------------------------------------------------------

    /**
     * `_initialize_private_config` up to the rebuilding of providers.
     * Without `read_config_from_api` nothing happens. Otherwise the device's
     * configuration is fetched (`fetch`); a failed fetch asks the device to
     * bind, keeps the bind code a `DeviceBindException` carries, and
     * overlays nothing. The overlay is `Overlay`: `raised` when Python
     * raises on the way, otherwise the new configuration, output limit and
     * history setting are its result, and `flags` says which providers are
     * rebuilt.
     */
    method InitializePrivateConfig(fetch: FetchOutcome) returns (flags: InitFlags, raised: bool)
      modifies this`config, this`needBind, this`bindCode, this`maxOutputSize, this`chatHistoryConf
      ensures !readConfigFromApi ==>
        && !raised && flags == InitFlags(false, false, false, false)
        && unchanged(this`config, this`needBind, this`bindCode, this`maxOutputSize, this`chatHistoryConf)
      ensures readConfigFromApi ==>
        && needBind == (old(needBind) || !fetch.Fetched?)
        && bindCode == (if fetch.DeviceBind? then Some(fetch.bindCode) else old(bindCode))
      ensures readConfigFromApi ==>
        var p := DeviceConfig(fetch, old(config));
        var applied := Overlay(old(config), p, old(maxOutputSize), old(chatHistoryConf));
        && (raised <==> applied.None?)
        && (!raised ==>
              && Applied(config, maxOutputSize, chatHistoryConf) == applied.value
              && flags == FlagsFor(p))
    {
      flags := InitFlags(false, false, false, false);
      raised := false;
      if !readConfigFromApi {
        return;
      }
      var privateConfig := FetchPrivateConfig(fetch);
      flags := FlagsFor(privateConfig);
      var ok := ApplyOverlay(privateConfig);
      raised := !ok;
    }

    /** The overlay of a device configuration `p`, in source order; `false` when Python raises on the way. */
    method ApplyOverlay(p: map<string, Value>) returns (ok: bool)
      modifies this`config, this`maxOutputSize, this`chatHistoryConf
      ensures var applied := Overlay(old(config), p, old(maxOutputSize), old(chatHistoryConf));
        && (ok <==> applied.Some?)
        && (ok ==> Applied(config, maxOutputSize, chatHistoryConf) == applied.value)
    {
      ok := ApplySections(p);
      if ok {
        ok := ApplyEntries(p);
      }
    }

    /** The fetch: the device configuration to overlay, and the binding request when the fetch raised. */
    method FetchPrivateConfig(fetch: FetchOutcome) returns (privateConfig: map<string, Value>)
      modifies this`needBind, this`bindCode
      ensures privateConfig == DeviceConfig(fetch, config)
      ensures needBind == (old(needBind) || !fetch.Fetched?)
      ensures bindCode == (if fetch.DeviceBind? then Some(fetch.bindCode) else old(bindCode))
    {
      match fetch {
        case Fetched(q) =>
          privateConfig := q["delete_audio" := Flag(Truthy(Get(config, "delete_audio", Flag(true))))];
        case DeviceNotFound =>
          needBind := true;
          privateConfig := map[];
        case DeviceBind(code) =>
          needBind := true;
          bindCode := Some(code);
          privateConfig := map[];
        case FetchFailed =>
          needBind := true;
          privateConfig := map[];
      }
    }

    /**
     * The overlay after the provider sections: `prompt`, `voiceprint` and
     * `summaryMemory` are copied when given, then `int()` of the output limit
     * and of the history setting; `false` when `int()` raises.
     */
    method ApplyEntries(p: map<string, Value>) returns (ok: bool)
      modifies this`config, this`maxOutputSize, this`chatHistoryConf
      ensures var applied := OverlayEntries(old(config), p, old(maxOutputSize), old(chatHistoryConf));
        && (ok <==> applied.Some?)
        && (ok ==> Applied(config, maxOutputSize, chatHistoryConf) == applied.value)
    {
      config := CopyIfGiven(config, p, "prompt");
      config := CopyIfGiven(config, p, "voiceprint");
      config := CopyIfGiven(config, p, "summaryMemory");
      if Present(p, "device_max_output_size") {
        var size := AsInt(p["device_max_output_size"]);
        if size.None? {
          return false;
        }
        maxOutputSize := size.value;
      }
      if Present(p, "chat_history_conf") {
        var conf := AsInt(p["chat_history_conf"]);
        if conf.None? {
          return false;
        }
        chatHistoryConf := conf.value;
      }
      return true;
    }

    /** The five provider sections of the overlay, in source order; `false` as soon as one raises. */
    method ApplySections(p: map<string, Value>) returns (ok: bool)
      modifies this`config
      ensures ok <==> SelectAll(old(config), p, ModuleSections).Some?
      ensures ok ==> config == SelectAll(old(config), p, ModuleSections).value
    {
      assert ModuleSections[1..][1..][1..][1..][1..] == [];
      ok := ApplySection(p, "TTS");
      if !ok {
        return;
      }
      ok := ApplySection(p, "LLM");
      if !ok {
        return;
      }
      ok := ApplySection(p, "VLLM");
      if !ok {
        return;
      }
      ok := ApplySection(p, "Memory");
      if !ok {
        return;
      }
      ok := ApplySection(p, "Intent");
    }

    /**
     * One provider section: when the device configuration gives `name`, its
     * section replaces the connection's and its `selected_module` entry
     * replaces the connection's. `false` when Python raises, which happens
     * after the section itself was already copied.
     */
    method ApplySection(p: map<string, Value>, name: string) returns (ok: bool)
      requires name != "selected_module"
      modifies this`config
      ensures ok <==> SelectModule(old(config), p, name).Some?
      ensures ok ==> config == SelectModule(old(config), p, name).value
      ensures !ok ==> config == old(config)[name := p[name]]
    {
      if !Present(p, name) {
        return true;
      }
      config := config[name := p[name]];
      var chosen := Get(p, "selected_module", Null);
      var selected := Get(config, "selected_module", Null);
      if !(chosen.Section? && name in chosen.fields && selected.Section?) {
        return false;
      }
      config := config["selected_module" := Section(selected.fields[name := chosen.fields[name]])];
      return true;
    }
  }
}
