/**
 * The text segmenter of a connection (`ConnectionHandler._process_text_segment`
 * and its inline copy in `ConnectionHandler.chat`): it cuts the streamed answer
 * of the language model into speakable segments.
 *
 * The text cleaner `get_string_no_punctuation_or_emoji` is not part of this
 * model; it is the parameter `clean`, and only whether its result is empty
 * steers the segmenter.
 */
module Segmenter {
  import opened Wrappers
  import opened Text

  /** The sentence terminators, in the order the scan visits them. */
  const Punctuations: seq<char> := ['。', '.', '？', '?', '！', '!', '；', ';', '：']

  /** Without a terminator, `_process_text_segment` cuts this many characters. */
  const ForcedCutLength: nat := 10

  predicate IsTerminator(c: char) {
    c in Punctuations
  }

  // ---------------------------------------------------------------------------
  // The punctuation scan
  // ---------------------------------------------------------------------------

  /** The right-most `.` of `current` directly follows a digit: the scan takes it for a decimal point. */
  predicate DecimalQuirk(current: string) {
    var pos := RFind(current, '.');
    pos - 1 >= 0 && IsDigit(current[pos - 1])
  }

  /**
   * One round of the scan for the mark `punct`: the pair is
   * (`last_punct_pos`, `number_flag`) before and after. The flag, once cleared
   * by a decimal point, is never set again.
   */
  function ScanMark(current: string, punct: char, last: int, numberFlag: bool): (int, bool) {
    var pos := RFind(current, punct);
    var flag := if pos - 1 >= 0 && IsDigit(current[pos - 1]) && punct == '.' then false else numberFlag;
    (if pos > last && flag then pos else last, flag)
  }

  /** The scan after the first `k` marks of `Punctuations`. */
  function Scan(current: string, k: nat): (int, bool)
    requires k <= |Punctuations|
  {
    if k == 0 then (-1, true)
    else
      var (last, flag) := Scan(current, k - 1);
      ScanMark(current, Punctuations[k - 1], last, flag)
  }

  /** The right-most terminator of `current`, if any. */
  function LastTerminator(current: string): (r: Option<nat>)
    ensures r.Some? ==> r.value < |current| && IsTerminator(current[r.value])
  {
    if current == [] then None
    else if IsTerminator(current[|current| - 1]) then Some(|current| - 1)
    else LastTerminator(current[..|current| - 1])
  }

  /**
   * The position of the terminator the segmenter cuts after, if any: the
   * right-most terminator of `current`; except that when the right-most `.`
   * follows a digit, the flag it clears hides every later mark of the tuple,
   * so only the right-most `。` can be found. `ScanFindsSplit` shows that the
   * scan as written computes exactly this.
   */
  function FindSplit(current: string): (r: Option<nat>)
    ensures r.Some? ==> r.value < |current| && IsTerminator(current[r.value])
  {
    if DecimalQuirk(current) then
      if '。' in current then Some(RFind(current, '。') as nat) else None
    else LastTerminator(current)
  }

  /**
   * The scan as the source writes it: a loop over the marks that keeps the
   * right-most position found so far and the decimal-point flag.
   */
  method LastPunctuation(current: string) returns (lastPunctPos: int)
    ensures lastPunctPos == match FindSplit(current) case Some(p) => p case None => -1
  {
    lastPunctPos := -1;
    var numberFlag := true;
    for k := 0 to |Punctuations|
      invariant (lastPunctPos, numberFlag) == Scan(current, k)
    {
      var punct := Punctuations[k];
      var pos := RFind(current, punct);
      if pos - 1 >= 0 && IsDigit(current[pos - 1]) && punct == '.' {
        numberFlag := false;
      }
      if pos > lastPunctPos && numberFlag {
        lastPunctPos := pos;
      }
    }
    ScanFindsSplit(current);
  }

  /** The scan keeps a position of `current`, or -1. */
  lemma {:induction false} ScanBounds(current: string, k: nat)
    requires k <= |Punctuations|
    ensures -1 <= Scan(current, k).0 < |current|
    ensures Scan(current, k).0 >= 0 ==> IsTerminator(current[Scan(current, k).0])
  {
    if k > 0 {
      ScanBounds(current, k - 1);
    }
  }

  /** The right-most position of any of the first `k` marks, or -1. */
  function MaxRFind(current: string, k: nat): int
    requires k <= |Punctuations|
  {
    if k == 0 then -1
    else
      var m := MaxRFind(current, k - 1);
      var pos := RFind(current, Punctuations[k - 1]);
      if pos > m then pos else m
  }

  /** Without the decimal quirk the flag never clears and the scan is a running maximum. */
  lemma {:induction false} ScanIsMaximum(current: string, k: nat)
    requires k <= |Punctuations|
    requires !DecimalQuirk(current)
    ensures Scan(current, k) == (MaxRFind(current, k), true)
  {
    if k > 0 {
      ScanIsMaximum(current, k - 1);
    }
  }

  /** MaxRFind over all marks is -1 or a terminator, and no mark occurs to its right. */
  lemma {:induction false} MaxRFindBounds(current: string, k: nat)
    requires k <= |Punctuations|
    ensures -1 <= MaxRFind(current, k) < |current|
    ensures MaxRFind(current, k) >= 0 ==> IsTerminator(current[MaxRFind(current, k)])
    ensures forall j, i :: 0 <= j < k && MaxRFind(current, k) < i < |current| ==> current[i] != Punctuations[j]
  {
    if k > 0 {
      MaxRFindBounds(current, k - 1);
    }
  }

  /** With the decimal quirk, only `。` (visited before `.`) can still be chosen. */
  lemma {:induction false} ScanUnderQuirk(current: string, k: nat)
    requires 2 <= k <= |Punctuations|
    requires DecimalQuirk(current)
    ensures Scan(current, k) == (RFind(current, '。'), false)
  {
    if k > 2 {
      ScanUnderQuirk(current, k - 1);
    } else {
      assert Punctuations[0] == '。' && Punctuations[1] == '.';
      assert Scan(current, 1) == (RFind(current, '。'), true);
    }
  }

  /** `LastTerminator` is none exactly when there is no terminator, and otherwise the right-most one. */
  lemma {:induction false} LastTerminatorIsRightmost(current: string)
    ensures LastTerminator(current).None? <==> forall i :: 0 <= i < |current| ==> !IsTerminator(current[i])
    ensures LastTerminator(current).Some? ==>
      forall i :: LastTerminator(current).value < i < |current| ==> !IsTerminator(current[i])
  {
    if current != [] && !IsTerminator(current[|current| - 1]) {
      var init := current[..|current| - 1];
      LastTerminatorIsRightmost(init);
      assert forall i :: 0 <= i < |init| ==> init[i] == current[i];
    }
  }

  /** The scan as written finds `FindSplit`, with -1 for none. */
  lemma ScanFindsSplit(current: string)
    ensures Scan(current, |Punctuations|).0 == match FindSplit(current) case Some(p) => p case None => -1
  {
    if DecimalQuirk(current) {
      ScanUnderQuirk(current, |Punctuations|);
    } else {
      ScanIsMaximum(current, |Punctuations|);
      MaxRFindBounds(current, |Punctuations|);
      LastTerminatorIsRightmost(current);
      var m := MaxRFind(current, |Punctuations|);
      forall i | m < i < |current| ensures !IsTerminator(current[i]) {
        forall j | 0 <= j < |Punctuations| ensures current[i] != Punctuations[j] { }
      }
    }
  }

  // ---------------------------------------------------------------------------
  // One segmentation step
  // ---------------------------------------------------------------------------

  /** A segment handed to synthesis: the raw text consumed, its cleaned text and its 1-based index. */
  datatype Segment = Segment(raw: string, text: string, index: nat)

  /** The outcome of a step: characters consumed, the new `text_index`, and the segment emitted, if any. */
  datatype Step = Step(consumed: nat, index: nat, segment: Option<Segment>)

  /**
   * `_process_text_segment` (`forced`) and the inline copy in `chat` (not
   * `forced`, which has no length cut): cut after the chosen terminator, or,
   * when `forced` and there is none, after `ForcedCutLength` characters; the
   * cut counts only when its cleaned text is non-empty.
   */
  function SegmentStep(current: string, index: nat, forced: bool, clean: string -> string): (r: Step)
    ensures r.consumed <= |current|
  {
    var cut: Option<nat> :=
      match FindSplit(current)
      case Some(p) => Some(p + 1)
      case None => if forced && |current| > ForcedCutLength then Some(ForcedCutLength) else None;
    if cut.None? then Step(0, index, None)
    else
      var raw := current[..cut.value];
      var text := clean(raw);
      if text != [] then Step(|raw|, index + 1, Some(Segment(raw, text, index + 1)))
      else Step(0, index, None)
  }

  /**
   * What a step emits: a segment, when there is one, is the cleaned
   * non-empty text of the consumed prefix and takes the next index; without
   * one nothing moves.
   */
  lemma SegmentStepEmits(current: string, index: nat, forced: bool, clean: string -> string)
    ensures var r := SegmentStep(current, index, forced, clean);
      r.segment.Some? ==>
        && 0 < r.consumed
        && r.segment.value.raw == current[..r.consumed]
        && r.segment.value.text == clean(r.segment.value.raw) && r.segment.value.text != []
        && r.index == index + 1 && r.segment.value.index == r.index
    ensures var r := SegmentStep(current, index, forced, clean);
      r.segment.None? ==> r.consumed == 0 && r.index == index
  {
  }

  /**
   * Where a step cuts: one past the last terminator when there is one, else
   * (`forced` only) after `ForcedCutLength` characters of a longer text,
   * else nowhere.
   */
  lemma SegmentStepCuts(current: string, index: nat, forced: bool, clean: string -> string)
    ensures var r := SegmentStep(current, index, forced, clean);
      FindSplit(current).Some? ==>
        var n := FindSplit(current).value + 1;
        n <= |current| && (r.segment.Some? <==> clean(current[..n]) != []) && (r.segment.Some? ==> r.consumed == n)
    ensures var r := SegmentStep(current, index, forced, clean);
      FindSplit(current).None? && forced && |current| > ForcedCutLength ==>
        (r.segment.Some? <==> clean(current[..ForcedCutLength]) != []) && (r.segment.Some? ==> r.consumed == ForcedCutLength)
    ensures var r := SegmentStep(current, index, forced, clean);
      FindSplit(current).None? && (!forced || |current| <= ForcedCutLength) ==> r == Step(0, index, None)
  {
  }

  // ---------------------------------------------------------------------------
  // The segmenter over one streamed answer (the loop of `chat` and its flush)
  // ---------------------------------------------------------------------------

  /** `"".join(chunks)`. */
  function Joined(chunks: seq<string>): string {
    if chunks == [] then [] else Joined(chunks[..|chunks| - 1]) + chunks[|chunks| - 1]
  }

  /** The raw texts of `segments`, one after the other. */
  function Raws(segments: seq<Segment>): string {
    if segments == [] then [] else Raws(segments[..|segments| - 1]) + segments[|segments| - 1].raw
  }

  /**
   * The segmenter's state inside `chat`: the text received so far
   * (`"".join(response_message)`), the `processed_chars` watermark,
   * `text_index`, and the segments emitted so far.
   */
  datatype Turn = Turn(full: string, processed: nat, index: nat, segments: seq<Segment>)

  /** The state before the first chunk. */
  const Start: Turn := Turn([], 0, 0, [])

  /**
   * The watermark lies inside the text, the emitted raw segments are exactly
   * the text before it, and the segments are numbered 1, 2, ... with
   * `text_index` the last number given out.
   */
  predicate Consistent(t: Turn) {
    && t.processed <= |t.full|
    && Raws(t.segments) == t.full[..t.processed]
    && t.index == |t.segments|
    && forall k :: 0 <= k < |t.segments| ==> t.segments[k].index == k + 1
  }

  /** The segments a step emits: none or one. */
  function Emitted(step: Step): (r: seq<Segment>)
    ensures step.segment.Some? ==> r == [step.segment.value]
    ensures step.segment.None? ==> r == []
  {
    match step.segment
    case Some(seg) => [seg]
    case None => []
  }

  /** One pass of the loop of `chat`: append the chunk, then run the (unforced) step on the unprocessed suffix. */
  function Feed(t: Turn, chunk: string, clean: string -> string): (r: Turn)
    requires t.processed <= |t.full|
    ensures r.full == t.full + chunk
    ensures t.processed <= r.processed <= |r.full|
  {
    var full := t.full + chunk;
    var step := SegmentStep(full[t.processed..], t.index, false, clean);
    Turn(full, t.processed + step.consumed, step.index, t.segments + Emitted(step))
  }

  /** The loop of `chat` run over every chunk of the stream. */
  function FeedAll(chunks: seq<string>, clean: string -> string): (r: Turn)
    ensures r.processed <= |r.full|
  {
    if chunks == [] then Start
    else Feed(FeedAll(chunks[..|chunks| - 1], clean), chunks[|chunks| - 1], clean)
  }

  /** Feeding one more chunk is one more step on the text not yet processed. */
  lemma FeedAllStep(chunks: seq<string>, i: nat, clean: string -> string)
    requires i < |chunks|
    ensures FeedAll(chunks[..i + 1], clean) == Feed(FeedAll(chunks[..i], clean), chunks[i], clean)
  {
    assert chunks[..i + 1][..i] == chunks[..i];
  }

  /** `"".join` of one more chunk. */
  lemma JoinedStep(chunks: seq<string>, i: nat)
    requires i < |chunks|
    ensures chunks[..i + 1] == chunks[..i] + [chunks[i]]
    ensures Joined(chunks[..i + 1]) == Joined(chunks[..i]) + chunks[i]
  {
    assert chunks[..i + 1][..i] == chunks[..i];
  }

  /**
   * The state when the loop of `chat` ends: after every chunk, or, when the
   * client has aborted, after the first chunk was appended and before it was
   * scanned (the abort test follows the append).
   */
  function Streamed(chunks: seq<string>, aborted: bool, clean: string -> string): (r: Turn)
    ensures r.processed <= |r.full|
  {
    if aborted && chunks != [] then Turn(chunks[0], 0, 0, []) else FeedAll(chunks, clean)
  }

  /** The segment the flush after the stream emits: the whole unprocessed suffix, when it cleans to something. */
  function FinalSegment(t: Turn, clean: string -> string): Option<Segment>
    requires t.processed <= |t.full|
  {
    var rest := t.full[t.processed..];
    if rest != [] && clean(rest) != [] then Some(Segment(rest, clean(rest), t.index + 1)) else None
  }

  /** The segments the flush emits: none or one. */
  function FlushedSegments(t: Turn, clean: string -> string): (r: seq<Segment>)
    requires t.processed <= |t.full|
    ensures FinalSegment(t, clean).Some? ==> r == [FinalSegment(t, clean).value]
    ensures FinalSegment(t, clean).None? ==> r == []
  {
    match FinalSegment(t, clean)
    case Some(seg) => [seg]
    case None => []
  }

  /** The state after the flush: its segments are the turn's, then what the flush emits. */
  function Flush(t: Turn, clean: string -> string): (r: Turn)
    requires t.processed <= |t.full|
    ensures r.segments == t.segments + FlushedSegments(t, clean)
  {
    match FinalSegment(t, clean)
    case Some(seg) => Turn(t.full, |t.full|, t.index + 1, t.segments + [seg])
    case None => t
  }

  lemma {:induction false} RawsAppend(segments: seq<Segment>, seg: Segment)
    ensures Raws(segments + [seg]) == Raws(segments) + seg.raw
  {
    assert (segments + [seg])[..|segments|] == segments;
  }

  /**
   * A step on the unprocessed suffix of a longer text keeps the state
   * consistent, whatever the step emits, as long as it emits the consumed
   * prefix under the next index.
   */
  lemma StepKeepsConsistent(t: Turn, full: string, step: Step)
    requires Consistent(t) && t.processed <= |full| && full[..t.processed] == t.full[..t.processed]
    requires step.consumed <= |full| - t.processed
    requires step.segment.Some? ==>
      step.segment.value.raw == full[t.processed..][..step.consumed] && step.index == t.index + 1 && step.segment.value.index == step.index
    requires step.segment.None? ==> step.consumed == 0 && step.index == t.index
    ensures Consistent(Turn(full, t.processed + step.consumed, step.index, t.segments + Emitted(step)))
  {
    var r := Turn(full, t.processed + step.consumed, step.index, t.segments + Emitted(step));
    if step.segment.Some? {
      var seg := step.segment.value;
      RawsAppend(t.segments, seg);
      assert full[..t.processed + step.consumed] == full[..t.processed] + full[t.processed..][..step.consumed];
      assert r.segments == t.segments + [seg];
    } else {
      assert r.segments == t.segments;
    }
  }

  /** A pass of the loop keeps the state consistent, only appends to the text and the segments, and never moves the watermark back. */
  lemma {:induction false} FeedKeepsConsistent(t: Turn, chunk: string, clean: string -> string)
    requires Consistent(t)
    ensures Consistent(Feed(t, chunk, clean))
    ensures Feed(t, chunk, clean).segments[..|t.segments|] == t.segments
    ensures |Feed(t, chunk, clean).segments| <= |t.segments| + 1
  {
    var full := t.full + chunk;
    var step := SegmentStep(full[t.processed..], t.index, false, clean);
    SegmentStepEmits(full[t.processed..], t.index, false, clean);
    assert full[..t.processed] == t.full[..t.processed];
    StepKeepsConsistent(t, full, step);
    assert Feed(t, chunk, clean).segments == t.segments + Emitted(step);
  }

  /** After any prefix of the stream the state is consistent and holds exactly the text received. */
  lemma {:induction false} FeedAllConsistent(chunks: seq<string>, clean: string -> string)
    ensures Consistent(FeedAll(chunks, clean))
    ensures FeedAll(chunks, clean).full == Joined(chunks)
  {
    if chunks != [] {
      FeedAllConsistent(chunks[..|chunks| - 1], clean);
      FeedKeepsConsistent(FeedAll(chunks[..|chunks| - 1], clean), chunks[|chunks| - 1], clean);
    }
  }

  /** The flush keeps the state consistent; when it emits, the raw segments then make up the whole text. */
  lemma {:induction false} FlushCompletes(t: Turn, clean: string -> string)
    requires Consistent(t)
    ensures Consistent(Flush(t, clean))
    ensures Raws(t.segments) + t.full[t.processed..] == t.full
    ensures FinalSegment(t, clean).Some? ==> Raws(Flush(t, clean).segments) == t.full
    ensures FinalSegment(t, clean).None? ==> Flush(t, clean) == t
  {
    assert t.full == t.full[..t.processed] + t.full[t.processed..];
    if FinalSegment(t, clean).Some? {
      RawsAppend(t.segments, FinalSegment(t, clean).value);
      assert t.full[..|t.full|] == t.full;
    }
  }

  /**
   * The segmenter loses and invents nothing: the raw segments of a turn,
   * followed by what the flush left unspoken, are exactly the streamed text
   * (and, when the flush emits, the raw segments alone are); the segments are
   * numbered 1, 2, ... in the order they are cut.
   */
  lemma SegmentsCoverStream(chunks: seq<string>, aborted: bool, clean: string -> string)
    ensures var t := Streamed(chunks, aborted, clean);
      var f := Flush(t, clean);
      && Consistent(f)
      && Raws(t.segments) + t.full[t.processed..] == t.full
      && (FinalSegment(t, clean).Some? ==> Raws(f.segments) == t.full)
      && t.full == (if aborted && chunks != [] then chunks[0] else Joined(chunks))
  {
    FeedAllConsistent(chunks, clean);
    var t := Streamed(chunks, aborted, clean);
    FlushCompletes(t, clean);
  }

  /**
   * What the language model's stream does as the loop of `chat` iterates it:
   * it yields `chunks`, then either ends or, when `raises`, raises on being
   * asked for the next one. The loop is outside the `try` of `chat`, so such
   * a raise leaves `chat` after the loop's segments were queued and before
   * the flush.
   */
  datatype Answer = Answer(chunks: seq<string>, raises: bool)

  /** The stream's raise reaches `chat`: the loop asks for a chunk after the last one unless it broke on an abort. */
  predicate Interrupted(a: Answer, aborted: bool) {
    a.raises && !(aborted && a.chunks != [])
  }

  /** The segments `chat` queues for an answer: the loop's, then the flush's unless the stream raised. */
  function SpokenSegments(a: Answer, aborted: bool, clean: string -> string): seq<Segment> {
    var t := Streamed(a.chunks, aborted, clean);
    if Interrupted(a, aborted) then t.segments else Flush(t, clean).segments
  }

  /**
   * A stream that raises loses at most the final segment: what is queued is
   * the queue of the same chunks ending normally, less at most its last
   * segment, and it is numbered 1, 2, ... either way.
   */
  lemma InterruptionLosesOnlyTheFlush(a: Answer, aborted: bool, clean: string -> string)
    ensures var s := SpokenSegments(a, aborted, clean);
      var whole := SpokenSegments(Answer(a.chunks, false), aborted, clean);
      && (forall k :: 0 <= k < |s| ==> s[k].index == k + 1)
      && |s| <= |whole| <= |s| + 1
      && s == whole[..|s|]
  {
    SegmentsCoverStream(a.chunks, aborted, clean);
    var t := Streamed(a.chunks, aborted, clean);
    assert Consistent(t) by {
      FeedAllConsistent(a.chunks, clean);
    }
  }
}
