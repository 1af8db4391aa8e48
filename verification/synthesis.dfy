/**
 * The synthesis -> playback hand-off of a connection, as values: the jobs the
 * segmenter queues (`tts_queue`), the outcome of waiting on a job, and the
 * items the synthesis consumer (`_tts_priority_thread`) passes to playback
 * (`audio_play_queue`).
 */
module Synthesis {
  import opened Wrappers
  import opened Segmenter

  /** One encoded audio packet. */
  type Frame = seq<bv8>

  /** The pending result of `executor.submit(self.speak_and_play, text, text_index)`: the call it runs. */
  datatype SynthesisJob = SynthesisJob(text: string, index: int)

  /** A `tts_queue` entry: the pending result and its `text_index`. */
  datatype QueuedJob = QueuedJob(handle: SynthesisJob, index: int)

  /** The audio file a finished synthesis named: none, a path that does not exist, or a file with its decoded packets. */
  datatype AudioFile = NoFile | MissingFile | Decoded(frames: seq<Frame>)

  /**
   * Waiting on a job (`future.result(timeout=tts_timeout)`): it finished, timed
   * out, or raised. A finished `speak_and_play` gives back the text it was
   * called with, so only its file varies.
   */
  datatype SynthesisResult = Completed(file: AudioFile) | TimedOut | Failed

  /** An `audio_play_queue` entry: `(audio_datas, text, text_index)`. */
  datatype PlayItem = PlayItem(audio: seq<Frame>, text: Option<string>, index: int)

  /** The job `speak_and_play` is submitted with for a segment, paired with its index. */
  function Job(seg: Segment): QueuedJob {
    QueuedJob(SynthesisJob(seg.text, seg.index), seg.index)
  }

  /** The jobs the segments of a turn queue, in order. */
  function Jobs(segments: seq<Segment>): (r: seq<QueuedJob>)
    ensures |r| == |segments|
  {
    if segments == [] then [] else Jobs(segments[..|segments| - 1]) + [Job(segments[|segments| - 1])]
  }

  /** The k-th job queued is the k-th segment's. */
  lemma {:induction false} JobsAt(segments: seq<Segment>, k: nat)
    requires k < |segments|
    ensures Jobs(segments)[k] == Job(segments[k])
  {
    var n := |segments| - 1;
    if k < n {
      JobsAt(segments[..n], k);
    }
  }

  lemma {:induction false} JobsAppend(a: seq<Segment>, b: seq<Segment>)
    ensures Jobs(a + b) == Jobs(a) + Jobs(b)
  {
    if b == [] {
      assert a + b == a;
    } else {
      var n := |b| - 1;
      JobsAppend(a, b[..n]);
      assert (a + b)[..|a + b| - 1] == a + b[..n];
    }
  }

  /** Queueing the jobs of one run of segments, then of the next, queues the jobs of both runs. */
  lemma QueueExtend(q0: seq<QueuedJob>, q1: seq<QueuedJob>, q2: seq<QueuedJob>, a: seq<Segment>, b: seq<Segment>)
    requires q1 == q0 + Jobs(a) && q2 == q1 + Jobs(b)
    ensures q2 == q0 + Jobs(a + b)
  {
    JobsAppend(a, b);
    assert (q0 + Jobs(a)) + Jobs(b) == q0 + (Jobs(a) + Jobs(b));
  }

  /**
   * The playback item for a job: a finished synthesis hands on the job's text,
   * with the decoded audio when the text is non-empty and the file exists,
   * and empty audio otherwise. A timeout or failure hands on neither audio
   * nor text; the index always stays the job's.
   */
  function PlaybackItem(job: QueuedJob, result: SynthesisResult): (r: PlayItem)
    ensures r.index == job.index
    ensures r.audio != [] ==> result.Completed? && result.file.Decoded? && job.handle.text != []
    ensures result.Completed? ==> r.text == Some(job.handle.text)
    ensures result.Completed? && result.file.Decoded? && job.handle.text != [] ==> r.audio == result.file.frames
    ensures !result.Completed? ==> r == PlayItem([], None, job.index)
  {
    match result
    case Completed(file) =>
      var text := job.handle.text;
      var audio :=
        if text == [] then []
        else match file
          case NoFile => []
          case MissingFile => []
          case Decoded(frames) => frames;
      PlayItem(audio, Some(text), job.index)
    case TimedOut => PlayItem([], None, job.index)
    case Failed => PlayItem([], None, job.index)
  }

  /** The playback items for the first jobs of the queue, each with the result of waiting on it. */
  function Playback(jobs: seq<QueuedJob>, results: seq<SynthesisResult>): (r: seq<PlayItem>)
    requires |jobs| == |results|
    ensures |r| == |jobs|
  {
    if jobs == [] then []
    else Playback(jobs[..|jobs| - 1], results[..|results| - 1]) + [PlaybackItem(jobs[|jobs| - 1], results[|results| - 1])]
  }

  /** The playback of one more job extends the playback of the ones before it. */
  lemma PlaybackPrefix(jobs: seq<QueuedJob>, results: seq<SynthesisResult>, i: nat)
    requires i < |jobs| && |jobs| == |results|
    ensures Playback(jobs[..i + 1], results[..i + 1]) == Playback(jobs[..i], results[..i]) + [PlaybackItem(jobs[i], results[i])]
  {
    assert jobs[..i + 1][..i] == jobs[..i] && results[..i + 1][..i] == results[..i];
  }

  /** The indices of a sequence of jobs / of playback items. */
  function JobIndices(jobs: seq<QueuedJob>): (r: seq<int>)
    ensures |r| == |jobs| && forall k :: 0 <= k < |jobs| ==> r[k] == jobs[k].index
  {
    seq(|jobs|, k requires 0 <= k < |jobs| => jobs[k].index)
  }

  function PlayIndices(items: seq<PlayItem>): seq<int>
  {
    seq(|items|, k requires 0 <= k < |items| => items[k].index)
  }

  /**
   * Playback order is submission order: the k-th item played is for the k-th
   * job queued, whatever each synthesis produced and however long it took.
   */
  lemma {:induction false} PlaybackKeepsOrder(jobs: seq<QueuedJob>, results: seq<SynthesisResult>)
    requires |jobs| == |results|
    ensures PlayIndices(Playback(jobs, results)) == JobIndices(jobs)
    ensures forall k :: 0 <= k < |jobs| ==> Playback(jobs, results)[k] == PlaybackItem(jobs[k], results[k])
  {
    if jobs != [] {
      var n := |jobs| - 1;
      PlaybackKeepsOrder(jobs[..n], results[..n]);
      var p := Playback(jobs, results);
      assert p == Playback(jobs[..n], results[..n]) + [PlaybackItem(jobs[n], results[n])];
      forall k | 0 <= k < |jobs| ensures p[k] == PlaybackItem(jobs[k], results[k]) {
        if k < n {
          assert jobs[..n][k] == jobs[k] && results[..n][k] == results[k];
        }
      }
    }
  }

  /**
   * The segments one answer queues reach playback as 1, 2, ..., n, strictly
   * increasing, whether the stream ends or raises: its jobs are queued in
   * the order they are cut, and the consumer takes them first-in first-out.
   */
  lemma TurnIsPlayedInOrder(a: Answer, aborted: bool, clean: string -> string, results: seq<SynthesisResult>)
    requires |results| == |SpokenSegments(a, aborted, clean)|
    ensures var spoken := SpokenSegments(a, aborted, clean);
      var played := PlayIndices(Playback(Jobs(spoken), results));
      && |played| == |spoken|
      && (forall k :: 0 <= k < |played| ==> played[k] == k + 1)
      && (forall j, k :: 0 <= j < k < |played| ==> played[j] < played[k])
  {
    InterruptionLosesOnlyTheFlush(a, aborted, clean);
    NumberedSegmentsPlayInOrder(SpokenSegments(a, aborted, clean), results);
  }

  /** Segments numbered 1, 2, ... are played as 1, 2, ... */
  lemma NumberedSegmentsPlayInOrder(segments: seq<Segment>, results: seq<SynthesisResult>)
    requires |results| == |segments|
    requires forall k :: 0 <= k < |segments| ==> segments[k].index == k + 1
    ensures var played := PlayIndices(Playback(Jobs(segments), results));
      && |played| == |segments|
      && (forall k :: 0 <= k < |played| ==> played[k] == k + 1)
      && (forall j, k :: 0 <= j < k < |played| ==> played[j] < played[k])
  {
    PlaybackKeepsOrder(Jobs(segments), results);
    forall k | 0 <= k < |segments| ensures Jobs(segments)[k].index == k + 1 {
      JobsAt(segments, k);
    }
  }

  // ---------------------------------------------------------------------------
  // The first and last spoken index (`recode_first_last_text`)
  // ---------------------------------------------------------------------------

  /**
   * `tts_first_text_index` and `tts_last_text_index` after recording the
   * given indices in order: the first is set only while it is -1, the last
   * is always overwritten.
   */
  function MarkSpoken(first: int, last: int, indices: seq<int>): (int, int) {
    if indices == [] then (first, last)
    else
      var (f, _) := MarkSpoken(first, last, indices[..|indices| - 1]);
      var i := indices[|indices| - 1];
      (if f == -1 then i else f, i)
  }

  /**
   * After `clearSpeakStatus`, a turn with n >= 1 segments records 1 as its
   * first and n as its last spoken index; a set first index is never moved.
   */
  lemma {:induction false} MarkSpokenOfTurn(first: int, last: int, indices: seq<int>)
    requires forall k :: 0 <= k < |indices| ==> indices[k] == k + 1
    ensures indices != [] ==> MarkSpoken(first, last, indices).1 == |indices|
    ensures indices != [] && first == -1 ==> MarkSpoken(first, last, indices).0 == 1
    ensures first != -1 ==> MarkSpoken(first, last, indices).0 == first
  {
    if indices != [] {
      MarkSpokenOfTurn(first, last, indices[..|indices| - 1]);
    }
  }

  /** Recording one more index extends the fold by one step. */
  lemma MarkSpokenAppend(first: int, last: int, indices: seq<int>, i: int)
    ensures var (f, _) := MarkSpoken(first, last, indices);
      MarkSpoken(first, last, indices + [i]) == (if f == -1 then i else f, i)
  {
    assert (indices + [i])[..|indices|] == indices;
  }

  /** Recording the indices of two runs one after the other is recording them all. */
  lemma {:induction false} MarkSpokenConcat(first: int, last: int, xs: seq<int>, ys: seq<int>)
    ensures var (f, l) := MarkSpoken(first, last, xs);
      MarkSpoken(first, last, xs + ys) == MarkSpoken(f, l, ys)
  {
    if ys == [] {
      assert xs + ys == xs;
    } else {
      var ys' := ys[..|ys| - 1];
      MarkSpokenConcat(first, last, xs, ys');
      assert (xs + ys)[..|xs + ys| - 1] == xs + ys';
    }
  }

  lemma {:induction false} SegmentIndicesAppend(a: seq<Segment>, b: seq<Segment>)
    ensures SegmentIndices(a + b) == SegmentIndices(a) + SegmentIndices(b)
  {
    if b == [] {
      assert a + b == a;
    } else {
      var n := |b| - 1;
      SegmentIndicesAppend(a, b[..n]);
      assert (a + b)[..|a + b| - 1] == a + b[..n];
    }
  }

  /** Speaking two runs of segments one after the other marks the same first and last index as speaking them together. */
  lemma MarkSpokenSegmentsConcat(first: int, last: int, a: seq<Segment>, b: seq<Segment>)
    ensures var (f, l) := MarkSpoken(first, last, SegmentIndices(a));
      MarkSpoken(first, last, SegmentIndices(a + b)) == MarkSpoken(f, l, SegmentIndices(b))
  {
    SegmentIndicesAppend(a, b);
    MarkSpokenConcat(first, last, SegmentIndices(a), SegmentIndices(b));
  }

  /** The indices of a turn's segments. */
  function SegmentIndices(segments: seq<Segment>): (r: seq<int>)
    ensures |r| == |segments|
  {
    if segments == [] then [] else SegmentIndices(segments[..|segments| - 1]) + [segments[|segments| - 1].index]
  }

  // ---------------------------------------------------------------------------
  // The queue entry `chat` pushes for a punctuated segment
  // ---------------------------------------------------------------------------

  /** What `tts_queue` can hold: a bare pending result, or the pair the consumer unpacks. */
  datatype RawQueueEntry = BareHandle(handle: SynthesisJob) | Pair(job: QueuedJob)

  /** The effect of one consumer pass: the playback item pushed, if any, and whether the speak status was cleared. */
  datatype ConsumerEffect = ConsumerEffect(played: Option<PlayItem>, speakStatusCleared: bool)

  /**
   * One pass of `_tts_priority_thread` over an entry as the code is written:
   * `future, text_index = item` raises on a bare pending result, and the
   * outer handler only clears the speak status; a pair is played unless the
   * client aborted.
   */
  function ConsumeAsWritten(entry: RawQueueEntry, result: SynthesisResult, clientAbort: bool): ConsumerEffect {
    match entry
    case BareHandle(_) => ConsumerEffect(None, true)
    case Pair(job) => ConsumerEffect(if clientAbort then None else Some(PlaybackItem(job, result)), false)
  }

  /**
   * Every segment the loop of `chat` cuts at a terminator is queued bare and
   * so is never played, whatever its synthesis gives, even without an abort.
   */
  lemma BareHandleIsNeverPlayed(segment: Segment, result: SynthesisResult)
    ensures ConsumeAsWritten(BareHandle(SynthesisJob(segment.text, segment.index)), result, false).played.None?
    ensures ConsumeAsWritten(BareHandle(SynthesisJob(segment.text, segment.index)), result, false).speakStatusCleared
  {
  }
}
