/**
 * The streaming service base: its start and stop, and the coroutine that
 * cuts the recording into chunks of a fixed length and queues them for the
 * vendor-specific sender.
 */
module Streaming {
  import opened Wrappers
  import opened SpeechResults
  import SpeechService
  import AudioRecording

  datatype StreamingService = StreamingService(base: SpeechService.Service, lastResult: SpeechToTextResult)

  /**
   * A successful start resets the last result to one empty interim
   * alternative and starts the producer and the sender; a failed one
   * changes nothing.
   */
  function StartRecording(s: StreamingService): (r: (StreamingService, bool))
    ensures r.1 <==> !s.base.isRecording
    ensures r.1 ==> r.0.base.isRecording && r.0.lastResult == NewTextResult("", false)
    ensures r.1 ==> r.0.base.running == [SpeechService.RecordAudio, SpeechService.StreamAudioAndListenForResponses]
    ensures !r.1 ==> r.0 == s
  {
    var (base, started) := SpeechService.StartRecording(s.base);
    if started then
      (StreamingService(base.(running := base.running + [SpeechService.RecordAudio, SpeechService.StreamAudioAndListenForResponses]),
                        NewTextResult("", false)), true)
    else (s, false)
  }

  /**
   * Stopping succeeds only while recording, and then also stops the
   * microphone; the last result is left for the sender to finalise.
   */
  function StopRecording(s: StreamingService, recorder: AudioRecording.Recorder)
    : (r: (StreamingService, AudioRecording.Recorder, bool))
    ensures r.2 <==> s.base.isRecording
    ensures r.2 ==> !r.0.base.isRecording && r.1 == AudioRecording.StopRecording(recorder)
    ensures !r.2 ==> r.0 == s && r.1 == recorder
    ensures r.0.lastResult == s.lastResult && r.0.base.running == s.base.running
  {
    var (base, stopped) := SpeechService.StopRecording(s.base);
    if stopped then (s.(base := base), AudioRecording.StopRecording(recorder), true)
    else (s, recorder, false)
  }

  // ---------------------------------------------------------------------
  // The chunk producer
  // ---------------------------------------------------------------------

  /** A queued chunk: where it starts in the recording and how long it is, in seconds. */
  datatype Chunk = Chunk(offset: real, length: real)

  /**
   * Where the producer is suspended: inside a chunk begun at `startTime`,
   * at the head of its loop, or finished.
   */
  datatype ProducerPhase = InChunk(startTime: real) | AtLoopHead | Finished

  /** The producer: where it is, where the next chunk starts, and every chunk it has queued so far. */
  datatype Producer = Producer(phase: ProducerPhase, chunkStartTime: real, produced: seq<Chunk>)

  /** What the producer sees when it resumes: the time, the microphone, and the service's flag. */
  datatype Tick = Tick(time: real, micRecording: bool, isRecording: bool)

  /** The inner loop keeps waiting while the microphone records and the chunk is not yet long enough. */
  predicate KeepsWaiting(startTime: real, t: Tick, chunkLength: real) {
    t.micRecording && t.time - startTime < chunkLength
  }

  /** The total length of some chunks. */
  function SumLengths(chunks: seq<Chunk>): real {
    if |chunks| == 0 then 0.0 else SumLengths(chunks[..|chunks| - 1]) + chunks[|chunks| - 1].length
  }

  /** Every chunk is non-empty and starts where the ones before it end, the first at 0. */
  ghost predicate Contiguous(chunks: seq<Chunk>) {
    forall k :: 0 <= k < |chunks| ==> chunks[k].length > 0.0 && chunks[k].offset == SumLengths(chunks[..k])
  }

  /** The producer's bookkeeping: its chunks are contiguous and the next one starts after them. */
  ghost predicate ProducerInvariant(p: Producer) {
    Contiguous(p.produced) && p.chunkStartTime == SumLengths(p.produced)
  }

  /**
   * The end of a chunk at time `time`: a chunk of positive length is
   * queued and the next one starts after it; a zero-length one is dropped.
   */
  function EndChunk(p: Producer, startTime: real, time: real): (q: Producer)
    ensures time - startTime > 0.0 ==>
      q.produced == p.produced + [Chunk(p.chunkStartTime, time - startTime)]
      && q.chunkStartTime == p.chunkStartTime + (time - startTime)
    ensures time - startTime <= 0.0 ==> q.produced == p.produced && q.chunkStartTime == p.chunkStartTime
  {
    var length := time - startTime;
    if length > 0.0 then
      Producer(p.phase, p.chunkStartTime + length, p.produced + [Chunk(p.chunkStartTime, length)])
    else p
  }

  lemma EndChunkKeepsInvariant(p: Producer, startTime: real, time: real)
    requires ProducerInvariant(p)
    ensures ProducerInvariant(EndChunk(p, startTime, time))
  {
    var q := EndChunk(p, startTime, time);
    if time - startTime > 0.0 {
      var n := |p.produced|;
      assert q.produced[..n] == p.produced;
      forall k | 0 <= k < |q.produced|
        ensures q.produced[k].length > 0.0 && q.produced[k].offset == SumLengths(q.produced[..k])
      {
        if k < n {
          assert q.produced[..k] == p.produced[..k];
        }
      }
    }
  }

  // As written ------------------------------------------------------------

  /**
   * The loop head as the source has it: while the flag is set, begin a
   * chunk; a chunk that ends at once (the microphone has stopped) is
   * dropped and the loop goes straight back to its head in the same frame,
   * without yielding. `fuel` bounds those passes; `None` means it ran out.
   */
  function HeadAsWritten(p: Producer, t: Tick, chunkLength: real, fuel: nat): (r: Option<Producer>)
    ensures r.Some? ==> r.value.produced == p.produced
    decreases fuel
  {
    if !t.isRecording then Some(p.(phase := Finished))
    else if KeepsWaiting(t.time, t, chunkLength) then Some(p.(phase := InChunk(t.time)))
    else if fuel == 0 then None
    else HeadAsWritten(p, t, chunkLength, fuel - 1)
  }

  /** One resumption of the producer as written. */
  function ResumeAsWritten(p: Producer, t: Tick, chunkLength: real, fuel: nat): Option<Producer> {
    match p.phase
    case InChunk(startTime) =>
      if KeepsWaiting(startTime, t, chunkLength) then Some(p)
      else HeadAsWritten(EndChunk(p, startTime, t.time), t, chunkLength, fuel)
    case AtLoopHead => HeadAsWritten(p, t, chunkLength, fuel)
    case Finished => Some(p)
  }

  /**
   * When a chunk begun at the loop head would end at once (the microphone
   * has stopped, or the chunk length is not positive) while the service's
   * flag is still set, the loop head never yields, however many passes it
   * is allowed: the frame never ends, so nothing else can clear the flag.
   */
  lemma {:induction false} HeadSpinsOnEmptyPass(p: Producer, t: Tick, chunkLength: real, fuel: nat)
    requires t.isRecording && !KeepsWaiting(t.time, t, chunkLength)
    ensures HeadAsWritten(p, t, chunkLength, fuel).None?
    decreases fuel
  {
    if fuel > 0 {
      HeadSpinsOnEmptyPass(p, t, chunkLength, fuel - 1);
    }
  }

  /**
   * The concrete case: the device ends a recording on its own (maximum
   * length reached) and the producer resumes before the timeout callback
   * has cleared the service's flag.
   */
  lemma ProducerSpinsAfterDeviceTimeout(fuel: nat)
    ensures var p := Producer(InChunk(0.0), 0.0, []);
      ResumeAsWritten(p, Tick(1.0, false, true), 5.0, fuel).None?
  {
    var p := Producer(InChunk(0.0), 0.0, []);
    HeadSpinsOnEmptyPass(EndChunk(p, 0.0, 1.0), Tick(1.0, false, true), 5.0, fuel);
  }

  // Corrected -------------------------------------------------------------

  /**
   * The loop head with a yield after a pass that queued nothing: while the
   * flag is set, begin a chunk, and if it would end at once, yield and come
   * back to the head next frame.
   */
  function Head(p: Producer, t: Tick, chunkLength: real): (q: Producer)
    ensures q.produced == p.produced && q.chunkStartTime == p.chunkStartTime
    ensures q.phase.Finished? <==> !t.isRecording
    ensures q.phase.InChunk? <==> t.isRecording && KeepsWaiting(t.time, t, chunkLength)
  {
    if !t.isRecording then p.(phase := Finished)
    else if KeepsWaiting(t.time, t, chunkLength) then p.(phase := InChunk(t.time))
    else p.(phase := AtLoopHead)
  }

  /**
   * One resumption of the producer: it always reaches a yield, queues at
   * most one chunk, only ever appends to the queue, and does nothing once
   * finished.
   */
  function Resume(p: Producer, t: Tick, chunkLength: real): (q: Producer)
    ensures |p.produced| <= |q.produced| <= |p.produced| + 1 && q.produced[..|p.produced|] == p.produced
    ensures p.phase.Finished? ==> q == p
    ensures p.phase.AtLoopHead? ==> q.produced == p.produced
  {
    match p.phase
    case InChunk(startTime) =>
      if KeepsWaiting(startTime, t, chunkLength) then p
      else
        var e := EndChunk(p, startTime, t.time);
        if t.time - startTime > 0.0 then Head(e, t, chunkLength) else e.(phase := AtLoopHead)
    case AtLoopHead => Head(p, t, chunkLength)
    case Finished => p
  }

  /** Wherever the source's producer does yield, the corrected one yields in the same state. */
  lemma {:induction false} HeadAgreesWhenItYields(p: Producer, t: Tick, chunkLength: real, fuel: nat)
    requires HeadAsWritten(p, t, chunkLength, fuel).Some?
    ensures HeadAsWritten(p, t, chunkLength, fuel).value == Head(p, t, chunkLength)
    decreases fuel
  {
    if t.isRecording && !KeepsWaiting(t.time, t, chunkLength) {
      HeadSpinsOnEmptyPass(p, t, chunkLength, fuel);
      assert false;
    }
  }

  lemma ResumeKeepsInvariant(p: Producer, t: Tick, chunkLength: real)
    requires ProducerInvariant(p)
    ensures ProducerInvariant(Resume(p, t, chunkLength))
  {
    if p.phase.InChunk? {
      EndChunkKeepsInvariant(p, p.phase.startTime, t.time);
    }
  }

  /** The producer at the start of a session: nothing queued, and the loop head reached at once. */
  function StartProducer(t: Tick, chunkLength: real): (p: Producer)
    ensures p.produced == [] && ProducerInvariant(p)
  {
    Head(Producer(AtLoopHead, 0.0, []), t, chunkLength)
  }

  /** The producer over a sequence of frames. */
  function Run(p: Producer, ticks: seq<Tick>, chunkLength: real): Producer
    decreases |ticks|
  {
    if |ticks| == 0 then p else Run(Resume(p, ticks[0], chunkLength), ticks[1..], chunkLength)
  }

  /**
   * Over any frames: the chunks are contiguous from 0, none is empty, and
   * the queue only grows at its end (first in, first out).
   */
  lemma {:induction false} RunKeepsChunksContiguous(p: Producer, ticks: seq<Tick>, chunkLength: real)
    requires ProducerInvariant(p)
    ensures ProducerInvariant(Run(p, ticks, chunkLength))
    ensures |p.produced| <= |Run(p, ticks, chunkLength).produced|
    ensures Run(p, ticks, chunkLength).produced[..|p.produced|] == p.produced
    decreases |ticks|
  {
    if |ticks| > 0 {
      var q := Resume(p, ticks[0], chunkLength);
      ResumeKeepsInvariant(p, ticks[0], chunkLength);
      RunKeepsChunksContiguous(q, ticks[1..], chunkLength);
      var r := Run(q, ticks[1..], chunkLength);
      assert r.produced[..|p.produced|] == r.produced[..|q.produced|][..|p.produced|];
    }
  }

  /** Once the producer has seen the flag cleared, it queues nothing more. */
  lemma {:induction false} FinishedProducesNothing(p: Producer, ticks: seq<Tick>, chunkLength: real)
    requires p.phase.Finished?
    ensures Run(p, ticks, chunkLength) == p
    decreases |ticks|
  {
    if |ticks| > 0 {
      FinishedProducesNothing(Resume(p, ticks[0], chunkLength), ticks[1..], chunkLength);
    }
  }
}
