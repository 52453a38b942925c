/**
 * The Watson streaming service's sender: it sends queued chunks while
 * recording, sends whatever is left once recording stops, waits for a final
 * result, and only then tells the SDK to stop listening. The SDK's result
 * and error callbacks run between frames.
 */
module WatsonStreaming {
  import opened SpeechResults
  import opened SpeechService
  import opened Streaming
  import opened SessionEnd
  import opened WatsonComponent

  /** Where the sender is suspended. */
  datatype SenderPhase = Sending | Waiting(elapsed: real) | Done

  /**
   * A session: the sender's phase, the chunk queue it shares with the
   * producer, the chunks handed to the SDK so far, the last result, every
   * notice delivered to the listeners, and whether the SDK is listening.
   */
  datatype Session = Session(
    phase: SenderPhase,
    timeout: real,
    queue: seq<Chunk>,
    sent: seq<Chunk>,
    lastResult: SpeechToTextResult,
    delivered: seq<Notice>,
    listening: bool)

  /** What can happen between two looks at a session. */
  datatype Event =
    | Enqueue(chunk: Chunk)
    | Frame(isRecording: bool, deltaTime: real)
    | Results(results: seq<SpeechRecognitionResult>)
    | SdkError(error: string)

  /** The result callback: an empty list is ignored; otherwise the first result is converted, delivered, and kept. */
  function OnSpeechToTextResult(s: Session, results: seq<SpeechRecognitionResult>): (r: Session)
    ensures |results| == 0 ==> r == s
    ensures |results| > 0 ==>
      && r.lastResult == CreateSpeechToTextResult(results[0])
      && r.delivered == s.delivered + [TextResult(r.lastResult)]
      && r == s.(lastResult := r.lastResult, delivered := r.delivered)
  {
    if |results| > 0 then
      var textResult := CreateSpeechToTextResult(results[0]);
      s.(lastResult := textResult, delivered := s.delivered + [TextResult(textResult)])
    else s
  }

  /** The error callback forwards the SDK's text unchanged. */
  function OnSpeechToTextError(s: Session, error: string): (r: Session)
    ensures r == s.(delivered := s.delivered + [Error(error)])
  {
    s.(delivered := s.delivered + [Error(error)])
  }

  /** Ends the wait: finalise the last result, then stop listening. */
  function Finish(s: Session): (r: Session)
    ensures r.phase == Done && !r.listening && r.lastResult.isFinal
    ensures r.lastResult == Finalise(s.lastResult).0
    ensures r.delivered == s.delivered + ForcedNotices(s.lastResult)
    ensures r.queue == s.queue && r.sent == s.sent
  {
    s.(phase := Done, lastResult := Finalise(s.lastResult).0,
       delivered := s.delivered + ForcedNotices(s.lastResult), listening := false)
  }

  /** Checks the waiting loop's condition with `elapsed` seconds gone. */
  function CheckWait(s: Session, elapsed: real): (r: Session)
    ensures StillWaiting(s.lastResult, elapsed, s.timeout) ==> r == s.(phase := Waiting(elapsed))
    ensures !StillWaiting(s.lastResult, elapsed, s.timeout) ==> r == Finish(s)
  {
    if StillWaiting(s.lastResult, elapsed, s.timeout) then s.(phase := Waiting(elapsed)) else Finish(s)
  }

  /**
   * The sender resumes. While sending, an empty queue keeps it waiting for a
   * chunk whatever the flag says; otherwise every queued chunk goes to the
   * SDK in order, and if recording has stopped the wait for a final result
   * begins at once. While waiting, the frame's time is added and the
   * condition checked.
   */
  function OnFrame(s: Session, isRecording: bool, deltaTime: real): (r: Session)
    ensures r.sent + r.queue == s.sent + s.queue
    ensures s.phase.Sending? && !r.phase.Sending? ==> r.queue == [] && r.sent == s.sent + s.queue
    ensures s.phase.Sending? && |s.queue| == 0 ==> r == s
    ensures !s.phase.Sending? ==> r.queue == s.queue && r.sent == s.sent
    ensures s.listening && !r.listening ==> r.phase.Done? && r.lastResult.isFinal
    ensures s.phase.Done? ==> r == s
  {
    match s.phase
    case Sending =>
      if |s.queue| == 0 then s
      else
        var flushed := s.(queue := [], sent := s.sent + s.queue);
        if isRecording then flushed else CheckWait(flushed, 0.0)
    case Waiting(elapsed) => CheckWait(s, elapsed + deltaTime)
    case Done => s
  }

  function Step(s: Session, e: Event): Session {
    match e
    case Enqueue(chunk) => s.(queue := s.queue + [chunk])
    case Frame(isRecording, deltaTime) => OnFrame(s, isRecording, deltaTime)
    case Results(results) => OnSpeechToTextResult(s, results)
    case SdkError(error) => OnSpeechToTextError(s, error)
  }

  function Run(s: Session, events: seq<Event>): Session
    decreases |events|
  {
    if |events| == 0 then s else Run(Step(s, events[0]), events[1..])
  }

  /** The chunks some events queue, in order. */
  function Enqueued(events: seq<Event>): seq<Chunk> {
    if |events| == 0 then []
    else (if events[0].Enqueue? then [events[0].chunk] else []) + Enqueued(events[1..])
  }

  /** The session the sender starts: listening, nothing sent, the reset last result. */
  function Begin(queue: seq<Chunk>, timeout: real): (s: Session)
    ensures s.listening && s.sent + s.queue == queue && s.lastResult == NewTextResult("", false)
    ensures s.phase.Sending? && s.delivered == []
  {
    OnFrame(Session(Sending, timeout, queue, [], NewTextResult("", false), [], true), true, 0.0)
  }

  /** Nothing is lost or reordered: what has been sent, followed by what is queued, is every chunk queued. */
  lemma {:induction false} ChunksSentInOrder(s: Session, events: seq<Event>)
    ensures Run(s, events).sent + Run(s, events).queue == s.sent + s.queue + Enqueued(events)
    decreases |events|
  {
    if |events| > 0 {
      var next := Step(s, events[0]);
      ChunksSentInOrder(next, events[1..]);
      assert next.sent + next.queue == s.sent + s.queue + (if events[0].Enqueue? then [events[0].chunk] else []);
    }
  }

  /**
   * The SDK listens exactly until the session is done, and it is done only
   * after the last result was made final.
   */
  ghost predicate ListeningInvariant(s: Session) {
    s.listening <==> !s.phase.Done?
  }

  lemma {:induction false} ListeningUntilDone(s: Session, events: seq<Event>)
    requires ListeningInvariant(s)
    ensures ListeningInvariant(Run(s, events))
    decreases |events|
  {
    if |events| > 0 {
      ListeningUntilDone(Step(s, events[0]), events[1..]);
    }
  }

  /**
   * Once done, the session stays done and frames deliver nothing more: the
   * forced result is delivered at most once per session, and later notices
   * come only from the SDK's callbacks.
   */
  lemma {:induction false} DoneDeliversOnlyCallbacks(s: Session, events: seq<Event>)
    requires s.phase.Done?
    ensures Run(s, events).phase.Done?
    ensures Run(s, events).sent == s.sent
    ensures forall k :: 0 <= k < |events| ==> events[k].Frame? ==> Step(Run(s, events[..k]), events[k]) == Run(s, events[..k])
    decreases |events|
  {
    if |events| > 0 {
      var next := Step(s, events[0]);
      DoneDeliversOnlyCallbacks(next, events[1..]);
      forall k | 0 <= k < |events| && events[k].Frame?
        ensures Step(Run(s, events[..k]), events[k]) == Run(s, events[..k])
      {
        if k > 0 {
          assert events[..k][1..] == events[1..][..k - 1];
          assert events[k] == events[1..][k - 1];
        }
      }
    }
  }
}
