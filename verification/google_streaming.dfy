/**
 * The Google streaming service. It runs a helper process and talks to it
 * line by line. On standard input the service writes a start prompt, then
 * the path of each chunk converted to raw audio, then a stop prompt. On
 * standard output the process announces that it is ready and reports
 * responses. Parsing a response, forcing the last result final, and the
 * chunk sender's phases are all modelled here.
 */
module GoogleStreaming {
  import opened Wrappers
  import opened Chars
  import opened JsonValues
  import opened SpeechResults
  import opened Globals
  import opened GoogleParser
  import opened SoXJob
  import opened SpeechService
  import opened ErrorText
  import Streaming
  import opened SessionEnd

  const MissingCredentialsMessage := "Missing JSON credentials file in StreamingAssets/GoogleStreamingSpeechToTextProgram"
  const ReadyToStreamDataOutputPrompt := "ready to start"
  const ClearInputStreamLine := "clear input stream"
  const StartStreamingDataInputPrompt := "start"
  const StopStreamingDataInputPrompt := "stop"
  const ResponsePrefix := "response: "

  /** The first lines written once the process is ready. */
  const Preamble: seq<string> := [ClearInputStreamLine, StartStreamingDataInputPrompt]

  // ---------------------------------------------------------------------
  // The process's standard output
  // ---------------------------------------------------------------------

  /** What a line of the process's output means to the service. */
  datatype OutputLine = ReadyPrompt | Response(json: string) | Ignored

  /**
   * Reading one line of output (`None` when the stream closed): once
   * trimmed, the ready prompt itself, or a response prefix followed by the
   * response's JSON; anything else is ignored.
   */
  function ClassifyOutput(data: Option<string>): (r: OutputLine)
    ensures r.ReadyPrompt? <==> data.Some? && Trim(data.value) == ReadyToStreamDataOutputPrompt
    ensures r.Response? <==>
      data.Some? && Trim(data.value) != ReadyToStreamDataOutputPrompt && StartsWith(Trim(data.value), ResponsePrefix)
    ensures r.Response? ==> Trim(data.value) == ResponsePrefix + r.json
  {
    match data
    case None => Ignored
    case Some(line) =>
      var trimmed := Trim(line);
      if trimmed == ReadyToStreamDataOutputPrompt then ReadyPrompt
      else if StartsWith(trimmed, ResponsePrefix) then
        assert trimmed == ResponsePrefix + trimmed[|ResponsePrefix|..];
        Response(trimmed[|ResponsePrefix|..])
      else Ignored
  }

  /**
   * A response line, padded with white space on either side, hands the
   * service exactly the JSON it carries, provided that JSON does not itself
   * end in white space.
   */
  lemma ResponseLineRoundTrip(before: string, json: string, after: string)
    requires AllWhiteSpace(before) && AllWhiteSpace(after)
    requires |json| > 0 && !IsWhiteSpace(json[|json| - 1])
    ensures ClassifyOutput(Some(before + (ResponsePrefix + json) + after)) == Response(json)
  {
    var data := before + (ResponsePrefix + json) + after;
    PaddedResponseTrims(before, json, after);
    PrefixedIsResponse(json);
    var r := ClassifyOutput(Some(data));
    assert r.Response?;
    PrefixCancels(ResponsePrefix, r.json, json);
  }

  /** A line with the response prefix is not the ready prompt, and starts with that prefix. */
  lemma PrefixedIsResponse(json: string)
    ensures ResponsePrefix + json != ReadyToStreamDataOutputPrompt
    ensures StartsWith(ResponsePrefix + json, ResponsePrefix)
  {
    var line := ResponsePrefix + json;
    assert line[2] != ReadyToStreamDataOutputPrompt[2];
    assert line[..|ResponsePrefix|] == ResponsePrefix;
  }

  /** Trimming a padded response line leaves the line. */
  lemma PaddedResponseTrims(before: string, json: string, after: string)
    requires AllWhiteSpace(before) && AllWhiteSpace(after)
    requires |json| > 0 && !IsWhiteSpace(json[|json| - 1])
    ensures Trim(before + (ResponsePrefix + json) + after) == ResponsePrefix + json
  {
    var line := ResponsePrefix + json;
    assert line[0] == 'r' && line[|line| - 1] == json[|json| - 1];
    TrimSkipsPadding(before, line, after);
  }

  lemma PrefixCancels(prefix: string, a: string, b: string)
    requires prefix + a == prefix + b
    ensures a == b
  {
    assert (prefix + a)[|prefix|..] == a;
    assert (prefix + b)[|prefix|..] == b;
  }

  /** The ready prompt, padded with white space, is recognised. */
  lemma ReadyLineRecognised(before: string, after: string)
    requires AllWhiteSpace(before) && AllWhiteSpace(after)
    ensures ClassifyOutput(Some(before + ReadyToStreamDataOutputPrompt + after)) == ReadyPrompt
  {
    TrimSkipsPadding(before, ReadyToStreamDataOutputPrompt, after);
  }

  /**
   * An empty response is lost: with nothing after the prefix, trimming
   * removes the prefix's own trailing space, and the line is ignored.
   */
  lemma EmptyResponseIgnored()
    ensures ClassifyOutput(Some(ResponsePrefix)) == Ignored
  {
    assert "" + ResponsePrefix == ResponsePrefix;
    TrimStartSkipsPadding("", ResponsePrefix);
    assert ResponsePrefix == "response:" + " ";
    TrimEndSkipsPadding("response:", " ");
    assert |Trim(ResponsePrefix)| < |ResponsePrefix|;
  }

  // ---------------------------------------------------------------------
  // Responses
  // ---------------------------------------------------------------------

  /**
   * The first entry of a response's "results", if there is one. A "results"
   * value that is not a container counts as empty.
   */
  function FirstResultJSON(response: Json): (r: Option<Json>)
    ensures r.Some? <==>
      GetField(response, GoogleResponseJSONResultsFieldKey).Some?
      && |Elements(GetField(response, GoogleResponseJSONResultsFieldKey).value)| > 0
    ensures r.Some? ==> r.value == Elements(GetField(response, GoogleResponseJSONResultsFieldKey).value)[0]
  {
    match GetField(response, GoogleResponseJSONResultsFieldKey)
    case Some(results) => if |Elements(results)| > 0 then Some(Elements(results)[0]) else None
    case None => None
  }

  /**
   * The text result of a result JSON. It has the alternatives the parser
   * reads, and it is final exactly when the "is_final" field is the literal
   * `true`. When that field is missing, the result is interim.
   */
  function StreamingTextResult(result: Json): (r: SpeechToTextResult)
    ensures r.textAlternatives == GetTextResultFromResultJSON(result).textAlternatives
    ensures r.isFinal <==> GetField(result, GoogleResponseJSONResultIsFinalFieldKey) == Some(JBool(true))
    ensures r.HasText()
  {
    var isFinal := ReadBool(result, GoogleResponseJSONResultIsFinalFieldKey, false).1;
    GetTextResultFromResultJSON(result).WithFinal(isFinal)
  }

  /**
   * Handling one response. An error report goes to the error listeners
   * first. Then, if the response has a first result, that result goes to
   * the text listeners and becomes the last result. Otherwise the last
   * result is kept.
   */
  function ProcessNextResponseJSON(lastResult: SpeechToTextResult, response: Json)
    : (r: (SpeechToTextResult, seq<Notice>))
    ensures |r.1| <= 2
    ensures GetErrorFromResponseJSON(response).Some? <==> |r.1| > 0 && r.1[0].Error?
    ensures GetErrorFromResponseJSON(response).Some? ==> r.1[0] == Error(GetErrorFromResponseJSON(response).value)
    ensures FirstResultJSON(response).Some? <==> |r.1| > 0 && r.1[|r.1| - 1].TextResult?
    ensures FirstResultJSON(response).Some? ==>
      r.0 == StreamingTextResult(FirstResultJSON(response).value) && r.1[|r.1| - 1] == TextResult(r.0)
    ensures FirstResultJSON(response).None? ==> r.0 == lastResult
  {
    var errors := match GetErrorFromResponseJSON(response)
      case Some(e) => [Error(e)]
      case None => [];
    match FirstResultJSON(response)
    case Some(result) =>
      var textResult := StreamingTextResult(result);
      (textResult, errors + [TextResult(textResult)])
    case None => (lastResult, errors)
  }

  /** A streaming response holding one result with the given alternatives and finality. */
  function StreamingResponseJson(alternatives: seq<(string, real)>, isFinal: bool): Json {
    StreamingResponseObject(AlternativeJsons(alternatives), isFinal)
  }

  /** A streaming response holding one result with the given alternative objects and finality. */
  function StreamingResponseObject(items: seq<Json>, isFinal: bool): Json {
    JObject([(GoogleResponseJSONResultsFieldKey, JArray([
      JObject(ResultObject(items).fields + [(GoogleResponseJSONResultIsFinalFieldKey, JBool(isFinal))])]))])
  }

  /** The result inside such a response lists exactly those objects and carries that finality. */
  lemma StreamingResultFields(items: seq<Json>, isFinal: bool)
    ensures var result := StreamingResponseObject(items, isFinal).fields[0].1.items[0];
      AlternativesOf(result) == items && GetField(result, GoogleResponseJSONResultIsFinalFieldKey) == Some(JBool(isFinal))
  {
    var result := StreamingResponseObject(items, isFinal).fields[0].1.items[0];
    assert result.fields == [(GoogleResponseJSONAlternativesFieldKey, JArray(items)),
                             (GoogleResponseJSONResultIsFinalFieldKey, JBool(isFinal))];
    assert GetField(result, GoogleResponseJSONAlternativesFieldKey) == Some(JArray(items));
    assert GoogleResponseJSONAlternativesFieldKey[0] != GoogleResponseJSONResultIsFinalFieldKey[0];
    assert IndexOfKey(result.fields, GoogleResponseJSONResultIsFinalFieldKey) == 1;
  }

  /** The single result of a streaming response is read back with its alternatives and finality. */
  lemma StreamingResultRoundTrip(alternatives: seq<(string, real)>, isFinal: bool)
    requires |alternatives| > 0
    ensures StreamingTextResult(StreamingResponseJson(alternatives, isFinal).fields[0].1.items[0])
         == SpeechToTextResult(isFinal, Some(AlternativesFor(alternatives)))
  {
    var items := AlternativeJsons(alternatives);
    var result := StreamingResponseObject(items, isFinal).fields[0].1.items[0];
    StreamingResultFields(items, isFinal);
    ParsesEncodedAlternatives(result, alternatives);
  }

  /** A response holding just one result, and no error, delivers that result and nothing else. */
  lemma SingleResultResponse(lastResult: SpeechToTextResult, result: Json)
    ensures var response := JObject([(GoogleResponseJSONResultsFieldKey, JArray([result]))]);
      ProcessNextResponseJSON(lastResult, response) == (StreamingTextResult(result), [TextResult(StreamingTextResult(result))])
  {
    var response := JObject([(GoogleResponseJSONResultsFieldKey, JArray([result]))]);
    assert GetField(response, GoogleResponseJSONResultsFieldKey) == Some(JArray([result]));
    assert !HasField(response, GoogleResponseJSONErrorFieldKey);
    assert FirstResultJSON(response) == Some(result);
    assert GetErrorFromResponseJSON(response).None?;
    assert [] + [TextResult(StreamingTextResult(result))] == [TextResult(StreamingTextResult(result))];
  }

  /**
   * A streaming response is read back as it was built: no error, and one
   * text result carrying its alternatives and its finality, which becomes
   * the last result.
   */
  lemma StreamingResponseRoundTrip(lastResult: SpeechToTextResult, alternatives: seq<(string, real)>, isFinal: bool)
    requires |alternatives| > 0
    ensures var expected := SpeechToTextResult(isFinal, Some(AlternativesFor(alternatives)));
      ProcessNextResponseJSON(lastResult, StreamingResponseJson(alternatives, isFinal)) == (expected, [TextResult(expected)])
  {
    var result := StreamingResponseJson(alternatives, isFinal).fields[0].1.items[0];
    assert StreamingResponseJson(alternatives, isFinal) == JObject([(GoogleResponseJSONResultsFieldKey, JArray([result]))]);
    SingleResultResponse(lastResult, result);
    StreamingResultRoundTrip(alternatives, isFinal);
  }

  /** An error response reaches the error listeners and leaves the last result alone. */
  lemma ErrorResponseKeepsLastResult(lastResult: SpeechToTextResult, code: Option<int>, message: Option<string>)
    ensures ProcessNextResponseJSON(lastResult, ErrorResponseJson(code, message))
         == (lastResult, [Error(FormatError(code, message.GetOr(UnknownError)))])
  {
    ErrorResponseRoundTrip(code, message);
    var response := ErrorResponseJson(code, message);
    assert !HasField(response, GoogleResponseJSONResultsFieldKey);
  }

  // ---------------------------------------------------------------------
  // Converting and sending chunks
  // ---------------------------------------------------------------------

  /** The conversion of a saved chunk to 16 kHz, 16-bit, mono, signed little-endian raw audio. */
  function ConversionJob(wavPath: string, rawPath: string): (job: SoXAudioConversionJob)
    ensures job.inputFilePath == wavPath && job.outputFilePath == rawPath
    ensures job.outputFileFormatting == AudioFileFormatting(1, 16, SignedInteger, Little, 16000)
    ensures job.errorMessage.None?
  {
    NewJobFromParameters(wavPath, rawPath, 16000, 16, 1, SignedInteger, Little)
  }

  /** How far the conversion of the chunk being sent has got when the sender resumes. */
  datatype JobProgress =
    | JobRunning
    | JobDone(wavPath: string, rawPath: string, soxExists: bool, outputFileAppears: bool)

  /** What became of a chunk taken from the queue. */
  datatype SendRecord = Sent(chunk: Streaming.Chunk, rawPath: string) | Failed(chunk: Streaming.Chunk, message: string)

  /** The raw-audio paths of the chunks converted successfully, in order. */
  function SentPaths(log: seq<SendRecord>): seq<string> {
    if |log| == 0 then []
    else SentPaths(log[..|log| - 1]) + (if log[|log| - 1].Sent? then [log[|log| - 1].rawPath] else [])
  }

  /** The chunks taken from the queue, in order. */
  function LoggedChunks(log: seq<SendRecord>): seq<Streaming.Chunk> {
    if |log| == 0 then [] else LoggedChunks(log[..|log| - 1]) + [log[|log| - 1].chunk]
  }

  /** Where the sender is suspended. */
  datatype Phase =
    | NoCredentials
    | AwaitingReady
    | AwaitingChunk
    | Converting(chunk: Streaming.Chunk, draining: bool)
    | Waiting(elapsed: real)
    | AwaitingExit
    | Finished

  /**
   * A session: the sender's phase, the chunk queue it shares with the
   * producer, the queue of response JSON read from the process, what became
   * of each chunk taken, the lines written to the process, the last result,
   * and every notice delivered to the listeners.
   */
  datatype Session = Session(
    phase: Phase,
    timeout: real,
    ready: bool,
    chunks: seq<Streaming.Chunk>,
    responses: seq<string>,
    sendLog: seq<SendRecord>,
    stdin: seq<string>,
    lastResult: SpeechToTextResult,
    delivered: seq<Notice>)

  /**
   * The sender starts. The response queue is cleared and the service waits
   * to hear that the process is ready. Without a credentials file the
   * sender instead reports an error and ends, and no process is started.
   * Chunks already queued stay queued.
   */
  function Begin(credentialsExist: bool, timeout: real, chunks: seq<Streaming.Chunk>): (s: Session)
    ensures s.stdin == [] && s.sendLog == [] && s.responses == [] && s.chunks == chunks && !s.ready
    ensures s.lastResult == NewTextResult("", false)
    ensures credentialsExist ==> s.phase == AwaitingReady && s.delivered == []
    ensures !credentialsExist ==> s.phase == NoCredentials && s.delivered == [Error(MissingCredentialsMessage)]
  {
    var s := Session(AwaitingReady, timeout, false, chunks, [], [], [], NewTextResult("", false), []);
    if credentialsExist then s else s.(phase := NoCredentials, delivered := [Error(MissingCredentialsMessage)])
  }

  /** A chunk is taken from the queue, and the conversion of that chunk starts. */
  function StartSend(s: Session, draining: bool): (r: Session)
    requires |s.chunks| > 0
    ensures r == s.(phase := Converting(s.chunks[0], draining), chunks := s.chunks[1..])
  {
    s.(phase := Converting(s.chunks[0], draining), chunks := s.chunks[1..])
  }

  /**
   * A finished conversion. A failed one is reported to the error listeners,
   * and nothing is written. A successful one has the path of its raw audio
   * written to the process.
   */
  function FinishConversion(s: Session, chunk: Streaming.Chunk, wavPath: string, rawPath: string, soxExists: bool,
                            outputFileAppears: bool): (r: Session)
    ensures var error := ConvertAudio(ConversionJob(wavPath, rawPath), soxExists, outputFileAppears).0.errorMessage;
      && (error.Some? ==> r == s.(sendLog := s.sendLog + [Failed(chunk, error.value)],
                                  delivered := s.delivered + [Error(error.value)]))
      && (error.None? ==> r == s.(sendLog := s.sendLog + [Sent(chunk, rawPath)], stdin := s.stdin + [rawPath]))
  {
    match ConvertAudio(ConversionJob(wavPath, rawPath), soxExists, outputFileAppears).0.errorMessage
    case Some(message) => s.(sendLog := s.sendLog + [Failed(chunk, message)], delivered := s.delivered + [Error(message)])
    case None => s.(sendLog := s.sendLog + [Sent(chunk, rawPath)], stdin := s.stdin + [rawPath])
  }

  /** The wait for the process to exit, checked at once and then each frame. */
  function CheckExit(s: Session, processExited: bool): (r: Session)
    ensures r == s.(phase := if processExited then Finished else AwaitingExit)
  {
    s.(phase := if processExited then Finished else AwaitingExit)
  }

  /**
   * The wait for a final result, `elapsed` seconds in. When it ends, an
   * interim last result is made final and delivered once more, and then the
   * service waits for the process to exit.
   */
  function CheckWait(s: Session, elapsed: real, processExited: bool): (r: Session)
    ensures StillWaiting(s.lastResult, elapsed, s.timeout) ==> r == s.(phase := Waiting(elapsed))
    ensures !StillWaiting(s.lastResult, elapsed, s.timeout) ==>
      && r.lastResult == Finalise(s.lastResult).0
      && r.delivered == s.delivered + ForcedNotices(s.lastResult)
      && (r.phase == Finished || r.phase == AwaitingExit)
      && r == s.(phase := r.phase, lastResult := r.lastResult, delivered := r.delivered)
  {
    if StillWaiting(s.lastResult, elapsed, s.timeout) then s.(phase := Waiting(elapsed))
    else
      var finalised := s.(lastResult := Finalise(s.lastResult).0, delivered := s.delivered + ForcedNotices(s.lastResult));
      CheckExit(finalised, processExited)
  }

  /** Sending what is left, then telling the process to stop and starting the wait. */
  function Drain(s: Session, processExited: bool): (r: Session)
    ensures |s.chunks| > 0 ==> r == StartSend(s, true)
    ensures |s.chunks| == 0 ==> r == CheckWait(s.(stdin := s.stdin + [StopStreamingDataInputPrompt]), 0.0, processExited)
  {
    if |s.chunks| > 0 then StartSend(s, true)
    else CheckWait(s.(stdin := s.stdin + [StopStreamingDataInputPrompt]), 0.0, processExited)
  }

  /**
   * The head of the sending loop. While recording, the sender takes the
   * next chunk, or waits for one when the queue is empty. Once recording has
   * stopped, it drains the queue.
   */
  function LoopHead(s: Session, isRecording: bool, processExited: bool): (r: Session)
    ensures isRecording && |s.chunks| == 0 ==> r == s.(phase := AwaitingChunk)
    ensures isRecording && |s.chunks| > 0 ==> r == StartSend(s, false)
    ensures !isRecording ==> r == Drain(s, processExited)
  {
    if isRecording then (if |s.chunks| == 0 then s.(phase := AwaitingChunk) else StartSend(s, false))
    else Drain(s, processExited)
  }

  /**
   * The sender resumes in a frame. The frame gives the recording flag, the
   * time since the previous frame, the state of the conversion in flight,
   * and whether the process has exited.
   */
  function OnFrame(s: Session, isRecording: bool, deltaTime: real, job: JobProgress, processExited: bool)
    : (r: Session)
    ensures s.phase.AwaitingReady? && !s.ready ==> r == s
    ensures s.phase.AwaitingChunk? && |s.chunks| == 0 ==> r == s
    ensures s.phase.Converting? && job.JobRunning? ==> r == s
    ensures s.phase.NoCredentials? || s.phase.Finished? ==> r == s
  {
    match s.phase
    case NoCredentials => s
    case Finished => s
    case AwaitingReady =>
      if s.ready then LoopHead(s.(stdin := s.stdin + Preamble), isRecording, processExited) else s
    case AwaitingChunk =>
      if |s.chunks| == 0 then s else StartSend(s, false)
    case Converting(chunk, draining) =>
      (match job
       case JobRunning => s
       case JobDone(wavPath, rawPath, soxExists, outputFileAppears) =>
         var done := FinishConversion(s, chunk, wavPath, rawPath, soxExists, outputFileAppears);
         if draining then Drain(done, processExited) else LoopHead(done, isRecording, processExited))
    case Waiting(elapsed) => CheckWait(s, elapsed + deltaTime, processExited)
    case AwaitingExit => if processExited then s.(phase := Finished) else s
  }

  /** What can happen between two looks at a session. */
  datatype Event =
    | Enqueue(chunk: Streaming.Chunk)
    | ProcessOutput(data: Option<string>)
    | ProcessResponse(response: Json)
    | Frame(isRecording: bool, deltaTime: real, job: JobProgress, processExited: bool)

  /**
   * One event. A line of process output may mark the process ready or queue
   * a response. In `ProcessResponse`, the response processor takes the head
   * of the response queue, and the event carries the JSON that head parses
   * to. With an empty queue, that event does nothing.
   */
  function Step(s: Session, e: Event): Session {
    match e
    case Enqueue(chunk) => s.(chunks := s.chunks + [chunk])
    case ProcessOutput(data) =>
      (match ClassifyOutput(data)
       case ReadyPrompt => s.(ready := true)
       case Response(json) => s.(responses := s.responses + [json])
       case Ignored => s)
    case ProcessResponse(response) =>
      if |s.responses| == 0 then s
      else
        var (lastResult, notices) := ProcessNextResponseJSON(s.lastResult, response);
        s.(responses := s.responses[1..], lastResult := lastResult, delivered := s.delivered + notices)
    case Frame(isRecording, deltaTime, job, processExited) => OnFrame(s, isRecording, deltaTime, job, processExited)
  }

  function Run(s: Session, events: seq<Event>): Session
    decreases |events|
  {
    if |events| == 0 then s else Run(Step(s, events[0]), events[1..])
  }

  /** The chunks some events queue, in order. */
  function Enqueued(events: seq<Event>): seq<Streaming.Chunk> {
    if |events| == 0 then []
    else (if events[0].Enqueue? then [events[0].chunk] else []) + Enqueued(events[1..])
  }

  // ---------------------------------------------------------------------
  // The protocol on the process's standard input
  // ---------------------------------------------------------------------

  /**
   * What has been written to the process. Nothing is written before it is
   * ready or when there are no credentials. After that come the preamble
   * and the path of every chunk converted successfully, in order. The stop
   * prompt comes last, and only once the wait for a final result has begun.
   */
  ghost predicate StdinProtocol(s: Session) {
    match s.phase
    case NoCredentials => s.stdin == [] && s.sendLog == []
    case AwaitingReady => s.stdin == [] && s.sendLog == []
    case AwaitingChunk => s.stdin == Preamble + SentPaths(s.sendLog)
    case Converting(_, _) => s.stdin == Preamble + SentPaths(s.sendLog)
    case Waiting(_) => s.stdin == Preamble + SentPaths(s.sendLog) + [StopStreamingDataInputPrompt]
    case AwaitingExit => s.stdin == Preamble + SentPaths(s.sendLog) + [StopStreamingDataInputPrompt]
    case Finished => s.stdin == Preamble + SentPaths(s.sendLog) + [StopStreamingDataInputPrompt]
  }

  /** The chunk whose conversion is in flight, if any. */
  function InFlight(s: Session): seq<Streaming.Chunk> {
    if s.phase.Converting? then [s.phase.chunk] else []
  }

  /** Every chunk the sender has taken, then the one in flight, then the queue. */
  function ChunkOrder(s: Session): seq<Streaming.Chunk> {
    LoggedChunks(s.sendLog) + InFlight(s) + s.chunks
  }

  lemma SentPathsSnoc(log: seq<SendRecord>, record: SendRecord)
    ensures SentPaths(log + [record]) == SentPaths(log) + (if record.Sent? then [record.rawPath] else [])
    ensures LoggedChunks(log + [record]) == LoggedChunks(log) + [record.chunk]
  {
    assert (log + [record])[..|log|] == log;
  }

  /**
   * Taking the next chunk, draining, or the head of the sending loop, from
   * any phase but a conversion in flight: each keeps the protocol and the
   * order of the chunks.
   */
  lemma StartSendKeepsProtocol(s: Session, draining: bool)
    requires |s.chunks| > 0 && s.stdin == Preamble + SentPaths(s.sendLog)
    ensures StdinProtocol(StartSend(s, draining))
    ensures ChunkOrder(StartSend(s, draining)) == LoggedChunks(s.sendLog) + s.chunks
  {
    assert s.chunks == [s.chunks[0]] + s.chunks[1..];
  }

  lemma DrainKeepsProtocol(s: Session, processExited: bool)
    requires s.stdin == Preamble + SentPaths(s.sendLog)
    ensures StdinProtocol(Drain(s, processExited))
    ensures ChunkOrder(Drain(s, processExited)) == LoggedChunks(s.sendLog) + s.chunks
  {
    if |s.chunks| > 0 {
      StartSendKeepsProtocol(s, true);
    }
  }

  lemma LoopHeadKeepsProtocol(s: Session, isRecording: bool, processExited: bool)
    requires s.stdin == Preamble + SentPaths(s.sendLog)
    ensures StdinProtocol(LoopHead(s, isRecording, processExited))
    ensures ChunkOrder(LoopHead(s, isRecording, processExited)) == LoggedChunks(s.sendLog) + s.chunks
  {
    if isRecording {
      if |s.chunks| > 0 {
        StartSendKeepsProtocol(s, false);
      }
    } else {
      DrainKeepsProtocol(s, processExited);
    }
  }

  /** Recording a finished conversion extends the written paths and the chunks taken in step. */
  lemma FinishConversionLogs(s: Session, chunk: Streaming.Chunk, wavPath: string, rawPath: string, soxExists: bool,
                             outputFileAppears: bool)
    ensures var done := FinishConversion(s, chunk, wavPath, rawPath, soxExists, outputFileAppears);
      && done.chunks == s.chunks && done.phase == s.phase
      && LoggedChunks(done.sendLog) == LoggedChunks(s.sendLog) + [chunk]
      && (s.stdin == Preamble + SentPaths(s.sendLog) ==> done.stdin == Preamble + SentPaths(done.sendLog))
  {
    var done := FinishConversion(s, chunk, wavPath, rawPath, soxExists, outputFileAppears);
    var record := done.sendLog[|s.sendLog|];
    assert done.sendLog == s.sendLog + [record];
    SentPathsSnoc(s.sendLog, record);
  }

  /** The end of a conversion keeps the protocol and the order of the chunks. */
  lemma ConversionKeepsProtocol(s: Session, isRecording: bool, job: JobProgress, processExited: bool)
    requires StdinProtocol(s) && s.phase.Converting? && job.JobDone?
    ensures var done := FinishConversion(s, s.phase.chunk, job.wavPath, job.rawPath, job.soxExists, job.outputFileAppears);
      var next := if s.phase.draining then Drain(done, processExited) else LoopHead(done, isRecording, processExited);
      StdinProtocol(next) && ChunkOrder(next) == ChunkOrder(s)
  {
    var done := FinishConversion(s, s.phase.chunk, job.wavPath, job.rawPath, job.soxExists, job.outputFileAppears);
    FinishConversionLogs(s, s.phase.chunk, job.wavPath, job.rawPath, job.soxExists, job.outputFileAppears);
    if s.phase.draining {
      DrainKeepsProtocol(done, processExited);
    } else {
      LoopHeadKeepsProtocol(done, isRecording, processExited);
    }
  }

  /** A frame keeps the protocol and the order of the chunks. */
  lemma OnFrameKeepsProtocol(s: Session, isRecording: bool, deltaTime: real, job: JobProgress, processExited: bool)
    requires StdinProtocol(s)
    ensures StdinProtocol(OnFrame(s, isRecording, deltaTime, job, processExited))
    ensures ChunkOrder(OnFrame(s, isRecording, deltaTime, job, processExited)) == ChunkOrder(s)
  {
    var r := OnFrame(s, isRecording, deltaTime, job, processExited);
    match s.phase
    case NoCredentials =>
    case Finished =>
    case AwaitingReady =>
      if s.ready {
        var started := s.(stdin := s.stdin + Preamble);
        assert r == LoopHead(started, isRecording, processExited);
        assert SentPaths(s.sendLog) == [];
        LoopHeadKeepsProtocol(started, isRecording, processExited);
      }
    case AwaitingChunk =>
      if |s.chunks| > 0 {
        assert r == StartSend(s, false);
        StartSendKeepsProtocol(s, false);
      }
    case Converting(chunk, draining) =>
      if job.JobDone? {
        ConversionKeepsProtocol(s, isRecording, job, processExited);
      }
    case Waiting(elapsed) =>
      assert r == CheckWait(s, elapsed + deltaTime, processExited);
      WaitKeepsProtocol(s, elapsed + deltaTime, processExited);
    case AwaitingExit =>
      assert r.stdin == s.stdin && r.sendLog == s.sendLog && r.chunks == s.chunks && !r.phase.Converting?;
  }

  /** A check of the wait for a final result keeps the protocol and the order of the chunks. */
  lemma WaitKeepsProtocol(s: Session, elapsed: real, processExited: bool)
    requires StdinProtocol(s) && s.phase.Waiting?
    ensures StdinProtocol(CheckWait(s, elapsed, processExited))
    ensures ChunkOrder(CheckWait(s, elapsed, processExited)) == ChunkOrder(s)
  {
    var r := CheckWait(s, elapsed, processExited);
    assert r.stdin == s.stdin && r.sendLog == s.sendLog && r.chunks == s.chunks;
  }

  /** One event keeps the protocol; only a queued chunk extends the order of the chunks. */
  lemma StepKeepsProtocol(s: Session, e: Event)
    requires StdinProtocol(s)
    ensures StdinProtocol(Step(s, e))
    ensures ChunkOrder(Step(s, e)) == ChunkOrder(s) + (if e.Enqueue? then [e.chunk] else [])
  {
    match e
    case Frame(isRecording, deltaTime, job, processExited) =>
      OnFrameKeepsProtocol(s, isRecording, deltaTime, job, processExited);
    case Enqueue(chunk) =>
      assert ChunkOrder(Step(s, e)) == ChunkOrder(s) + [chunk];
    case ProcessOutput(data) =>
      ProcessEventLeavesSender(s, e);
    case ProcessResponse(response) =>
      ProcessEventLeavesSender(s, e);
  }

  /** What the process says changes neither the sender's phase nor what it has written or taken. */
  lemma ProcessEventLeavesSender(s: Session, e: Event)
    requires e.ProcessOutput? || e.ProcessResponse?
    ensures Step(s, e).phase == s.phase && Step(s, e).stdin == s.stdin
    ensures Step(s, e).sendLog == s.sendLog && Step(s, e).chunks == s.chunks
  {
  }

  /**
   * Over any run of events, the protocol on standard input holds, and no
   * chunk is lost or reordered. The chunks taken, the one in flight and the
   * queue are, in order, every chunk that was ever queued.
   */
  lemma {:induction false} RunKeepsProtocol(s: Session, events: seq<Event>)
    requires StdinProtocol(s)
    ensures StdinProtocol(Run(s, events))
    ensures ChunkOrder(Run(s, events)) == ChunkOrder(s) + Enqueued(events)
    decreases |events|
  {
    if |events| > 0 {
      var next := Step(s, events[0]);
      assert Run(s, events) == Run(next, events[1..]);
      StepKeepsProtocol(s, events[0]);
      RunKeepsProtocol(next, events[1..]);
      assert Enqueued(events) == (if events[0].Enqueue? then [events[0].chunk] else []) + Enqueued(events[1..]);
    }
  }

  /** A session without credentials writes nothing to any process, whatever happens next. */
  lemma NoCredentialsWritesNothing(timeout: real, chunks: seq<Streaming.Chunk>, events: seq<Event>)
    ensures Run(Begin(false, timeout, chunks), events).stdin == []
  {
    var s := Begin(false, timeout, chunks);
    RunKeepsProtocol(s, events);
    NoCredentialsStays(s, events);
  }

  lemma {:induction false} NoCredentialsStays(s: Session, events: seq<Event>)
    requires s.phase.NoCredentials?
    ensures Run(s, events).phase.NoCredentials?
    decreases |events|
  {
    if |events| > 0 {
      NoCredentialsStays(Step(s, events[0]), events[1..]);
    }
  }
}
